/**
  * The section renderers (`renderSkills`, `renderExperience`, `renderProjects`, `renderEducation`,
  * `renderAwards`, `renderTestimonials`) reduced to the data they put on the page. They share one
  * shape: a guard on the table and its first row that shows only a placeholder, then one pass over
  * the rows that skips some and turns each other row into one item.
  */
module Sections {
  import opened Text
  import opened Sheet

  datatype Section = Skills | Experience | Projects | Education | Awards | Testimonials

  /** The number of leading columns a section reads, which its first row must have. */
  function Width(s: Section): nat
  {
    match s
    case Skills => 1
    case Experience => 4
    case Projects => 2
    case Education => 3
    case Awards => 1
    case Testimonials => 2
  }

  const SkillsMissing := "Skills data not available."
  const ExperienceMissing := "Work experience data not available or incomplete. Please check sheet \"Experience\"."
  const ProjectsMissing := "Project data not available or incomplete. Please check sheet \"Projects\"."
  const EducationMissing := "Education data not available or incomplete. Please check sheet \"Education\"."
  const AwardsMissing := "Awards data not available. Please check sheet \"Awards\"."
  const TestimonialsMissing := "Testimonial data not available or incomplete. Please check sheet \"Testimonials\"."

  /** The text shown instead of the section's items. */
  function Message(s: Section): string
  {
    match s
    case Skills => SkillsMissing
    case Experience => ExperienceMissing
    case Projects => ProjectsMissing
    case Education => EducationMissing
    case Awards => AwardsMissing
    case Testimonials => TestimonialsMissing
  }

  /**
    * Whether a row produces an item. The list sections test only the first cell; the table
    * sections skip an empty row and a row whose every read column is absent.
    */
  predicate Keep(s: Section, row: Row)
  {
    match s
    case Skills => |row| > 0 && Present(row, 0)
    case Awards => |row| > 0 && Present(row, 0)
    case Experience => |row| != 0 && (Present(row, 0) || Present(row, 1) || Present(row, 2) || Present(row, 3))
    case Projects => |row| != 0 && (Present(row, 0) || Present(row, 1))
    case Education => |row| != 0 && (Present(row, 0) || Present(row, 1) || Present(row, 2))
    case Testimonials => |row| != 0 && (Present(row, 0) || Present(row, 1))
  }

  /** One uniform rule: a row is kept iff one of the section's read columns is present. */
  lemma KeepIffAnyPresent(s: Section, row: Row)
    ensures Keep(s, row) <==> AnyPresent(row, Width(s))
  {
    if Keep(s, row) {
      var j :| 0 <= j < Width(s) && Present(row, j);
    }
  }

  /** One element of a section. */
  datatype Item =
    | ListEntry(text: string)
    | TimelineEntry(date: string, title: string, company: string, details: seq<string>)
    | ProjectCard(name: string, description: string)
    | EducationEntry(degree: string, institution: string, year: string)
    | TestimonialCard(quote: string, author: string)

  const DetailsFallback := "Details not available."

  /** `map(s => s.trim())`. */
  function TrimEach(pieces: seq<string>): seq<string>
  {
    seq(|pieces|, k requires 0 <= k < |pieces| => Trim(pieces[k]))
  }

  /** Trimming piece by piece works on each part of a list separately. */
  lemma TrimEachAppend(a: seq<string>, b: seq<string>)
    ensures TrimEach(a + b) == TrimEach(a) + TrimEach(b)
  {
  }

  /** `filter(s => s)` on strings: the non-empty pieces, in order. */
  function DropEmpty(pieces: seq<string>): (r: seq<string>)
    ensures |r| <= |pieces|
    ensures forall k :: 0 <= k < |r| ==> r[k] != "" && r[k] in pieces
    ensures forall k :: 0 <= k < |pieces| && pieces[k] != "" ==> pieces[k] in r
    ensures (forall k :: 0 <= k < |pieces| ==> pieces[k] != "") ==> r == pieces
  {
    if pieces == [] then []
    else
      var rest := DropEmpty(pieces[1..]);
      assert forall k :: 1 <= k < |pieces| ==> pieces[k] == pieces[1..][k - 1];
      if pieces[0] == "" then rest else [pieces[0]] + rest
  }

  /** Filtering works on each part of a list separately, so the kept pieces stay in their order. */
  lemma {:induction false} DropEmptyAppend(a: seq<string>, b: seq<string>)
    ensures DropEmpty(a + b) == DropEmpty(a) + DropEmpty(b)
  {
    if a != [] {
      assert (a + b)[1..] == a[1..] + b;
      DropEmptyAppend(a[1..], b);
    } else {
      assert a + b == b;
    }
  }

  /** A single piece is kept exactly when it is non-empty. */
  lemma DropEmptySingle(x: string)
    ensures DropEmpty([x]) == if x == "" then [] else [x]
  {
  }

  /** The bullet points of an Experience description: `;`-separated pieces, trimmed, empty ones dropped. */
  function Points(description: string): (points: seq<string>)
    ensures forall k :: 0 <= k < |points| ==> points[k] != "" && IsTrimmed(points[k]) && ';' !in points[k]
  {
    if description == "" then []
    else
      var pieces := Split(description, ';');
      var trimmed := TrimEach(pieces);
      forall k | 0 <= k < |trimmed| ensures ';' !in trimmed[k] {
        TrimKeepsChars(pieces[k]);
      }
      DropEmpty(trimmed)
  }

  /** Points written out joined by `;` come back as the same points. */
  lemma PointsOfJoin(points: seq<string>)
    requires forall k :: 0 <= k < |points| ==> points[k] != "" && IsTrimmed(points[k]) && ';' !in points[k]
    ensures Points(Join(points, ';')) == points
  {
    if points != [] {
      var d := Join(points, ';');
      assert d != "" by { JoinNonEmpty(points, ';'); }
      SplitJoin(points, ';');
      forall k | 0 <= k < |points| ensures Trim(points[k]) == points[k] {
        TrimOfTrimmed(points[k]);
      }
      assert TrimEach(points) == points;
    }
  }

  /** The guard on an empty description changes nothing: `""` splits into one empty piece, which is dropped. */
  lemma PointsUnguarded(description: string)
    ensures Points(description) == DropEmpty(TrimEach(Split(description, ';')))
  {
    if description == "" {
      assert Split(description, ';') == [""];
      assert TrimEach([""]) == [Trim("")];
    }
  }

  /**
    * Points keep the description's order: the points of two `;`-separated parts are the
    * points of the first part followed by those of the second.
    */
  lemma PointsAtSeparator(a: string, b: string)
    ensures Points(a + ";" + b) == Points(a) + Points(b)
  {
    PointsUnguarded(a + ";" + b);
    PointsUnguarded(a);
    PointsUnguarded(b);
    SplitAtSep(a, b, ';');
    TrimEachAppend(Split(a, ';'), Split(b, ';'));
    DropEmptyAppend(TrimEach(Split(a, ';')), TrimEach(Split(b, ';')));
  }

  lemma {:induction false} JoinNonEmpty(parts: seq<string>, sep: char)
    requires parts != [] && parts[0] != ""
    ensures Join(parts, sep) != ""
  {
    if |parts| > 1 {
      assert Join(parts, sep)[0] == parts[0][0];
    }
  }

  /** A description with no `;` is one point, its trimmed text, unless that is empty. */
  lemma PointsOfSinglePiece(description: string)
    requires ';' !in description
    ensures Points(description) == if Trim(description) == "" then [] else [Trim(description)]
  {
    if description != "" {
      var pieces := Split(description, ';');
      SplitJoin([description], ';');
      assert pieces == [description];
      assert TrimEach(pieces) == [Trim(description)];
    }
  }

  /** The list under an Experience item: its points, or the single fallback line when there are none. */
  function Details(description: string): (lines: seq<string>)
    ensures |lines| > 0
    ensures forall k :: 0 <= k < |lines| ==> lines[k] != ""
    ensures |Points(description)| > 0 ==> lines == Points(description)
    ensures |Points(description)| == 0 ==> lines == [DetailsFallback]
  {
    var points := Points(description);
    if |points| > 0 then points else [DetailsFallback]
  }

  /** The item a kept row becomes: cells as written, each absent one replaced by its fallback. */
  function MakeItem(s: Section, row: Row): Item
  {
    match s
    case Skills => ListEntry(Trim(Cell(row, 0)))
    case Awards => ListEntry(Trim(Cell(row, 0)))
    case Experience =>
      TimelineEntry(CellOr(row, 0, "Date N/A"), CellOr(row, 1, "Title N/A"),
                    CellOr(row, 2, "Company N/A"), Details(Cell(row, 3)))
    case Projects => ProjectCard(CellOr(row, 0, "Project Name N/A"), CellOr(row, 1, "Description not available."))
    case Education =>
      EducationEntry(CellOr(row, 0, "Degree N/A"), CellOr(row, 1, "Institution N/A"), CellOr(row, 2, "Year N/A"))
    case Testimonials => TestimonialCard(CellOr(row, 0, "Quote not available."), CellOr(row, 1, "Author N/A"))
  }

  /** In the table sections every field shows a cell or its fallback, so none is empty. */
  lemma TableItemFieldsNonEmpty(s: Section, row: Row)
    requires s != Skills && s != Awards
    ensures MakeItem(s, row).TimelineEntry? ==>
              MakeItem(s, row).date != "" && MakeItem(s, row).title != "" && MakeItem(s, row).company != ""
    ensures MakeItem(s, row).ProjectCard? ==> MakeItem(s, row).name != "" && MakeItem(s, row).description != ""
    ensures MakeItem(s, row).EducationEntry? ==>
              MakeItem(s, row).degree != "" && MakeItem(s, row).institution != "" && MakeItem(s, row).year != ""
    ensures MakeItem(s, row).TestimonialCard? ==> MakeItem(s, row).quote != "" && MakeItem(s, row).author != ""
    ensures !MakeItem(s, row).ListEntry?
  {
  }

  /** What a section's container holds. */
  datatype View = Placeholder(message: string) | Entries(items: seq<Item>)

  /** The indices of the rows that produce items, in row order, and every such index. */
  function KeptIndices(s: Section, t: Table): (ks: seq<nat>)
    ensures |ks| <= |t|
    ensures forall k :: 0 <= k < |ks| ==> ks[k] < |t| && Keep(s, t[ks[k]])
    ensures forall a, b :: 0 <= a < b < |ks| ==> ks[a] < ks[b]
    ensures forall i :: 0 <= i < |t| && Keep(s, t[i]) ==> i in ks
  {
    if t == [] then []
    else
      var n := |t| - 1;
      assert forall i :: 0 <= i < n ==> t[..n][i] == t[i];
      KeptIndices(s, t[..n]) + if Keep(s, t[n]) then [n] else []
  }

  /** The items made from the rows at the given indices. */
  function ItemsAt(s: Section, t: Table, ks: seq<nat>): (items: seq<Item>)
    requires forall k :: 0 <= k < |ks| ==> ks[k] < |t|
    ensures |items| == |ks|
  {
    seq(|ks|, k requires 0 <= k < |ks| => MakeItem(s, t[ks[k]]))
  }

  /** Taking one more row extends the kept indices by that row's index when it is kept. */
  lemma KeptIndicesStep(s: Section, t: Table, i: nat)
    requires i < |t|
    ensures KeptIndices(s, t[..i + 1]) == KeptIndices(s, t[..i]) + if Keep(s, t[i]) then [i] else []
  {
    assert t[..i + 1][..i] == t[..i];
  }

  /** Row 0 is among the kept indices exactly when it produces an item. */
  lemma RowZeroKept(s: Section, t: Table)
    ensures 0 in KeptIndices(s, t) <==> |t| > 0 && Keep(s, t[0])
  {
    var ks := KeptIndices(s, t);
    if 0 in ks {
      var k :| 0 <= k < |ks| && ks[k] == 0;
      assert ks[k] < |t| && Keep(s, t[ks[k]]);
    }
  }

  lemma ItemsAtAppend(s: Section, t: Table, ks: seq<nat>, i: nat)
    requires i < |t| && forall k :: 0 <= k < |ks| ==> ks[k] < |t|
    ensures ItemsAt(s, t, ks + [i]) == ItemsAt(s, t, ks) + [MakeItem(s, t[i])]
  {
  }

  /** What a renderer puts in its container for the given table. */
  function SectionView(s: Section, t: Table): View
  {
    if |t| == 0 || |t[0]| < Width(s) then Placeholder(Message(s))
    else Entries(ItemsAt(s, t, KeptIndices(s, t)))
  }

  /**
    * The placeholder shows exactly when the table is empty or its first row is too short;
    * otherwise item `k` is made from the `k`-th kept row.
    */
  lemma SectionViewShape(s: Section, t: Table)
    ensures SectionView(s, t).Placeholder? <==> |t| == 0 || |t[0]| < Width(s)
    ensures SectionView(s, t).Placeholder? ==> SectionView(s, t).message == Message(s)
    ensures SectionView(s, t).Entries? ==> |SectionView(s, t).items| == |KeptIndices(s, t)| <= |t|
    ensures SectionView(s, t).Entries? ==>
              forall k :: 0 <= k < |SectionView(s, t).items| ==>
                SectionView(s, t).items[k] == MakeItem(s, t[KeptIndices(s, t)[k]])
  {
  }

  /** One step of the rendering loop keeps the items in step with the kept indices of the rows seen. */
  lemma RenderStep(s: Section, t: Table, i: nat, ks: seq<nat>, items: seq<Item>)
    requires i < |t| && ks == KeptIndices(s, t[..i])
    requires forall k :: 0 <= k < |ks| ==> ks[k] < |t|
    requires items == ItemsAt(s, t, ks)
    ensures Keep(s, t[i]) ==> ks + [i] == KeptIndices(s, t[..i + 1])
    ensures Keep(s, t[i]) ==> items + [MakeItem(s, t[i])] == ItemsAt(s, t, ks + [i])
    ensures !Keep(s, t[i]) ==> ks == KeptIndices(s, t[..i + 1])
  {
    KeptIndicesStep(s, t, i);
    if Keep(s, t[i]) {
      ItemsAtAppend(s, t, ks, i);
    }
  }

  /** The renderers' `forEach`: one item per kept row, appended in row order. */
  method CollectItems(s: Section, t: Table) returns (items: seq<Item>)
    ensures items == ItemsAt(s, t, KeptIndices(s, t))
  {
    items := [];
    ghost var ks: seq<nat> := [];
    var i := 0;
    while i < |t|
      invariant 0 <= i <= |t|
      invariant ks == KeptIndices(s, t[..i])
      invariant forall k :: 0 <= k < |ks| ==> ks[k] < |t|
      invariant items == ItemsAt(s, t, ks)
    {
      RenderStep(s, t, i, ks, items);
      if Keep(s, t[i]) {
        items := items + [MakeItem(s, t[i])];
        ks := ks + [i];
      }
      i := i + 1;
    }
    assert t[..|t|] == t;
  }

  /**
    * A renderer: clear the container, show the placeholder when the guard fails, else append
    * the items. Proved to produce exactly `SectionView`.
    */
  method RenderSection(s: Section, t: Table) returns (v: View)
    ensures v == SectionView(s, t)
  {
    if |t| == 0 || |t[0]| < Width(s) {
      v := Placeholder(Message(s));
    } else {
      var items := CollectItems(s, t);
      v := Entries(items);
    }
  }

  /** A later well-formed row cannot lift the placeholder that a short first row causes. */
  lemma ShortFirstRowHidesAll(s: Section, t: Table, more: Table)
    requires |t| > 0 && |t[0]| < Width(s)
    ensures SectionView(s, t + more) == Placeholder(Message(s))
  {
    assert (t + more)[0] == t[0];
  }

  /** A table that passes the guard but has no qualifying row gives an empty list, not the placeholder. */
  lemma NoQualifyingRows(s: Section, t: Table)
    requires |t| > 0 && |t[0]| >= Width(s)
    requires forall i :: 0 <= i < |t| ==> !Keep(s, t[i])
    ensures SectionView(s, t) == Entries([])
  {
    NoKeptIndices(s, t);
  }

  lemma {:induction false} NoKeptIndices(s: Section, t: Table)
    requires forall i :: 0 <= i < |t| ==> !Keep(s, t[i])
    ensures KeptIndices(s, t) == []
  {
    if t != [] {
      var n := |t| - 1;
      assert forall i :: 0 <= i < n ==> t[..n][i] == t[i];
      NoKeptIndices(s, t[..n]);
    }
  }

  /** Row order is kept: the item of an earlier kept row comes before the item of a later one. */
  lemma ItemsFollowRows(s: Section, t: Table, i: nat, j: nat)
    requires i < j < |t| && Keep(s, t[i]) && Keep(s, t[j])
    requires SectionView(s, t).Entries?
    ensures exists a, b :: 0 <= a < b < |KeptIndices(s, t)| && KeptIndices(s, t)[a] == i && KeptIndices(s, t)[b] == j
  {
    var ks := KeptIndices(s, t);
    var a :| 0 <= a < |ks| && ks[a] == i;
    var b :| 0 <= b < |ks| && ks[b] == j;
  }

  /** Every row of the three-row skills example below qualifies. */
  lemma SkillsExampleKept()
    ensures KeptIndices(Skills, [["Go"], [" "], ["SQL"]]) == [0, 1, 2]
  {
    var t: Table := [["Go"], [" "], ["SQL"]];
    assert KeptIndices(Skills, t[..0]) == [];
    assert t[..1][..0] == t[..0];
    assert KeptIndices(Skills, t[..1]) == [0];
    assert t[..2][..1] == t[..1];
    assert KeptIndices(Skills, t[..2]) == [0, 1];
    assert t[..3] == t;
  }

  /** A whitespace-only skill cell is truthy: it gives an entry whose text is empty, not a skipped row. */
  lemma SkillsWhitespaceRow()
    ensures SectionView(Skills, [["Go"], [" "], ["SQL"]]) ==
            Entries([ListEntry("Go"), ListEntry(""), ListEntry("SQL")])
  {
    SkillsExampleKept();
    assert IsTrimmed("Go") && IsTrimmed("SQL");
    TrimOfTrimmed("Go");
    TrimOfTrimmed("SQL");
    TrimEmptyIff(" ");
  }
}
