/**
  * The Profile sheet: a two-column key/value table read by first-match lookup, and the
  * data shown from it in the header, footer, objective and contact block.
  */
module Profile {
  import opened Wrappers
  import opened Text
  import opened Sheet

  /** `r && r[0] === key`: the row's first cell is the key. */
  predicate Matches(row: Row, key: string)
  {
    |row| > 0 && row[0] == key
  }

  /** `Array.prototype.find`: the index of the first row whose first cell is `key`. */
  function FindRow(table: Table, key: string): (r: Option<nat>)
    ensures r.Some? ==> r.value < |table| && Matches(table[r.value], key)
    ensures r.Some? ==> forall j :: 0 <= j < r.value ==> !Matches(table[j], key)
    ensures r.None? ==> forall j :: 0 <= j < |table| ==> !Matches(table[j], key)
  {
    if table == [] then None
    else if Matches(table[0], key) then Some(0)
    else
      match FindRow(table[1..], key)
      case None => None
      case Some(i) => Some(i + 1)
  }

  /** `getProfileValue`: the trimmed second cell of the first row keyed `key`, else `""`. */
  function ProfileValue(table: Table, key: string): (v: string)
    ensures IsTrimmed(v)
  {
    match FindRow(table, key)
    case None => ""
    case Some(i) => if Present(table[i], 1) then Trim(table[i][1]) else ""
  }

  /** The first row carrying the key decides the value; a missing or empty second cell gives `""`. */
  lemma ProfileValueFirstMatch(table: Table, key: string, i: nat)
    requires i < |table| && Matches(table[i], key)
    requires forall j :: 0 <= j < i ==> !Matches(table[j], key)
    ensures ProfileValue(table, key) == if Present(table[i], 1) then Trim(table[i][1]) else ""
  {
    var r := FindRow(table, key);
    assert r.Some?;
    assert r.value == i;
  }

  /** A key that no row carries reads as `""`. */
  lemma ProfileValueMissing(table: Table, key: string)
    requires forall j :: 0 <= j < |table| ==> !Matches(table[j], key)
    ensures ProfileValue(table, key) == ""
  {
  }

  /** Rows after the first match never change the value: later duplicate keys are ignored. */
  lemma {:induction false} ProfileValueIgnoresLaterRows(table: Table, more: Table, key: string, i: nat)
    requires i < |table| && Matches(table[i], key)
    ensures ProfileValue(table + more, key) == ProfileValue(table, key)
  {
    var r := FindRow(table, key);
    assert r.Some?;
    var m := r.value;
    assert (table + more)[m] == table[m];
    assert forall j :: 0 <= j < m ==> (table + more)[j] == table[j];
    ProfileValueFirstMatch(table + more, key, m);
    ProfileValueFirstMatch(table, key, m);
  }

  /** The schemes that the LinkedIn link may already carry. */
  predicate HasScheme(url: string)
  {
    StartsWith(url, "http://") || StartsWith(url, "https://") ||
    StartsWith(url, "mailto:") || StartsWith(url, "tel:")
  }

  /** The LinkedIn link: a value without one of the schemes gets `https://` in front. */
  function NormalizeLink(url: string): (r: string)
    ensures HasScheme(r)
    ensures HasScheme(url) ==> r == url
    ensures !HasScheme(url) ==> r == "https://" + url
  {
    if HasScheme(url) then url
    else
      StartsWithAppend("https://", "https://", url);
      "https://" + url
  }

  lemma NormalizeLinkIdempotent(url: string)
    ensures NormalizeLink(NormalizeLink(url)) == NormalizeLink(url)
  {
  }

  /** One entry of the contact block. */
  datatype Contact =
    | LinkedIn(href: string)
    | Email(href: string, text: string)
    | Phone(text: string)
    | Location(text: string)
  {
    /** Position in the block's fixed order. */
    function Rank(): nat
    {
      match this
      case LinkedIn(_) => 0
      case Email(_, _) => 1
      case Phone(_) => 2
      case Location(_) => 3
    }
  }

  /** Some entry of the block has the given rank. */
  predicate HasRank(block: seq<Contact>, rank: nat)
  {
    exists k :: 0 <= k < |block| && block[k].Rank() == rank
  }

  /** The entries come in strictly increasing rank: LinkedIn, Email, Phone, Location. */
  predicate InRankOrder(block: seq<Contact>)
  {
    forall a, b :: 0 <= a < b < |block| ==> block[a].Rank() < block[b].Rank()
  }

  /** `c`, shown only when its looked-up value is non-empty. */
  function ShownIf(value: string, c: Contact): (r: seq<Contact>)
    ensures |r| <= 1
    ensures forall k :: 0 <= k < |r| ==> r[k] == c
    ensures r != [] <==> value != ""
  {
    if value != "" then [c] else []
  }

  /** A block of at most one entry has only that entry's rank. */
  lemma ShownIfRanks(value: string, c: Contact)
    ensures InRankOrder(ShownIf(value, c))
    ensures forall rank :: HasRank(ShownIf(value, c), rank) <==> value != "" && rank == c.Rank()
  {
    var r := ShownIf(value, c);
    if value != "" {
      assert r[0] == c;
    }
  }

  /** Every entry of the block ranks below `bound`. */
  predicate RanksBelow(block: seq<Contact>, bound: nat)
  {
    forall k :: 0 <= k < |block| ==> block[k].Rank() < bound
  }

  /** Appending entries of higher rank keeps the order; a rank is present iff present in either part. */
  lemma AppendInRankOrder(a: seq<Contact>, b: seq<Contact>, bound: nat)
    requires InRankOrder(a) && InRankOrder(b)
    requires RanksBelow(a, bound)
    requires forall k :: 0 <= k < |b| ==> b[k].Rank() >= bound
    ensures InRankOrder(a + b)
    ensures RanksBelow(b, bound + 1) ==> RanksBelow(a + b, bound + 1)
    ensures forall rank :: HasRank(a + b, rank) <==> HasRank(a, rank) || HasRank(b, rank)
  {
    forall rank | HasRank(a, rank) || HasRank(b, rank) ensures HasRank(a + b, rank) {
      if HasRank(a, rank) {
        var k :| 0 <= k < |a| && a[k].Rank() == rank;
        assert (a + b)[k] == a[k];
      } else {
        var k :| 0 <= k < |b| && b[k].Rank() == rank;
        assert (a + b)[|a| + k] == b[k];
      }
    }
    forall rank | HasRank(a + b, rank) ensures HasRank(a, rank) || HasRank(b, rank) {
      var k :| 0 <= k < |a + b| && (a + b)[k].Rank() == rank;
      if k < |a| {
        assert (a + b)[k] == a[k];
      } else {
        assert (a + b)[k] == b[k - |a|];
      }
    }
  }

  /** The contact entries shown for the four looked-up values, each only when non-empty. */
  function ContactBlock(linkedIn: string, email: string, phone: string, location: string): seq<Contact>
  {
    ShownIf(linkedIn, LinkedIn(NormalizeLink(Trim(linkedIn)))) +
    ShownIf(email, Email("mailto:" + Trim(email), Trim(email))) +
    ShownIf(phone, Phone(Trim(phone))) +
    ShownIf(location, Location(Trim(location)))
  }

  /** Appending an optional entry of a rank above all in the block keeps rank order and adds only that rank. */
  lemma AppendShown(block: seq<Contact>, value: string, c: Contact)
    requires InRankOrder(block) && RanksBelow(block, c.Rank())
    ensures InRankOrder(block + ShownIf(value, c))
    ensures RanksBelow(block + ShownIf(value, c), c.Rank() + 1)
    ensures forall rank :: HasRank(block + ShownIf(value, c), rank) <==>
              HasRank(block, rank) || (value != "" && rank == c.Rank())
  {
    ShownIfRanks(value, c);
    AppendInRankOrder(block, ShownIf(value, c), c.Rank());
  }

  /** Four optional entries of ranks 0 to 3, concatenated, are in rank order and show exactly the present ones. */
  lemma ShownInOrder(a: string, b: string, c: string, d: string, ca: Contact, cb: Contact, cc: Contact, cd: Contact)
    requires ca.Rank() == 0 && cb.Rank() == 1 && cc.Rank() == 2 && cd.Rank() == 3
    ensures InRankOrder(ShownIf(a, ca) + ShownIf(b, cb) + ShownIf(c, cc) + ShownIf(d, cd))
    ensures HasRank(ShownIf(a, ca) + ShownIf(b, cb) + ShownIf(c, cc) + ShownIf(d, cd), 0) <==> a != ""
    ensures HasRank(ShownIf(a, ca) + ShownIf(b, cb) + ShownIf(c, cc) + ShownIf(d, cd), 1) <==> b != ""
    ensures HasRank(ShownIf(a, ca) + ShownIf(b, cb) + ShownIf(c, cc) + ShownIf(d, cd), 2) <==> c != ""
    ensures HasRank(ShownIf(a, ca) + ShownIf(b, cb) + ShownIf(c, cc) + ShownIf(d, cd), 3) <==> d != ""
  {
    var x1 := ShownIf(a, ca);
    ShownIfRanks(a, ca);
    assert RanksBelow(x1, 1);
    AppendShown(x1, b, cb);
    var x2 := x1 + ShownIf(b, cb);
    assert forall r :: HasRank(x2, r) <==> (a != "" && r == 0) || (b != "" && r == 1);
    AppendShown(x2, c, cc);
    var x3 := x2 + ShownIf(c, cc);
    assert forall r :: HasRank(x3, r) <==> (a != "" && r == 0) || (b != "" && r == 1) || (c != "" && r == 2);
    AppendShown(x3, d, cd);
    var x4 := x3 + ShownIf(d, cd);
    assert forall r :: HasRank(x4, r) <==>
      (a != "" && r == 0) || (b != "" && r == 1) || (c != "" && r == 2) || (d != "" && r == 3);
  }

  /** The block lists LinkedIn, Email, Phone, Location in that order, each exactly when its value is non-empty. */
  lemma ContactBlockOrder(linkedIn: string, email: string, phone: string, location: string)
    ensures InRankOrder(ContactBlock(linkedIn, email, phone, location))
    ensures HasRank(ContactBlock(linkedIn, email, phone, location), 0) <==> linkedIn != ""
    ensures HasRank(ContactBlock(linkedIn, email, phone, location), 1) <==> email != ""
    ensures HasRank(ContactBlock(linkedIn, email, phone, location), 2) <==> phone != ""
    ensures HasRank(ContactBlock(linkedIn, email, phone, location), 3) <==> location != ""
  {
    ShownInOrder(linkedIn, email, phone, location,
      LinkedIn(NormalizeLink(Trim(linkedIn))), Email("mailto:" + Trim(email), Trim(email)),
      Phone(Trim(phone)), Location(Trim(location)));
  }

  /** Every entry of the concatenation is one of the four candidates. */
  lemma ShownMembers(a: string, b: string, c: string, d: string, ca: Contact, cb: Contact, cc: Contact, cd: Contact)
    ensures forall x :: x in ShownIf(a, ca) + ShownIf(b, cb) + ShownIf(c, cc) + ShownIf(d, cd) ==>
              x == ca || x == cb || x == cc || x == cd
  {
  }

  /** The block's LinkedIn entry links to the trimmed value with a scheme ensured. */
  lemma ContactLinkedInHref(linkedIn: string, email: string, phone: string, location: string)
    ensures forall c :: c in ContactBlock(linkedIn, email, phone, location) && c.LinkedIn? ==>
              c.href == NormalizeLink(Trim(linkedIn)) && HasScheme(c.href)
  {
    var li, em := LinkedIn(NormalizeLink(Trim(linkedIn))), Email("mailto:" + Trim(email), Trim(email));
    var ph, lo := Phone(Trim(phone)), Location(Trim(location));
    ShownMembers(linkedIn, email, phone, location, li, em, ph, lo);
    assert ContactBlock(linkedIn, email, phone, location) ==
      ShownIf(linkedIn, li) + ShownIf(email, em) + ShownIf(phone, ph) + ShownIf(location, lo);
  }

  /** The block's Email entry links to `mailto:` and the trimmed address, and shows the trimmed address. */
  lemma ContactEmailEntry(linkedIn: string, email: string, phone: string, location: string)
    ensures forall c :: c in ContactBlock(linkedIn, email, phone, location) && c.Email? ==>
              c == Email("mailto:" + Trim(email), Trim(email))
  {
    var li, em := LinkedIn(NormalizeLink(Trim(linkedIn))), Email("mailto:" + Trim(email), Trim(email));
    var ph, lo := Phone(Trim(phone)), Location(Trim(location));
    ShownMembers(linkedIn, email, phone, location, li, em, ph, lo);
    assert ContactBlock(linkedIn, email, phone, location) ==
      ShownIf(linkedIn, li) + ShownIf(email, em) + ShownIf(phone, ph) + ShownIf(location, lo);
  }

  /** The block's Phone and Location entries show the trimmed phone number and the trimmed location. */
  lemma ContactPhoneLocationEntries(linkedIn: string, email: string, phone: string, location: string)
    ensures forall c :: c in ContactBlock(linkedIn, email, phone, location) && c.Phone? ==> c == Phone(Trim(phone))
    ensures forall c :: c in ContactBlock(linkedIn, email, phone, location) && c.Location? ==>
              c == Location(Trim(location))
  {
    var li, em := LinkedIn(NormalizeLink(Trim(linkedIn))), Email("mailto:" + Trim(email), Trim(email));
    var ph, lo := Phone(Trim(phone)), Location(Trim(location));
    ShownMembers(linkedIn, email, phone, location, li, em, ph, lo);
    assert ContactBlock(linkedIn, email, phone, location) ==
      ShownIf(linkedIn, li) + ShownIf(email, em) + ShownIf(phone, ph) + ShownIf(location, lo);
  }

  /** What the page shows from the Profile sheet; `Option` for the footer links that stay hidden. */
  datatype ProfileView = ProfileView(
    name: string,
    title: string,
    pictureUrl: string,
    resumeHref: string,
    objective: string,
    contacts: seq<Contact>,
    footerLinkedIn: Option<string>,
    footerEmail: Option<string>)

  const DefaultName := "Nitin Verma (Default)"
  const DefaultTitle := "Product Manager (Default)"
  const DefaultPicture := "https://via.placeholder.com/160"
  const DefaultResume := "#"
  const DefaultObjective := "Career objective could not be loaded. Please check Google Sheet \"Profile\" tab."

  /** `renderProfile`, reduced to the values it writes into the page. */
  function RenderProfile(table: Table): ProfileView
  {
    var linkedIn := ProfileValue(table, "LinkedInURL");
    var email := ProfileValue(table, "Email");
    ProfileView(
      Or(ProfileValue(table, "Name"), DefaultName),
      Or(ProfileValue(table, "Title"), DefaultTitle),
      Or(ProfileValue(table, "ProfileImageURL"), DefaultPicture),
      Or(ProfileValue(table, "ResumePDFURL"), DefaultResume),
      Or(ProfileValue(table, "Objective"), DefaultObjective),
      ContactBlock(linkedIn, email, ProfileValue(table, "Phone"), ProfileValue(table, "Location")),
      if linkedIn != "" then Some(NormalizeLink(Trim(linkedIn))) else None,
      if email != "" then Some("mailto:" + Trim(email)) else None)
  }

  /** Each header field shows its looked-up value, or its default when the lookup gives `""`; none is empty. */
  lemma RenderProfileFallbacks(table: Table)
    ensures RenderProfile(table).name == Or(ProfileValue(table, "Name"), DefaultName) != ""
    ensures RenderProfile(table).title == Or(ProfileValue(table, "Title"), DefaultTitle) != ""
    ensures RenderProfile(table).pictureUrl == Or(ProfileValue(table, "ProfileImageURL"), DefaultPicture) != ""
    ensures RenderProfile(table).resumeHref == Or(ProfileValue(table, "ResumePDFURL"), DefaultResume) != ""
    ensures RenderProfile(table).objective == Or(ProfileValue(table, "Objective"), DefaultObjective) != ""
  {
  }

  /**
    * The footer links are shown exactly when the contact block has the matching entry, and point to the
    * same places: the normalised LinkedIn value and `mailto:` with the looked-up address unchanged.
    */
  lemma RenderProfileFooterLinks(table: Table)
    ensures RenderProfile(table).footerLinkedIn.Some? <==> ProfileValue(table, "LinkedInURL") != ""
    ensures RenderProfile(table).footerLinkedIn.Some? ==>
              RenderProfile(table).footerLinkedIn.value == NormalizeLink(ProfileValue(table, "LinkedInURL"))
    ensures RenderProfile(table).footerEmail.Some? <==> ProfileValue(table, "Email") != ""
    ensures RenderProfile(table).footerEmail.Some? ==>
              RenderProfile(table).footerEmail.value == "mailto:" + ProfileValue(table, "Email")
  {
    TrimOfTrimmed(ProfileValue(table, "LinkedInURL"));
    TrimOfTrimmed(ProfileValue(table, "Email"));
  }

  /** The contact block's email link is `mailto:` followed by the looked-up address, unchanged. */
  lemma ContactEmailHref(table: Table)
    ensures forall c :: c in RenderProfile(table).contacts && c.Email? ==>
              c.href == "mailto:" + ProfileValue(table, "Email")
  {
    var email := ProfileValue(table, "Email");
    ContactEmailEntry(ProfileValue(table, "LinkedInURL"), email,
      ProfileValue(table, "Phone"), ProfileValue(table, "Location"));
    TrimOfTrimmed(email);
  }

  /** The lookup on a one-row profile: the stored name is found, another key is not. */
  lemma ProfileValueExample()
    ensures ProfileValue([["Name", "Jane Doe"]], "Name") == "Jane Doe"
    ensures ProfileValue([["Name", "Jane Doe"]], "Missing") == ""
  {
    var t: Table := [["Name", "Jane Doe"]];
    assert Matches(t[0], "Name");
    assert Present(t[0], 1) && t[0][1] == "Jane Doe";
    assert IsTrimmed("Jane Doe");
    TrimOfTrimmed("Jane Doe");
    assert t[0][0] != "Missing";
  }
}
