/**
  * The JavaScript string operations the page relies on, over `string` = `seq<char>`:
  * `trim`, `startsWith`, `includes`, `split`, and the decimal rendering of a number
  * inside a template literal.
  */
module Text {

  /** The characters `String.prototype.trim` removes: WhiteSpace and LineTerminator code points. */
  predicate IsJsWhitespace(c: char)
  {
    var n := c as int;
    n == 0x09 || n == 0x0A || n == 0x0B || n == 0x0C || n == 0x0D || n == 0x20 ||
    n == 0xA0 || n == 0x1680 || (0x2000 <= n <= 0x200A) || n == 0x2028 || n == 0x2029 ||
    n == 0x202F || n == 0x205F || n == 0x3000 || n == 0xFEFF
  }

  predicate AllWhitespace(s: string)
  {
    forall k :: 0 <= k < |s| ==> IsJsWhitespace(s[k])
  }

  /** No whitespace at either end: what `trim` leaves behind. */
  predicate IsTrimmed(s: string)
  {
    s == [] || (!IsJsWhitespace(s[0]) && !IsJsWhitespace(s[|s| - 1]))
  }

  /** Drops leading whitespace: the result is the suffix of `s` after a whitespace-only prefix. */
  function TrimStart(s: string): (r: string)
    ensures |r| <= |s|
    ensures r != [] ==> !IsJsWhitespace(r[0])
  {
    if s == [] || !IsJsWhitespace(s[0]) then s
    else TrimStart(s[1..])
  }

  /** `TrimStart` keeps a suffix of its input and drops only whitespace before it. */
  lemma {:induction false} TrimStartDropsWhitespace(s: string)
    ensures TrimStart(s) == s[|s| - |TrimStart(s)|..]
    ensures AllWhitespace(s[..|s| - |TrimStart(s)|])
  {
    if s != [] && IsJsWhitespace(s[0]) {
      var r := TrimStart(s[1..]);
      TrimStartDropsWhitespace(s[1..]);
      assert s[1..][|s| - 1 - |r|..] == s[|s| - |r|..];
      assert s[..|s| - |r|] == [s[0]] + s[1..][..|s| - 1 - |r|];
    }
  }

  /** Drops trailing whitespace: the result is the prefix of `s` before a whitespace-only suffix. */
  function TrimEnd(s: string): (r: string)
    ensures |r| <= |s|
    ensures r != [] ==> !IsJsWhitespace(r[|r| - 1])
  {
    if s == [] || !IsJsWhitespace(s[|s| - 1]) then s
    else TrimEnd(s[..|s| - 1])
  }

  /** `TrimEnd` keeps a prefix of its input and drops only whitespace after it. */
  lemma {:induction false} TrimEndDropsWhitespace(s: string)
    ensures TrimEnd(s) == s[..|TrimEnd(s)|]
    ensures AllWhitespace(s[|TrimEnd(s)|..])
  {
    if s != [] && IsJsWhitespace(s[|s| - 1]) {
      var r := TrimEnd(s[..|s| - 1]);
      TrimEndDropsWhitespace(s[..|s| - 1]);
      assert s[|r|..] == s[..|s| - 1][|r|..] + [s[|s| - 1]];
    }
  }

  /** `String.prototype.trim`. */
  function Trim(s: string): (r: string)
    ensures |r| <= |s|
    ensures IsTrimmed(r)
  {
    var a := TrimStart(s);
    var r := TrimEnd(a);
    if r == [] then r
    else
      assert !IsJsWhitespace(r[0]) by {
        TrimEndDropsWhitespace(a);
        assert r[0] == a[0];
      }
      r
  }

  /**
    * `trim` keeps one contiguous middle part of its input: what it drops before and after
    * that part is whitespace only.
    */
  lemma TrimDropsWhitespace(s: string)
    ensures |s| - |TrimStart(s)| + |Trim(s)| <= |s|
    ensures s == s[..|s| - |TrimStart(s)|] + Trim(s) + s[|s| - |TrimStart(s)| + |Trim(s)|..]
    ensures AllWhitespace(s[..|s| - |TrimStart(s)|])
    ensures AllWhitespace(s[|s| - |TrimStart(s)| + |Trim(s)|..])
  {
    var a := TrimStart(s);
    TrimStartDropsWhitespace(s);
    TrimEndDropsWhitespace(a);
    assert Trim(s) == TrimEnd(a);
    SliceThree(s, |s| - |a|, |Trim(s)|);
  }

  lemma SliceThree(s: string, i: nat, n: nat)
    requires i + n <= |s|
    ensures s == s[..i] + s[i..][..n] + s[i + n..]
    ensures s[i..][n..] == s[i + n..]
  {
  }

  /** Every character `trim` keeps was in its input. */
  lemma TrimKeepsChars(s: string)
    ensures forall c :: c in Trim(s) ==> c in s
  {
    var a := TrimStart(s);
    TrimStartDropsWhitespace(s);
    TrimEndDropsWhitespace(a);
    forall c | c in Trim(s) ensures c in s {
      var k :| 0 <= k < |Trim(s)| && Trim(s)[k] == c;
      assert c == a[k];
      assert c == s[|s| - |a| + k];
    }
  }

  /** Trimming removes exactly the whitespace at both ends, so a second trim changes nothing. */
  lemma {:induction false} TrimOfTrimmed(s: string)
    requires IsTrimmed(s)
    ensures Trim(s) == s
  {
    if s != [] {
      assert TrimStart(s) == s;
      assert TrimEnd(s) == s;
    }
  }

  lemma TrimIdempotent(s: string)
    ensures Trim(Trim(s)) == Trim(s)
  {
    TrimOfTrimmed(Trim(s));
  }

  /** `trim` yields the empty string exactly for whitespace-only input. */
  lemma {:induction false} TrimEmptyIff(s: string)
    ensures Trim(s) == [] <==> AllWhitespace(s)
  {
    var a := TrimStart(s);
    TrimStartDropsWhitespace(s);
    TrimEndDropsWhitespace(a);
    if Trim(s) == [] {
      assert a == [];
      forall k | 0 <= k < |s| ensures IsJsWhitespace(s[k]) {
        assert s[k] == s[..|s| - |a|][k];
      }
    }
  }

  /** `s.startsWith(p)`. */
  predicate StartsWith(s: string, p: string)
  {
    |p| <= |s| && s[..|p|] == p
  }

  lemma StartsWithAppend(p: string, s: string, t: string)
    requires StartsWith(s, p)
    ensures StartsWith(s + t, p)
  {
    assert (s + t)[..|p|] == s[..|p|];
  }

  lemma StartsWithOwnPrefix(p: string, t: string)
    ensures StartsWith(p + t, p)
  {
    assert (p + t)[..|p|] == p;
  }

  /** `s.includes(p)`: some position of `s` starts an occurrence of `p`. */
  predicate Contains(s: string, p: string)
    decreases |s|
  {
    StartsWith(s, p) || (s != [] && Contains(s[1..], p))
  }

  /** `p` occurs in `s` starting at index `i`. */
  predicate OccursAt(s: string, p: string, i: nat)
  {
    i + |p| <= |s| && s[i..i + |p|] == p
  }

  /** An occurrence found by `includes` is an occurrence at some index. */
  lemma {:induction false} ContainsHasOccurrence(s: string, p: string)
    requires Contains(s, p)
    ensures exists i: nat :: OccursAt(s, p, i)
    decreases |s|
  {
    if StartsWith(s, p) {
      assert OccursAt(s, p, 0);
    } else {
      ContainsHasOccurrence(s[1..], p);
      var i: nat :| OccursAt(s[1..], p, i);
      assert s[i + 1..i + 1 + |p|] == s[1..][i..i + |p|];
      assert OccursAt(s, p, i + 1);
    }
  }

  /** An occurrence at any index is found by `includes`. */
  lemma {:induction false} OccurrenceIsContained(s: string, p: string, i: nat)
    requires OccursAt(s, p, i)
    ensures Contains(s, p)
    decreases i
  {
    if i > 0 {
      assert s[1..][i - 1..i - 1 + |p|] == s[i..i + |p|];
      OccurrenceIsContained(s[1..], p, i - 1);
    }
  }

  /** A string contains each of its middle parts. */
  lemma ContainsMiddle(a: string, b: string, c: string)
    ensures Contains(a + b + c, b)
  {
    assert (a + b + c)[|a|..|a| + |b|] == b;
    OccurrenceIsContained(a + b + c, b, |a|);
  }

  /** `includes` agrees with its plain reading: `p` occurs at some index of `s`. */
  lemma ContainsIffOccurs(s: string, p: string)
    ensures Contains(s, p) <==> exists i: nat :: OccursAt(s, p, i)
  {
    if Contains(s, p) {
      ContainsHasOccurrence(s, p);
    }
    forall i: nat | OccursAt(s, p, i) ensures Contains(s, p) {
      OccurrenceIsContained(s, p, i);
    }
  }

  /** `s.split(sep)`: the maximal separator-free pieces, empty ones included. */
  function Split(s: string, sep: char): (parts: seq<string>)
    ensures |parts| >= 1
    ensures forall k :: 0 <= k < |parts| ==> sep !in parts[k]
    ensures Join(parts, sep) == s
    decreases |s|
  {
    if s == [] then [""]
    else
      var rest := Split(s[1..], sep);
      if s[0] == sep then
        assert s == [sep] + s[1..];
        [""] + rest
      else
        var parts := [[s[0]] + rest[0]] + rest[1..];
        assert Join(parts, sep) == s by {
          if |rest| == 1 {
            assert Join(parts, sep) == [s[0]] + rest[0];
          } else {
            assert Join(parts, sep) == [s[0]] + rest[0] + [sep] + Join(rest[1..], sep);
            assert Join(rest, sep) == rest[0] + [sep] + Join(rest[1..], sep);
          }
        }
        parts
  }

  /** `parts.join(sep)`, the partner of `Split`. */
  function Join(parts: seq<string>, sep: char): string
  {
    if parts == [] then ""
    else if |parts| == 1 then parts[0]
    else parts[0] + [sep] + Join(parts[1..], sep)
  }

  /** Splitting after a separator starts a new, empty piece. */
  lemma SplitAfterSep(s: string, sep: char)
    ensures Split([sep] + s, sep) == [""] + Split(s, sep)
  {
    assert ([sep] + s)[1..] == s;
  }

  /** Splitting after any other character extends the first piece. */
  lemma SplitAfterChar(c: char, s: string, sep: char)
    requires c != sep
    ensures Split([c] + s, sep) == [[c] + Split(s, sep)[0]] + Split(s, sep)[1..]
  {
    assert ([c] + s)[1..] == s;
  }

  /** Joining pieces whose first piece is non-empty begins with that piece's first character. */
  lemma JoinFirstChar(parts: seq<string>, sep: char)
    requires |parts| >= 1 && parts[0] != []
    ensures Join(parts, sep) == [parts[0][0]] + Join([parts[0][1..]] + parts[1..], sep)
  {
    var p := parts[0];
    var shorter := [p[1..]] + parts[1..];
    assert p == [p[0]] + p[1..];
    if |parts| > 1 {
      assert shorter[1..] == parts[1..];
    }
  }

  lemma ExtendFirstPiece(c: char, x: seq<string>, y: seq<string>)
    requires |x| >= 1
    ensures [[c] + (x + y)[0]] + (x + y)[1..] == [[c] + x[0]] + x[1..] + y
  {
    assert (x + y)[0] == x[0];
    assert (x + y)[1..] == x[1..] + y;
  }

  /** One step of `SplitAtSep`: a leading character that is not the separator joins the first piece. */
  lemma SplitAtSepStep(c: char, rest: string, b: string, sep: char)
    requires c != sep
    requires Split(rest + [sep] + b, sep) == Split(rest, sep) + Split(b, sep)
    ensures Split([c] + rest + [sep] + b, sep) == Split([c] + rest, sep) + Split(b, sep)
  {
    var tail := rest + [sep] + b;
    assert [c] + rest + [sep] + b == [c] + tail;
    SplitAfterChar(c, tail, sep);
    SplitAfterChar(c, rest, sep);
    ExtendFirstPiece(c, Split(rest, sep), Split(b, sep));
  }

  /** One step of `SplitAtSep`: a leading separator opens an empty first piece. */
  lemma SplitAtSepLead(rest: string, b: string, sep: char)
    requires Split(rest + [sep] + b, sep) == Split(rest, sep) + Split(b, sep)
    ensures Split([sep] + rest + [sep] + b, sep) == Split([sep] + rest, sep) + Split(b, sep)
  {
    var tail := rest + [sep] + b;
    assert [sep] + rest + [sep] + b == [sep] + tail;
    SplitAfterSep(tail, sep);
    SplitAfterSep(rest, sep);
    PrependPiece("", Split(rest, sep), Split(b, sep));
  }

  lemma PrependPiece(p: string, x: seq<string>, y: seq<string>)
    ensures [p] + (x + y) == ([p] + x) + y
  {
  }

  /** Splitting at a separator splits each side separately: `split` keeps the pieces in order. */
  lemma {:induction false} SplitAtSep(a: string, b: string, sep: char)
    ensures Split(a + [sep] + b, sep) == Split(a, sep) + Split(b, sep)
    decreases |a|
  {
    if a == [] {
      assert a + [sep] + b == [sep] + b;
      SplitAfterSep(b, sep);
    } else {
      var rest := a[1..];
      assert a == [a[0]] + rest;
      SplitAtSep(rest, b, sep);
      if a[0] == sep {
        SplitAtSepLead(rest, b, sep);
      } else {
        SplitAtSepStep(a[0], rest, b, sep);
      }
    }
  }

  /** Splitting a join of separator-free pieces gives the pieces back. */
  lemma {:induction false} SplitJoin(parts: seq<string>, sep: char)
    requires |parts| >= 1
    requires forall k :: 0 <= k < |parts| ==> sep !in parts[k]
    ensures Split(Join(parts, sep), sep) == parts
    decreases |parts|, |parts[0]|
  {
    var p := parts[0];
    if p == [] {
      if |parts| > 1 {
        var tail := parts[1..];
        SplitJoin(tail, sep);
        assert Join(parts, sep) == [sep] + Join(tail, sep);
        SplitAfterSep(Join(tail, sep), sep);
        assert parts == [""] + tail;
      }
    } else {
      var shorter := [p[1..]] + parts[1..];
      assert forall k :: 1 <= k < |shorter| ==> shorter[k] == parts[k];
      assert sep !in p[1..] by { assert forall c :: c in p[1..] ==> c in p; }
      SplitJoin(shorter, sep);
      JoinFirstChar(parts, sep);
      assert p[0] != sep by { assert p[0] in p; }
      SplitAfterChar(p[0], Join(shorter, sep), sep);
      assert [p[0]] + p[1..] == p;
      assert parts == [p] + parts[1..];
    }
  }

  function DigitChar(d: nat): char
    requires d < 10
  {
    "0123456789"[d]
  }

  predicate IsDigitChar(c: char)
  {
    '0' <= c <= '9'
  }

  /** A number in a template literal: its decimal digits, no leading zero. */
  function Decimal(n: nat): (s: string)
    ensures s != []
    ensures forall k :: 0 <= k < |s| ==> IsDigitChar(s[k])
    ensures s[0] == '0' ==> n == 0
    ensures |s| > 1 ==> s[0] != '0'
  {
    if n < 10 then [DigitChar(n)]
    else Decimal(n / 10) + [DigitChar(n % 10)]
  }

  function DigitValue(c: char): nat
    requires IsDigitChar(c)
  {
    (c as int) - ('0' as int)
  }

  /** Reads decimal digits back into a number; the partner of `Decimal`. */
  function ParseDecimal(s: string): nat
    requires forall k :: 0 <= k < |s| ==> IsDigitChar(s[k])
  {
    if s == [] then 0
    else ParseDecimal(s[..|s| - 1]) * 10 + DigitValue(s[|s| - 1])
  }

  lemma {:induction false} DecimalRoundTrip(n: nat)
    ensures ParseDecimal(Decimal(n)) == n
  {
    var s := Decimal(n);
    if n >= 10 {
      DecimalRoundTrip(n / 10);
      assert s[..|s| - 1] == Decimal(n / 10);
    }
  }
}
