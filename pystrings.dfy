/**
  The parts of Python's `str` that the transcriber relies on: the whitespace
  test behind `str.strip()` and `str.isspace()`, `strip()` itself and
  `sep.join(parts)`.
 */
module PyStrings {

  /** The characters Python's `str.isspace()` accepts, and `str.strip()` removes. */
  predicate IsSpace(c: char) {
    var n := c as int;
    || (0x09 <= n <= 0x0D) || (0x1C <= n <= 0x20)
    || n == 0x85 || n == 0xA0 || n == 0x1680
    || (0x2000 <= n <= 0x200A)
    || n == 0x2028 || n == 0x2029 || n == 0x202F || n == 0x205F || n == 0x3000
  }

  /** Every character of `s` is whitespace (true of the empty string). */
  predicate AllSpace(s: string) {
    forall k :: 0 <= k < |s| ==> IsSpace(s[k])
  }

  /** `s.lstrip()`. */
  function StripLeft(s: string): (r: string)
    ensures |r| <= |s|
  {
    if |s| > 0 && IsSpace(s[0]) then StripLeft(s[1..]) else s
  }

  /** `s.lstrip()` is the suffix of `s` left after dropping all of its leading whitespace. */
  lemma {:induction false} StripLeftSpec(s: string)
    ensures var r := StripLeft(s);
      && r == s[|s| - |r|..]
      && (forall k :: 0 <= k < |s| - |r| ==> IsSpace(s[k]))
      && (r == [] || !IsSpace(r[0]))
    decreases |s|
  {
    if |s| > 0 && IsSpace(s[0]) {
      StripLeftSpec(s[1..]);
    }
  }

  /** `s.rstrip()`. */
  function StripRight(s: string): (r: string)
    ensures |r| <= |s|
  {
    if |s| > 0 && IsSpace(s[|s| - 1]) then StripRight(s[..|s| - 1]) else s
  }

  /** `s.rstrip()` is the prefix of `s` left after dropping all of its trailing whitespace. */
  lemma {:induction false} StripRightSpec(s: string)
    ensures var r := StripRight(s);
      && r == s[..|r|]
      && (forall k :: |r| <= k < |s| ==> IsSpace(s[k]))
      && (r == [] || !IsSpace(r[|r| - 1]))
    decreases |s|
  {
    if |s| > 0 && IsSpace(s[|s| - 1]) {
      StripRightSpec(s[..|s| - 1]);
    }
  }

  /** The number of leading whitespace characters `strip()` removes. */
  function LeadingSpace(s: string): nat {
    |s| - |StripLeft(s)|
  }

  /** `s.strip()`: never longer than `s`, and without whitespace at either end. */
  function Strip(s: string): (r: string)
    ensures |r| <= |s|
    ensures r == [] || (!IsSpace(r[0]) && !IsSpace(r[|r| - 1]))
  {
    var t := StripLeft(s);
    StripLeftSpec(s);
    StripRightSpec(t);
    StripRight(t)
  }

  /**
    `s.strip()` is the slice of `s` between its leading and trailing
    whitespace: everything removed on either side is whitespace, and what is
    kept neither begins nor ends with whitespace.
   */
  lemma StripSpec(s: string)
    ensures var r := Strip(s);
      && LeadingSpace(s) + |r| <= |s|
      && r == s[LeadingSpace(s)..LeadingSpace(s) + |r|]
      && (forall k :: 0 <= k < LeadingSpace(s) ==> IsSpace(s[k]))
      && (forall k :: LeadingSpace(s) + |r| <= k < |s| ==> IsSpace(s[k]))
      && (r == [] || (!IsSpace(r[0]) && !IsSpace(r[|r| - 1])))
  {
    var t := StripLeft(s);
    StripLeftSpec(s);
    StripRightSpec(t);
  }

  /**
    `strip()` is determined by its contract: whenever `s[i..j]` is surrounded
    by whitespace only and does not itself begin or end with whitespace,
    it is `s.strip()`.
   */
  lemma StripUnique(s: string, i: nat, j: nat)
    requires i <= j <= |s|
    requires forall k :: 0 <= k < i ==> IsSpace(s[k])
    requires forall k :: j <= k < |s| ==> IsSpace(s[k])
    requires i == j || (!IsSpace(s[i]) && !IsSpace(s[j - 1]))
    ensures Strip(s) == s[i..j]
  {
    StripSpec(s);
    var r, a := Strip(s), LeadingSpace(s);
    if i < j {
      assert a <= i && i < a + |r|;
      assert r[0] == s[a];
      assert a == i;
      assert r[|r| - 1] == s[a + |r| - 1];
      assert a + |r| == j;
    }
  }

  /** Stripping twice is the same as stripping once. */
  lemma StripIdempotent(s: string)
    ensures Strip(Strip(s)) == Strip(s)
  {
    var r := Strip(s);
    StripSpec(s);
    StripUnique(r, 0, |r|);
    assert r[0..|r|] == r;
  }

  /** A string strips to "" exactly when it is all whitespace. */
  lemma StripEmptyIff(s: string)
    ensures Strip(s) == "" <==> AllSpace(s)
  {
    StripSpec(s);
    if AllSpace(s) {
      StripUnique(s, 0, 0);
    }
  }

  /** A string with a non-whitespace character strips to one that begins and ends with one. */
  lemma StripNotAllSpace(s: string)
    requires !AllSpace(s)
    ensures var r := Strip(s); r != [] && !IsSpace(r[0]) && !IsSpace(r[|r| - 1])
  {
    StripEmptyIff(s);
    StripSpec(s);
  }

  /** The total number of characters in `parts`. */
  function TotalLength(parts: seq<string>): nat {
    if parts == [] then 0 else |parts[0]| + TotalLength(parts[1..])
  }

  /**
    `sep.join(parts)`: the parts in order with one `sep` between each
    neighbouring pair, so `|parts| - 1` separators in all.
   */
  function Join(sep: string, parts: seq<string>): (r: string)
    ensures parts == [] ==> r == ""
    ensures parts != [] ==> |r| == TotalLength(parts) + (|parts| - 1) * |sep|
  {
    if |parts| == 0 then ""
    else if |parts| == 1 then parts[0]
    else
      var rest := Join(sep, parts[1..]);
      assert (|parts| - 1) * |sep| == |sep| + (|parts| - 2) * |sep|;
      parts[0] + sep + rest
  }

  /** Where the `i`-th part starts in `sep.join(parts)`: the earlier parts and one separator after each. */
  function PieceOffset(sep: string, parts: seq<string>, i: nat): nat
    requires i <= |parts|
  {
    TotalLength(parts[..i]) + i * |sep|
  }

  lemma TotalLengthPrefix(parts: seq<string>, i: nat)
    requires 1 <= i <= |parts|
    ensures TotalLength(parts[..i]) == |parts[0]| + TotalLength(parts[1..][..i - 1])
  {
    assert parts[..i][1..] == parts[1..][..i - 1];
  }

  /**
    Every part sits in `sep.join(parts)` at its offset, unchanged and in order,
    and is followed by one separator unless it is the last part.
   */
  lemma {:induction false} JoinPieceAt(sep: string, parts: seq<string>, i: nat)
    requires i < |parts|
    ensures PieceOffset(sep, parts, i) + |parts[i]| <= |Join(sep, parts)|
    ensures Join(sep, parts)[PieceOffset(sep, parts, i)..PieceOffset(sep, parts, i) + |parts[i]|] == parts[i]
    ensures i + 1 < |parts| ==>
      PieceOffset(sep, parts, i) + |parts[i]| + |sep| <= |Join(sep, parts)| &&
      Join(sep, parts)[PieceOffset(sep, parts, i) + |parts[i]|..PieceOffset(sep, parts, i) + |parts[i]| + |sep|] == sep
    decreases i
  {
    var j := Join(sep, parts);
    if i == 0 {
      assert parts[..0] == [];
      if |parts| > 1 {
        assert j == parts[0] + sep + Join(sep, parts[1..]);
      }
    } else {
      var rest := parts[1..];
      JoinPieceAt(sep, rest, i - 1);
      TotalLengthPrefix(parts, i);
      assert i * |sep| == |sep| + (i - 1) * |sep|;
      assert PieceOffset(sep, parts, i) == |parts[0]| + |sep| + PieceOffset(sep, rest, i - 1);
      assert j == parts[0] + sep + Join(sep, rest);
      assert rest[i - 1] == parts[i];
    }
  }

  /** `sep.join(parts)` begins with the first part and ends with the last. */
  lemma {:induction false} JoinEnds(sep: string, parts: seq<string>)
    requires parts != []
    ensures var j, first, last := Join(sep, parts), parts[0], parts[|parts| - 1];
      && |first| <= |j| && j[..|first|] == first
      && |last| <= |j| && j[|j| - |last|..] == last
    decreases |parts|
  {
    if |parts| > 1 {
      JoinEnds(sep, parts[1..]);
    }
  }

  /** Joining one more part appends one separator and that part. */
  lemma {:induction false} JoinSnoc(sep: string, parts: seq<string>, last: string)
    requires parts != []
    ensures Join(sep, parts + [last]) == Join(sep, parts) + sep + last
    decreases |parts|
  {
    if |parts| > 1 {
      assert (parts + [last])[1..] == parts[1..] + [last];
      JoinSnoc(sep, parts[1..], last);
    }
  }
}
