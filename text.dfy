/** The Python string operations the loaders rely on: the whitespace class that
    `str.strip()` removes and that the regular-expression class `\s` matches, the
    word class `\w`, `str.strip()` itself and the slice `s[:-1]`. */
module Text {

  /** Python's `str.isspace()` on one character; `\s` in a `str` pattern matches the same set. */
  predicate IsSpace(c: char) {
    var u := c as int;
    (9 <= u <= 13) || (28 <= u <= 32) || u == 0x85 || u == 0xA0 || u == 0x1680
    || (0x2000 <= u <= 0x200A) || u == 0x2028 || u == 0x2029 || u == 0x202F
    || u == 0x205F || u == 0x3000
  }

  /** The ASCII part of the regular-expression class `\w`: letters, digits and underscore. */
  predicate IsWordChar(c: char) {
    ('a' <= c <= 'z') || ('A' <= c <= 'Z') || ('0' <= c <= '9') || c == '_'
  }

  ghost predicate AllSpace(s: string) {
    forall m :: 0 <= m < |s| ==> IsSpace(s[m])
  }

  /** A string that `strip()` leaves as it is: it neither starts nor ends with whitespace. */
  predicate IsTrimmed(s: string) {
    s == [] || (!IsSpace(s[0]) && !IsSpace(s[|s| - 1]))
  }

  /** The two regular-expression character classes the line pattern uses: `\w` and `\s`. */
  datatype CharClass = Word | Space

  predicate InClass(c: char, cls: CharClass) {
    match cls
    case Word => IsWordChar(c)
    case Space => IsSpace(c)
  }

  /** The index just past the longest run of characters of class `cls` that starts at `i`:
      how far a greedy `\w+` or `\s+` reaches from `i`. */
  function RunEnd(s: string, i: nat, cls: CharClass): (k: nat)
    requires i <= |s|
    ensures i <= k <= |s|
    decreases |s| - i
  {
    if i < |s| && InClass(s[i], cls) then RunEnd(s, i + 1, cls) else i
  }

  /** The run is maximal: every character in it is of the class, and the one after it, if
      any, is not. */
  lemma {:induction false} RunEndSpan(s: string, i: nat, cls: CharClass)
    requires i <= |s|
    ensures forall m :: i <= m < RunEnd(s, i, cls) ==> InClass(s[m], cls)
    ensures RunEnd(s, i, cls) == |s| || !InClass(s[RunEnd(s, i, cls)], cls)
    decreases |s| - i
  {
    if i < |s| && InClass(s[i], cls) {
      RunEndSpan(s, i + 1, cls);
    }
  }

  /** A position `e` at which a run of the class starting at `i` stops is where `RunEnd` ends. */
  lemma {:induction false} RunEndAt(s: string, i: nat, e: nat, cls: CharClass)
    requires i <= e <= |s|
    requires forall m :: i <= m < e ==> InClass(s[m], cls)
    requires e == |s| || !InClass(s[e], cls)
    ensures RunEnd(s, i, cls) == e
    decreases e - i
  {
    if i < e {
      RunEndAt(s, i + 1, e, cls);
    }
  }

  /** `str.lstrip()`: the suffix left after removing all leading whitespace. */
  function TrimStart(s: string): (r: string)
    ensures |r| <= |s|
  {
    if |s| > 0 && IsSpace(s[0]) then TrimStart(s[1..]) else s
  }

  /** `str.rstrip()`: the prefix left after removing all trailing whitespace. */
  function TrimEnd(s: string): (r: string)
    ensures |r| <= |s|
  {
    if |s| > 0 && IsSpace(s[|s| - 1]) then TrimEnd(s[..|s| - 1]) else s
  }

  /** `str.strip()`: removes the leading and the trailing whitespace. */
  function Trim(s: string): (r: string)
    ensures |r| <= |s|
  {
    TrimEnd(TrimStart(s))
  }

  /** `lstrip()` drops exactly the longest all-whitespace prefix. */
  lemma {:induction false} TrimStartDropsLeadingSpace(s: string)
    ensures TrimStart(s) == s[|s| - |TrimStart(s)|..]
    ensures AllSpace(s[..|s| - |TrimStart(s)|])
    ensures TrimStart(s) == [] || !IsSpace(TrimStart(s)[0])
  {
    if |s| > 0 && IsSpace(s[0]) {
      TrimStartDropsLeadingSpace(s[1..]);
      var k := |s| - |TrimStart(s)|;
      assert s[..k] == [s[0]] + s[1..][..k - 1];
    }
  }

  /** `rstrip()` drops exactly the longest all-whitespace suffix. */
  lemma {:induction false} TrimEndDropsTrailingSpace(s: string)
    ensures TrimEnd(s) == s[..|TrimEnd(s)|]
    ensures AllSpace(s[|TrimEnd(s)|..])
    ensures TrimEnd(s) == [] || !IsSpace(TrimEnd(s)[|TrimEnd(s)| - 1])
  {
    if |s| > 0 && IsSpace(s[|s| - 1]) {
      TrimEndDropsTrailingSpace(s[..|s| - 1]);
      var k := |TrimEnd(s)|;
      assert s[k..] == s[..|s| - 1][k..] + [s[|s| - 1]];
    }
  }

  /** What `strip()` keeps is a contiguous piece of its input that neither starts nor ends
      with whitespace, and everything it drops on either side is whitespace. */
  lemma TrimKeepsMiddle(s: string) returns (lead: nat)
    ensures IsTrimmed(Trim(s))
    ensures lead + |Trim(s)| <= |s| && Trim(s) == s[lead..lead + |Trim(s)|]
    ensures AllSpace(s[..lead]) && AllSpace(s[lead + |Trim(s)|..])
  {
    var t := TrimStart(s);
    var r := TrimEnd(t);
    TrimStartDropsLeadingSpace(s);
    TrimEndDropsTrailingSpace(t);
    lead := |s| - |t|;
    assert r == s[lead..lead + |r|];
    assert s[lead + |r|..] == t[|r|..];
    if r != [] {
      assert r[0] == t[0];
    }
  }

  /** Python's slice `s[:-1]`: every character but the last; the empty string stays empty. */
  function DropLast(s: string): string {
    if |s| == 0 then s else s[..|s| - 1]
  }

  /** `strip()` changes a string exactly when the string has whitespace at one of its ends. */
  lemma TrimFixedPoint(s: string)
    ensures Trim(s) == s <==> IsTrimmed(s)
  {
    if Trim(s) == s {
      var _ := TrimKeepsMiddle(s);
    }
  }

  /** Stripping twice is the same as stripping once. */
  lemma TrimIdempotent(s: string)
    ensures Trim(Trim(s)) == Trim(s)
  {
    var _ := TrimKeepsMiddle(s);
    TrimFixedPoint(Trim(s));
  }

  /** A non-whitespace character appended at the end survives `lstrip()` unchanged. */
  lemma {:induction false} TrimStartAppend(x: string, c: char)
    requires !IsSpace(c)
    ensures TrimStart(x + [c]) == TrimStart(x) + [c]
    decreases |x|
  {
    if |x| > 0 && IsSpace(x[0]) {
      assert (x + [c])[1..] == x[1..] + [c];
      TrimStartAppend(x[1..], c);
    }
  }

  /** `strip()` of a name with a one-character axis suffix, then chopping the suffix and
      stripping again, gives the stripped name: the suffix shields the name's own trailing
      whitespace from the first `strip()`, and the second one removes it. */
  lemma TrimAxisSuffix(x: string, c: char)
    requires !IsSpace(c)
    ensures Trim(DropLast(Trim(x + [c]))) == Trim(x)
  {
    TrimStartAppend(x, c);
    var t := TrimStart(x);
    assert TrimEnd(t + [c]) == t + [c];
    assert DropLast(t + [c]) == t;
    TrimStartDropsLeadingSpace(x);
    assert TrimStart(t) == t;
  }

  /** A blank in front of a stripped string is all that `strip()` removes. */
  lemma LeadingBlankStripped(x: string)
    requires IsTrimmed(x)
    ensures Trim([' '] + x) == x
  {
    assert IsSpace(' ') && ([' '] + x)[1..] == x;
    assert TrimStart([' '] + x) == TrimStart(x) == x;
    assert TrimEnd(x) == x;
  }
}
