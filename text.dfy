/**
 * The Python string operations the synchroniser relies on, written out over
 * `seq<char>`: substring search (`sub in s`), `s.split(sep)`, `sep.join(parts)`,
 * `s.lstrip().rstrip()`, `s.lower()` and `s.replace(c, '')` for a single character.
 */
module Text {

  /** `sub` occurs in `s` starting at index `i`. */
  ghost predicate OccursAt(s: string, sub: string, i: int)
  {
    0 <= i && i + |sub| <= |s| && s[i..i + |sub|] == sub
  }

  /** Python's `sub in s`. */
  ghost predicate Contains(s: string, sub: string)
  {
    exists i :: OccursAt(s, sub, i)
  }

  /** Python's `s.startswith(p)`. */
  predicate HasPrefix(s: string, p: string)
  {
    |p| <= |s| && s[..|p|] == p
  }

  /** Index of the first occurrence of `sub` in `s`, or -1 (Python's `s.find(sub)`). */
  function Find(s: string, sub: string): (r: int)
    ensures -1 <= r <= |s|
    ensures r >= 0 ==> OccursAt(s, sub, r)
    ensures r >= 0 ==> forall j :: 0 <= j < r ==> !OccursAt(s, sub, j)
    ensures r < 0 <==> !Contains(s, sub)
    decreases |s|
  {
    if |s| < |sub| then
      assert forall j :: !OccursAt(s, sub, j);
      -1
    else if s[..|sub|] == sub then
      assert OccursAt(s, sub, 0);
      0
    else
      var k := Find(s[1..], sub);
      ShiftOccurrence(s, sub);
      assert !OccursAt(s, sub, 0);
      if k < 0 then -1 else k + 1
  }

  /** An occurrence in `s` at `j >= 1` is an occurrence in `s[1..]` at `j - 1`, and back. */
  lemma ShiftOccurrence(s: string, sub: string)
    requires |s| > 0
    ensures forall j :: 1 <= j ==> (OccursAt(s, sub, j) <==> OccursAt(s[1..], sub, j - 1))
  {
    forall j | 1 <= j
      ensures OccursAt(s, sub, j) <==> OccursAt(s[1..], sub, j - 1)
    {
      if j + |sub| <= |s| {
        assert s[1..][j - 1..j - 1 + |sub|] == s[j..j + |sub|];
      }
    }
  }

  /** Substring search as an executable test. */
  predicate In(sub: string, s: string)
    ensures In(sub, s) <==> Contains(s, sub)
  {
    Find(s, sub) >= 0
  }

  /** Python's `sep.join(parts)`. */
  function Join(parts: seq<string>, sep: string): string
  {
    if parts == [] then ""
    else if |parts| == 1 then parts[0]
    else parts[0] + sep + Join(parts[1..], sep)
  }

  /**
   * Python's `s.split(sep)` for a non-empty separator: the pieces between the
   * non-overlapping occurrences of `sep`, scanning left to right. Joining the
   * pieces back with `sep` gives `s`, and there is one piece more than there
   * are separators.
   */
  function Split(s: string, sep: string): (parts: seq<string>)
    requires |sep| > 0
    ensures |parts| >= 1
    ensures Join(parts, sep) == s
    ensures |parts| >= 2 <==> Contains(s, sep)
    ensures Find(s, sep) >= 0 ==> parts[0] == s[..Find(s, sep)]
    decreases |s|
  {
    var k := Find(s, sep);
    if k < 0 then [s]
    else
      var rest := Split(s[k + |sep|..], sep);
      assert s == s[..k] + sep + s[k + |sep|..];
      [s[..k]] + rest
  }

  /** No piece of a split contains the separator. */
  lemma {:induction false} SplitPiecesFree(s: string, sep: string)
    requires |sep| > 0
    ensures forall i :: 0 <= i < |Split(s, sep)| ==> !Contains(Split(s, sep)[i], sep)
    decreases |s|
  {
    var k := Find(s, sep);
    if k >= 0 {
      SplitPiecesFree(s[k + |sep|..], sep);
      PrefixBeforeFirstFree(s, sep, k);
      var parts := Split(s, sep);
      assert parts == [s[..k]] + Split(s[k + |sep|..], sep);
      forall i | 0 <= i < |parts|
        ensures !Contains(parts[i], sep)
      {
        if i > 0 {
          assert parts[i] == Split(s[k + |sep|..], sep)[i - 1];
        }
      }
    }
  }

  /** The text before the first occurrence of `sep` does not contain `sep`. */
  lemma PrefixBeforeFirstFree(s: string, sep: string, k: int)
    requires |sep| > 0 && 0 <= k <= |s|
    requires forall j :: 0 <= j < k ==> !OccursAt(s, sep, j)
    ensures !Contains(s[..k], sep)
  {
    if Contains(s[..k], sep) {
      var j :| OccursAt(s[..k], sep, j);
      assert s[..k][j..j + |sep|] == s[j..j + |sep|];
      assert OccursAt(s, sep, j) && j < k;
    }
  }

  /** Python's `s.split(sep)[0]`. */
  function Before(s: string, sep: string): (r: string)
    requires |sep| > 0
    ensures HasPrefix(s, r)
    ensures !Contains(r, sep)
    ensures Contains(s, sep) ==> HasPrefix(s, r + sep) && |r| == Find(s, sep)
    ensures !Contains(s, sep) ==> r == s
  {
    SplitPiecesFree(s, sep);
    var k := Find(s, sep);
    if k >= 0 then
      assert s[..k + |sep|] == s[..k] + sep;
      Split(s, sep)[0]
    else
      Split(s, sep)[0]
  }

  /**
   * Python's `s.split(sep)[-1]` for a one-character separator: the text after
   * the last separator. Since `r` holds no separator and is preceded by one
   * when `s` holds one, it is exactly the text after the last occurrence.
   */
  function Last(s: string, sep: string): (r: string)
    requires |sep| == 1
    ensures !Contains(r, sep)
    ensures |r| <= |s| && s[|s| - |r|..] == r
    ensures Contains(s, sep) ==> |r| + |sep| <= |s| && s[|s| - |r| - |sep|..] == sep + r
    ensures !Contains(s, sep) ==> r == s
  {
    var parts := Split(s, sep);
    SplitPiecesFree(s, sep);
    var r := parts[|parts| - 1];
    assert !Contains(r, sep);
    if |parts| >= 2 then
      JoinLast(parts, sep);
      SeparatedTail(s, Join(parts[..|parts| - 1], sep), sep, r);
      r
    else
      assert s == r;
      r
  }

  /** The tail `sep + r` of `s == init + sep + r`, and `r` itself, are suffixes of `s`. */
  lemma SeparatedTail(s: string, init: string, sep: string, r: string)
    requires s == init + sep + r
    ensures |r| + |sep| <= |s| && s[|s| - |r|..] == r && s[|s| - |r| - |sep|..] == sep + r
  {
  }

  /** Joining peels off the last piece together with the separator before it. */
  lemma {:induction false} JoinLast(parts: seq<string>, sep: string)
    requires |parts| >= 2
    ensures Join(parts, sep) == Join(parts[..|parts| - 1], sep) + sep + parts[|parts| - 1]
  {
    if |parts| > 2 {
      JoinLast(parts[1..], sep);
      assert parts[1..][..|parts| - 2] == parts[..|parts| - 1][1..];
    }
  }

  // ---------------------------------------------------------------------------
  // Whitespace stripping
  // ---------------------------------------------------------------------------

  /** The characters Python's `str.isspace()` accepts, which `strip()` removes. */
  predicate IsSpace(c: char)
  {
    ('\t' <= c <= '\r') || ('\U{1c}' <= c <= ' ') || c == '\U{85}' || c == '\U{a0}'
    || c == '\U{1680}' || ('\U{2000}' <= c <= '\U{200a}') || c == '\U{2028}' || c == '\U{2029}'
    || c == '\U{202f}' || c == '\U{205f}' || c == '\U{3000}'
  }

  /** Python's `s.lstrip()`: drops the leading whitespace. */
  function StripLeft(s: string): (r: string)
    ensures |r| <= |s| && r == s[|s| - |r|..]
    ensures forall i :: 0 <= i < |s| - |r| ==> IsSpace(s[i])
    ensures r == [] || !IsSpace(r[0])
  {
    if s != [] && IsSpace(s[0]) then StripLeft(s[1..]) else s
  }

  /** Python's `s.rstrip()`: drops the trailing whitespace. */
  function StripRight(s: string): (r: string)
    ensures |r| <= |s| && r == s[..|r|]
    ensures forall i :: |r| <= i < |s| ==> IsSpace(s[i])
    ensures r == [] || !IsSpace(r[|r| - 1])
  {
    if s != [] && IsSpace(s[|s| - 1]) then StripRight(s[..|s| - 1]) else s
  }

  /** `r` is `s[i..]` with only whitespace before it and after it in `s`. */
  ghost predicate SpaceFramed(s: string, r: string, i: int)
  {
    && 0 <= i <= |s| - |r|
    && r == s[i..i + |r|]
    && (forall j :: 0 <= j < i ==> IsSpace(s[j]))
    && (forall j :: i + |r| <= j < |s| ==> IsSpace(s[j]))
  }

  /**
   * `s.lstrip().rstrip()`: the part of `s` between its leading and its trailing
   * whitespace, itself neither starting nor ending with whitespace.
   */
  function Strip(s: string): (r: string)
    ensures exists i :: SpaceFramed(s, r, i)
    ensures r == [] || (!IsSpace(r[0]) && !IsSpace(r[|r| - 1]))
  {
    var l := StripLeft(s);
    var r := StripRight(l);
    StripFrames(s, l, r);
    r
  }

  /** The two halves of `Strip`'s contract, for the stripped text `r` of `s`. */
  lemma StripFrames(s: string, l: string, r: string)
    requires l == StripLeft(s) && r == StripRight(l)
    ensures exists i :: SpaceFramed(s, r, i)
    ensures r == [] || (!IsSpace(r[0]) && !IsSpace(r[|r| - 1]))
  {
    FramedPrefixOfSuffix(s, l, r);
    assert r != [] ==> r[0] == l[0];
  }

  /** A whitespace tail cut off a whitespace-framed suffix of `s` leaves a framed middle. */
  lemma FramedPrefixOfSuffix(s: string, l: string, r: string)
    requires |l| <= |s| && l == s[|s| - |l|..]
    requires forall j :: 0 <= j < |s| - |l| ==> IsSpace(s[j])
    requires |r| <= |l| && r == l[..|r|]
    requires forall k :: |r| <= k < |l| ==> IsSpace(l[k])
    ensures SpaceFramed(s, r, |s| - |l|)
  {
    var i := |s| - |l|;
    forall j | i + |r| <= j < |s|
      ensures IsSpace(s[j])
    {
      assert s[j] == l[j - i];
    }
    assert r == s[i..i + |r|];
  }

  // ---------------------------------------------------------------------------
  // Case and character replacement
  // ---------------------------------------------------------------------------

  /** Lower-casing of one character, ASCII letters only. */
  function LowerChar(c: char): char
  {
    if 'A' <= c <= 'Z' then (c as int + 32) as char else c
  }

  predicate IsUpper(c: char)
  {
    'A' <= c <= 'Z'
  }

  /**
   * `s.lower()` restricted to ASCII letters: the length is kept, every capital
   * becomes its lower-case letter, and every other character stays where it was.
   */
  function Lower(s: string): (r: string)
    ensures |r| == |s|
    ensures forall i :: 0 <= i < |r| ==> !IsUpper(r[i])
    ensures forall i :: 0 <= i < |s| && !IsUpper(s[i]) ==> r[i] == s[i]
    ensures forall i :: 0 <= i < |s| && IsUpper(s[i]) ==> r[i] == (s[i] as int + 32) as char
  {
    seq(|s|, i requires 0 <= i < |s| => LowerChar(s[i]))
  }

  /** Lower-casing works piece by piece. */
  lemma LowerConcat(a: string, b: string)
    ensures Lower(a + b) == Lower(a) + Lower(b)
  {
    assert forall i :: 0 <= i < |a + b| ==> (a + b)[i] == if i < |a| then a[i] else b[i - |a|];
  }

  /** Lower-casing twice is lower-casing once. */
  lemma LowerIdempotent(s: string)
    ensures Lower(Lower(s)) == Lower(s)
  {
  }

  /**
   * Python's `s.replace(c, d)` for single characters `c` and `d`: the length is
   * kept, no `c` is left when `d` differs from it, every other character stays
   * where it was, and a string without `c` is returned unchanged.
   */
  function ReplaceChar(s: string, c: char, d: char): (r: string)
    ensures |r| == |s|
    ensures c != d ==> c !in r
    ensures forall i :: 0 <= i < |s| && s[i] != c ==> r[i] == s[i]
    ensures c !in s ==> r == s
  {
    seq(|s|, i requires 0 <= i < |s| => if s[i] == c then d else s[i])
  }

  /** Replacing works piece by piece. */
  lemma ReplaceCharConcat(a: string, b: string, c: char, d: char)
    ensures ReplaceChar(a + b, c, d) == ReplaceChar(a, c, d) + ReplaceChar(b, c, d)
  {
    assert forall i :: 0 <= i < |a + b| ==> (a + b)[i] == if i < |a| then a[i] else b[i - |a|];
  }

  /**
   * Python's `s.replace(c, '')` for a single character `c`: every `c` is gone
   * and every other character of `s` is still there.
   */
  function RemoveAll(s: string, c: char): (r: string)
    ensures |r| <= |s|
    ensures c !in r
    ensures forall x :: x != c ==> (x in r <==> x in s)
  {
    if s == [] then []
    else
      assert s == [s[0]] + s[1..];
      if s[0] == c then RemoveAll(s[1..], c)
      else [s[0]] + RemoveAll(s[1..], c)
  }

  /**
   * Removal works piece by piece; together with the one-character case this
   * says the characters other than `c` keep their order.
   */
  lemma {:induction false} RemoveAllConcat(a: string, b: string, c: char)
    ensures RemoveAll(a + b, c) == RemoveAll(a, c) + RemoveAll(b, c)
    ensures RemoveAll([c], c) == [] && forall x :: x != c ==> RemoveAll([x], c) == [x]
  {
    if a == [] {
      assert a + b == b;
    } else {
      assert (a + b)[0] == a[0] && (a + b)[1..] == a[1..] + b;
      RemoveAllConcat(a[1..], b, c);
    }
  }

}
