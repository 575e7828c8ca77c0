/** The parts of java.lang.String the request rules depend on: trim(),
    length() (counted in UTF-16 code units) and contains(). */
module JavaString {

  /** String.trim removes every leading and trailing char whose code is at most U+0020. */
  predicate IsTrimmable(c: char) {
    c as int <= 0x20
  }

  /** Index of the first char at or after i that trim keeps (or |s|). */
  function SkipLeading(s: string, i: nat): (st: nat)
    requires i <= |s|
    ensures i <= st <= |s|
    ensures forall k :: i <= k < st ==> IsTrimmable(s[k])
    ensures st < |s| ==> !IsTrimmable(s[st])
    decreases |s| - i
  {
    if i < |s| && IsTrimmable(s[i]) then SkipLeading(s, i + 1) else i
  }

  /** Exclusive end of the kept part: moves len down past trimmable chars, never below st. */
  function SkipTrailing(s: string, st: nat, len: nat): (e: nat)
    requires st <= len <= |s|
    ensures st <= e <= len
    ensures forall k :: e <= k < len ==> IsTrimmable(s[k])
    ensures st < e ==> !IsTrimmable(s[e - 1])
    decreases len
  {
    if st < len && IsTrimmable(s[len - 1]) then SkipTrailing(s, st, len - 1) else len
  }

  /** String.trim: the two scans of the JDK implementation. */
  function Trim(s: string): (r: string)
    ensures |r| <= |s|
    ensures r == [] <==> forall k :: 0 <= k < |s| ==> IsTrimmable(s[k])
    ensures r != [] ==> !IsTrimmable(r[0]) && !IsTrimmable(r[|r| - 1])
  {
    var st := SkipLeading(s, 0);
    var e := SkipTrailing(s, st, |s|);
    s[st..e]
  }

  /** s[a..b] is a trimming of s: everything outside it is trimmable, and
      its own first and last chars (if any) are not. */
  predicate IsTrimWindow(s: string, a: int, b: int) {
    && 0 <= a <= b <= |s|
    && (forall k :: 0 <= k < a ==> IsTrimmable(s[k]))
    && (forall k :: b <= k < |s| ==> IsTrimmable(s[k]))
    && (a < b ==> !IsTrimmable(s[a]) && !IsTrimmable(s[b - 1]))
  }

  /** Trim cuts s down to a trim window. */
  lemma TrimWindow(s: string) returns (a: nat, b: nat)
    ensures IsTrimWindow(s, a, b)
    ensures Trim(s) == s[a..b]
  {
    a := SkipLeading(s, 0);
    b := SkipTrailing(s, a, |s|);
  }

  /** Any trim window of s is what Trim returns: the window is unique. */
  lemma TrimUnique(s: string, a: int, b: int)
    requires IsTrimWindow(s, a, b)
    ensures Trim(s) == s[a..b]
  {
    var a', b' := TrimWindow(s);
    // Both windows start at the first kept char and end after the last one.
    assert a < b <==> a' < b';
    assert a < b ==> a == a' && b == b';
  }

  /** Trimming twice is trimming once. */
  lemma TrimIdempotent(s: string)
    ensures Trim(Trim(s)) == Trim(s)
  {
    var r := Trim(s);
    TrimUnique(r, 0, |r|);
  }

  /** Trim leaves s unchanged exactly when s is empty or both its ends are kept chars. */
  lemma TrimIdentity(s: string)
    ensures Trim(s) == s <==> s == [] || (!IsTrimmable(s[0]) && !IsTrimmable(s[|s| - 1]))
  {
    if s == [] || (!IsTrimmable(s[0]) && !IsTrimmable(s[|s| - 1])) {
      TrimUnique(s, 0, |s|);
    }
  }

  /** Number of UTF-16 code units one char takes: two above the Basic Multilingual Plane. */
  function CodeUnits(c: char): nat {
    if c as int >= 0x1_0000 then 2 else 1
  }

  /** String.length: the number of UTF-16 code units. */
  function JavaLength(s: string): (n: nat)
    ensures |s| <= n <= 2 * |s|
  {
    if s == [] then 0 else CodeUnits(s[0]) + JavaLength(s[1..])
  }

  lemma {:induction false} JavaLengthAppend(x: string, y: string)
    ensures JavaLength(x + y) == JavaLength(x) + JavaLength(y)
  {
    if x != [] {
      assert (x + y)[0] == x[0] && (x + y)[1..] == x[1..] + y;
      JavaLengthAppend(x[1..], y);
    } else {
      assert x + y == y;
    }
  }

  /** For text without supplementary characters, length() is the char count. */
  lemma {:induction false} JavaLengthBmp(s: string)
    requires forall k :: 0 <= k < |s| ==> s[k] as int < 0x1_0000
    ensures JavaLength(s) == |s|
  {
    if s != [] {
      assert forall k :: 0 <= k < |s[1..]| ==> s[1..][k] == s[k + 1];
      JavaLengthBmp(s[1..]);
    }
  }

  /** trim().length() == length() exactly when trim removed nothing. */
  lemma TrimKeepsLength(s: string)
    ensures JavaLength(Trim(s)) == JavaLength(s) <==> Trim(s) == s
  {
    var a, b := TrimWindow(s);
    assert s == s[..a] + s[a..b] + s[b..];
    JavaLengthAppend(s[..a] + s[a..b], s[b..]);
    JavaLengthAppend(s[..a], s[a..b]);
    if Trim(s) != s {
      assert a > 0 || b < |s|;
    }
  }

  /** p occurs in s starting at index i. */
  predicate OccursAt(s: string, p: string, i: int) {
    0 <= i && i + |p| <= |s| && s[i..i + |p|] == p
  }

  /** String.contains: p occurs somewhere in s (the empty string occurs everywhere). */
  function Contains(s: string, p: string): (b: bool)
    ensures b <==> exists i :: OccursAt(s, p, i)
    decreases |s|
  {
    if |p| > |s| then
      assert forall i :: !OccursAt(s, p, i);
      false
    else if s[..|p|] == p then
      assert OccursAt(s, p, 0);
      true
    else
      ShiftOccurrence(s, p);
      Contains(s[1..], p)
  }

  /** An occurrence in s other than at 0 is an occurrence in s[1..], one index earlier. */
  lemma ShiftOccurrence(s: string, p: string)
    requires |s| > 0 && !OccursAt(s, p, 0)
    ensures (exists i :: OccursAt(s, p, i)) <==> (exists i :: OccursAt(s[1..], p, i))
  {
    forall i | OccursAt(s, p, i)
      ensures OccursAt(s[1..], p, i - 1)
    {
      assert s[1..][i - 1..i - 1 + |p|] == s[i..i + |p|];
    }
    forall i | OccursAt(s[1..], p, i)
      ensures OccursAt(s, p, i + 1)
    {
      assert s[1..][i..i + |p|] == s[i + 1..i + 1 + |p|];
    }
  }
}
