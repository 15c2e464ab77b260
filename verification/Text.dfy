/** White space as Python's text functions and patterns see it. */
module Text {
  /** Characters that `str.isspace` and the `\s` of a text pattern accept. */
  predicate IsSpace(c: char) {
    var n := c as int;
    || 0x9 <= n <= 0xD || 0x1C <= n <= 0x20 || n == 0x85 || n == 0xA0 || n == 0x1680
    || 0x2000 <= n <= 0x200A || n == 0x2028 || n == 0x2029 || n == 0x202F || n == 0x205F || n == 0x3000
  }

  function LeftTrim(s: string): string {
    if s != "" && IsSpace(s[0]) then LeftTrim(s[1..]) else s
  }

  function RightTrim(s: string): string {
    if s != "" && IsSpace(s[|s| - 1]) then RightTrim(s[..|s| - 1]) else s
  }

  function Strip(s: string): string { RightTrim(LeftTrim(s)) }

  /** Trimming takes white space away at both ends, all of it and nothing else. */
  lemma {:induction false} StripIsMiddle(s: string) returns (i: nat, j: nat)
    ensures i <= j <= |s| && Strip(s) == s[i..j]
    ensures forall k :: 0 <= k < i || j <= k < |s| ==> IsSpace(s[k])
    ensures i < j ==> !IsSpace(s[i]) && !IsSpace(s[j - 1])
  {
    hide IsSpace, LeftTrim, RightTrim;
    i := LeftTrimIs(s);
    j := RightTrimIs(LeftTrim(s));
    j := i + j;
  }

  lemma {:induction false} LeftTrimIs(s: string) returns (i: nat)
    ensures i <= |s| && LeftTrim(s) == s[i..]
    ensures (forall k :: 0 <= k < i ==> IsSpace(s[k])) && (i < |s| ==> !IsSpace(s[i]))
  {
    hide IsSpace;
    if s != "" && IsSpace(s[0]) {
      i := LeftTrimIs(s[1..]);
      forall k | 0 <= k < i + 1 ensures IsSpace(s[k]) { assert k > 0 ==> s[k] == s[1..][k - 1]; }
      i := i + 1;
    } else {
      i := 0;
    }
  }

  lemma {:induction false} RightTrimIs(s: string) returns (j: nat)
    ensures j <= |s| && RightTrim(s) == s[..j]
    ensures (forall k :: j <= k < |s| ==> IsSpace(s[k])) && (j > 0 ==> !IsSpace(s[j - 1]))
  {
    hide IsSpace;
    if s != "" && IsSpace(s[|s| - 1]) {
      j := RightTrimIs(s[..|s| - 1]);
    } else {
      j := |s|;
      assert s[..j] == s;
    }
  }

  /** First position from `i` on that holds no white space. */
  function SkipSpaces(s: string, i: nat): (j: nat)
    requires i <= |s|
    ensures i <= j <= |s|
    decreases |s| - i
  {
    if i < |s| && IsSpace(s[i]) then SkipSpaces(s, i + 1) else i
  }

  /** First position from `i` on that holds white space. */
  function SkipWord(s: string, i: nat): (j: nat)
    requires i <= |s|
    ensures i <= j <= |s|
    decreases |s| - i
  {
    if i < |s| && !IsSpace(s[i]) then SkipWord(s, i + 1) else i
  }
}
