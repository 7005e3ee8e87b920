/** The few string operations the migrations rely on. */
module Text {

  predicate IsSpace(c: char) { c in " \t\n\r" }

  function StripLeft(s: string): (r: string)
    ensures |r| <= |s|
    ensures r != "" ==> !IsSpace(r[0]) && r == s[|s| - |r|..]
  {
    if s != "" && IsSpace(s[0]) then StripLeft(s[1..]) else s
  }

  function StripRight(s: string): (r: string)
    ensures r <= s
    ensures r != "" ==> !IsSpace(r[|r| - 1])
  {
    if s != "" && IsSpace(s[|s| - 1]) then StripRight(s[..|s| - 1]) else s
  }

  function Strip(s: string): (r: string)
    ensures Trimmed(r)
  {
    StripRight(StripLeft(s))
  }

  predicate Trimmed(s: string) {
    s == "" || (!IsSpace(s[0]) && !IsSpace(s[|s| - 1]))
  }

  lemma StripTrimmed(s: string)
    requires Trimmed(s)
    ensures Strip(s) == s
  {
  }

  /** Joining a trimmed head and a trimmed, nonempty tail gives a trimmed string. */
  lemma JoinTrimmed(head: string, middle: string, tail: string)
    requires Trimmed(head) && head != "" && Trimmed(tail) && tail != ""
    ensures Trimmed(head + middle + tail)
  {
    var joined := head + middle + tail;
    assert joined[0] == head[0] && joined[|joined| - 1] == tail[|tail| - 1];
  }

  /** Strings that end in different digests of one length differ. */
  lemma TailsDiffer(a: string, b: string, tailA: string, tailB: string)
    requires |tailA| == |tailB| && tailA != tailB
    ensures a + tailA != b + tailB
  {
    assert (a + tailA)[|a|..] == tailA && (b + tailB)[|b|..] == tailB;
  }
}
