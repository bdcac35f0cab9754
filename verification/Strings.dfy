/** The few string searches the parsers use. */
module Strings {
  import opened Collections

  /** Position of the first c, as in `split_once` and `find`. */
  function FirstOf(s: string, c: char): (r: Option<nat>)
    ensures r.None? <==> c !in s
    ensures r.Some? ==> r.value < |s| && s[r.value] == c && c !in s[..r.value]
  {
    if s == [] then None
    else if s[0] == c then Some(0)
    else
      var rest := FirstOf(s[1..], c);
      assert s == [s[0]] + s[1..];
      if rest.None? then None
      else
        assert s[..rest.value + 1] == [s[0]] + s[1..][..rest.value];
        Some(rest.value + 1)
  }

  /** Position of the last c, as in `rsplit_once` and `rfind`. */
  function LastOf(s: string, c: char): (r: Option<nat>)
    ensures r.None? <==> c !in s
    ensures r.Some? ==> r.value < |s| && s[r.value] == c && c !in s[r.value + 1..]
  {
    if s == [] then None
    else if s[|s| - 1] == c then Some(|s| - 1)
    else
      var front := s[..|s| - 1];
      var r := LastOf(front, c);
      assert s == front + [s[|s| - 1]];
      if r.None? then None
      else
        assert s[r.value + 1..] == front[r.value + 1..] + [s[|s| - 1]];
        r
  }

  lemma {:induction false} FirstAt(l: string, c: char, r: string)
    requires c !in l
    ensures FirstOf(l + [c] + r, c) == Some(|l|)
  {
    if l != [] {
      FirstAt(l[1..], c, r);
      assert (l + [c] + r)[1..] == l[1..] + [c] + r;
    }
  }

  lemma {:induction false} LastAt(l: string, c: char, r: string)
    requires c !in r
    ensures LastOf(l + [c] + r, c) == Some(|l|)
  {
    var s := l + [c] + r;
    if r != [] {
      LastAt(l, c, r[..|r| - 1]);
      assert s[..|s| - 1] == l + [c] + r[..|r| - 1];
      assert s[|s| - 1] == r[|r| - 1];
    }
  }
}
