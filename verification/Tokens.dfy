/** `strtok_r`, as a function: the next token of a string and what is left of it. */
module Tokens {
  import opened Basics

  /** `MAX_TMPBUF_SIZE`: the size of the copies that the parsers take apart. */
  const TMPBUF_SIZE: nat := 128

  /** How many characters s starts with that are (not) in the set. */
  function Span(s: string, chars: string): (n: nat)
    ensures n <= |s| && (forall i :: 0 <= i < n ==> s[i] in chars) && (n == |s| || s[n] !in chars)
  {
    if s == [] || s[0] !in chars then 0 else 1 + Span(s[1..], chars)
  }

  function Until(s: string, chars: string): (n: nat)
    ensures n <= |s| && (forall i :: 0 <= i < n ==> s[i] !in chars) && (n == |s| || s[n] in chars)
  {
    if s == [] || s[0] in chars then 0 else 1 + Until(s[1..], chars)
  }

  datatype Split = Split(token: string, rest: string)

  /** The next token and what is left behind its delimiter. */
  function Strtok(s: string, delims: string): (r: Option<Split>)
    ensures r.Some? ==> |r.value.rest| < |s| && r.value.token != ""
  {
    var t := s[Span(s, delims)..];
    if t == [] then None
    else
      var n := Until(t, delims);
      Some(Split(t[..n], if n == |t| then "" else t[n + 1..]))
  }

  lemma {:induction false} UntilAfter(a: string, b: string, delims: string)
    requires (forall i :: 0 <= i < |a| ==> a[i] !in delims) && (b == "" || b[0] in delims)
    ensures Until(a + b, delims) == |a|
  {
    if a == [] {
      assert a + b == b;
    } else {
      assert (a + b)[1..] == a[1..] + b;
      UntilAfter(a[1..], b, delims);
    }
  }

  lemma NoSpan(s: string, delims: string)
    requires s != "" && s[0] !in delims
    ensures Span(s, delims) == 0
  {
  }

  lemma StrtokAfter(a: string, d: char, b: string, delims: string)
    requires a != "" && (forall i :: 0 <= i < |a| ==> a[i] !in delims) && d in delims
    ensures Strtok(a + [d] + b, delims) == Some(Split(a, b))
  {
    var s := a + [d] + b;
    assert s == a + ([d] + b);
    NoSpan(s, delims);
    assert s[0..] == s;
    UntilAfter(a, [d] + b, delims);
    assert s[..|a|] == a && s[|a| + 1..] == b;
  }

  lemma StrtokLast(a: string, delims: string)
    requires a != "" && (forall i :: 0 <= i < |a| ==> a[i] !in delims)
    ensures Strtok(a, delims) == Some(Split(a, ""))
  {
    NoSpan(a, delims);
    assert a[0..] == a && a + "" == a;
    UntilAfter(a, "", delims);
    assert a[..|a|] == a;
  }
}
