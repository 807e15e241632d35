/** What several modules share: optional values, powers of two, C strings and a few facts
    about numbers and sets. */
module Basics {

  datatype Option<+T> = None | Some(value: T)

  // ---- numbers ----

  function Pow2(n: nat): (p: nat)
    ensures p > 0
  {
    if n == 0 then 1 else 2 * Pow2(n - 1)
  }

  lemma MulMono(a: int, b: int, m: nat)
    requires a <= b
    ensures a * m <= b * m
  {
  }

  // ---- C strings ----

  const NUL: char := '\0'

  /** The characters before the first NUL. */
  function CString(s: string): (r: string)
    ensures |r| <= |s| && NUL !in r && r == s[..|r|] && (|r| == |s| || s[|r|] == NUL)
  {
    if s == [] || s[0] == NUL then [] else [s[0]] + CString(s[1..])
  }

  lemma {:induction false} CStringOfPlain(s: string)
    requires NUL !in s
    ensures CString(s) == s
  {
    if s != [] { CStringOfPlain(s[1..]); }
  }

  // ---- sets ----

  lemma {:induction false} SubsetSize<T>(a: set<T>, b: set<T>)
    requires a <= b
    ensures |a| <= |b|
  {
    if a != {} {
      var x :| x in a;
      SubsetSize(a - {x}, b - {x});
    }
  }
}
