/** Sequence helpers shared by the generators. */
module Seqs {
  /** `f` applied to every element, in order (PHP's `array_map` over a list). */
  function Map<A, B>(f: A -> B, s: seq<A>): (r: seq<B>)
    ensures |r| == |s|
    ensures forall i :: 0 <= i < |s| ==> r[i] == f(s[i])
  {
    if |s| == 0 then [] else [f(s[0])] + Map(f, s[1..])
  }

  /** The decimal digits of `n`, most significant first. */
  function Digits(n: nat): string
    decreases n
  {
    (if n < 10 then "" else Digits(n / 10)) + [(('0' as int) + n % 10) as char]
  }

  /** `n` in decimal, with a minus sign when negative (PHP's string form of an integer). */
  function Decimal(n: int): string {
    if n < 0 then "-" + Digits(-n) else Digits(n)
  }
}
