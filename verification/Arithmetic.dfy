/** Powers, products and sizes. */
module Arithmetic {

  function Pow(base: nat, k: nat): (p: nat)
    ensures base > 0 ==> p > 0
  {
    if k == 0 then 1 else base * Pow(base, k - 1)
  }

  lemma TimesGrows(base: int, x: int, y: int)
    requires base >= 0 && x <= y
    ensures base * x <= base * y
  {}

  lemma {:induction false} SmallerSet(a: set<string>, b: set<string>)
    requires a <= b
    ensures |a| <= |b|
    decreases |a|
  {
    if a == {} {
    } else {
      var x :| x in a;
      SmallerSet(a - {x}, b - {x});
    }
  }
}
