/** Facts about products that several parts of the dump model need. */
module Multiplication {
  lemma {:induction false} MulLe(a: nat, b: nat, c: nat)
    ensures a <= b ==> a * c <= b * c
    ensures a * c < b * c ==> a < b
  {
    if a <= b { assert (b - a) * c >= 0; } else { assert (a - b) * c >= 0; }
  }
}
