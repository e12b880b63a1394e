// Button readings. A loop such as `while pressed():` or
// `while scroll.is_pressed(...)` reads a button until it finds it released;
// the model takes the successive readings as a sequence that ends in a
// release somewhere.
module Buttons {

  /** The number of readings that find the button pressed before the first
      reading that finds it released. */
  function FirstRelease(presses: seq<bool>): (n: nat)
    requires false in presses
    ensures n < |presses| && !presses[n]
    ensures forall i :: 0 <= i < n ==> presses[i]
  {
    if !presses[0] then 0 else 1 + FirstRelease(presses[1..])
  }
}
