/**
  Repeated HTML-entity decoding of message text. The decoder itself is the
  browser's (text assigned as a textarea's HTML and read back as its value),
  so it is a parameter here: any total function on strings.

  The loop starts with an empty "previous" string, so an empty input is not
  decoded at all; otherwise it decodes until one pass changes nothing or five
  passes have been made.
 */
module Unescape {

  /** One decoding pass. */
  type Decoder = string -> string

  /** The most passes ever made. */
  const MaxPasses: nat := 5

  /** `n` passes of `decode` over `s`. */
  function Iterate(decode: Decoder, s: string, n: nat): string
  {
    if n == 0 then s else decode(Iterate(decode, s, n - 1))
  }

  /** The number of passes made when pass `k` is about to run. */
  function PassesFrom(decode: Decoder, s: string, k: nat): (n: nat)
    requires 1 <= k <= MaxPasses
    ensures k <= n <= MaxPasses
    ensures forall m :: k <= m < n ==> Iterate(decode, s, m - 1) != Iterate(decode, s, m)
    ensures n < MaxPasses ==> Iterate(decode, s, n - 1) == Iterate(decode, s, n)
    decreases MaxPasses - k
  {
    if k == MaxPasses || Iterate(decode, s, k - 1) == Iterate(decode, s, k) then k
    else PassesFrom(decode, s, k + 1)
  }

  /** The number of passes made on input `s`. */
  function Passes(decode: Decoder, s: string): (n: nat)
    ensures n <= MaxPasses
    ensures s == [] <==> n == 0
  {
    if s == [] then 0 else PassesFrom(decode, s, 1)
  }

  /** The fully unescaped text. */
  function Unescaped(decode: Decoder, s: string): string
  {
    Iterate(decode, s, Passes(decode, s))
  }

  /** The loop of the source: decode until a pass changes nothing, at most
      five times. */
  method FullyUnescape(decode: Decoder, encoded: string) returns (current: string)
    ensures current == Unescaped(decode, encoded)
  {
    var previous := "";
    current := encoded;
    var iterations: nat := 0;
    while previous != current && iterations < MaxPasses
      invariant iterations <= MaxPasses
      invariant current == Iterate(decode, encoded, iterations)
      invariant iterations == 0 ==> previous == ""
      invariant encoded == [] ==> iterations == 0
      invariant iterations > 0 ==> previous == Iterate(decode, encoded, iterations - 1)
      invariant encoded != [] && iterations > 0 ==> iterations <= Passes(decode, encoded)
      invariant encoded != [] && iterations > 0 && iterations < Passes(decode, encoded) ==> previous != current
      decreases MaxPasses - iterations
    {
      previous := current;
      current := decode(current);
      iterations := iterations + 1;
    }
    if encoded != [] {
      // the loop ran, and it stopped at the first unchanged pass or at the bound
      assert iterations > 0;
      assert iterations == Passes(decode, encoded);
    }
  }

  // ---------------------------------------------------------------------
  // Properties
  // ---------------------------------------------------------------------

  /** Stopping early means the last pass changed nothing, so the result is a
      fixed point of the decoder. */
  lemma EarlyStopIsFixedPoint(decode: Decoder, s: string)
    requires s != [] && Passes(decode, s) < MaxPasses
    ensures decode(Unescaped(decode, s)) == Unescaped(decode, s)
  {
    var n := Passes(decode, s);
    assert Iterate(decode, s, n - 1) == Iterate(decode, s, n);
  }

  /** Every pass before the last one changed the text. */
  lemma NoPrematureStop(decode: Decoder, s: string, m: nat)
    requires 1 <= m < Passes(decode, s)
    ensures Iterate(decode, s, m - 1) != Iterate(decode, s, m)
  {
  }

  /** Text the decoder leaves alone comes back unchanged, after one pass. */
  lemma DecodedTextUnchanged(decode: Decoder, s: string)
    requires decode(s) == s
    ensures Unescaped(decode, s) == s
    ensures s != [] ==> Passes(decode, s) == 1
  {
    if s != [] {
      assert Iterate(decode, s, 1) == decode(s);
    }
  }

  /** Text whose decoding never settles is decoded exactly five times. */
  lemma NeverStableGivesFivePasses(decode: Decoder, s: string)
    requires s != []
    requires forall m :: 1 <= m <= MaxPasses ==> Iterate(decode, s, m - 1) != Iterate(decode, s, m)
    ensures Unescaped(decode, s) == Iterate(decode, s, MaxPasses)
  {
  }
}
