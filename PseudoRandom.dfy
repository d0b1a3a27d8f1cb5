/** The per-type pseudo-random streams of the generator: a counter per
    stream name, advanced by a linear congruential step. A draw is the
    fraction counter / Modulus; the generator only ever uses it as
    floor(fraction * k), computed here exactly on integers. */
module PseudoRandom {

  const Multiplier: nat := 25214903917
  const Modulus: nat := 281474976710655

  /** The counter of a fresh stream after its first draw: (0 + 11) * Multiplier. */
  const FirstSeed: nat := 277363943087

  /** One step of a stream's counter. */
  function NextSeed(seed: nat): (r: nat)
    ensures r < Modulus
  {
    (seed + 11) * Multiplier % Modulus
  }

  /** Every counter lies in [0, Modulus). */
  ghost predicate InRange(seeds: map<string, nat>) {
    forall t :: t in seeds ==> seeds[t] < Modulus
  }

  /** The counters after one draw from stream `t`: an unseen stream starts
      at 0, only `t`'s counter moves, and all counters stay in range. */
  function Advance(seeds: map<string, nat>, t: string): (r: map<string, nat>)
    ensures r.Keys == seeds.Keys + {t}
    ensures t in seeds ==> r[t] == NextSeed(seeds[t])
    ensures t !in seeds ==> r[t] == FirstSeed
    ensures forall u :: u in seeds && u != t ==> r[u] == seeds[u]
    ensures InRange(seeds) ==> InRange(r)
  {
    seeds[t := NextSeed(if t in seeds then seeds[t] else 0)]
  }

  /** The counters after `n` draws in a row from stream `t`. */
  function AdvanceTimes(seeds: map<string, nat>, t: string, n: nat): (r: map<string, nat>)
    ensures r.Keys == if n == 0 then seeds.Keys else seeds.Keys + {t}
    ensures n > 0 ==> r[t] < Modulus
    ensures forall u :: u in seeds && u != t ==> r[u] == seeds[u]
  {
    if n == 0 then seeds else Advance(AdvanceTimes(seeds, t, n - 1), t)
  }

  /** floor(seed / Modulus * k): a draw scaled to [0, k). */
  function Scaled(seed: nat, k: nat): (r: nat)
    requires seed < Modulus
    ensures k > 0 ==> r < k
    ensures r * Modulus <= seed * k < (r + 1) * Modulus
  {
    ScaledBelow(seed, k);
    seed * k / Modulus
  }

  lemma ScaledBelow(seed: nat, k: nat)
    requires seed < Modulus
    ensures k > 0 ==> seed * k / Modulus < k
    ensures (seed * k / Modulus) * Modulus <= seed * k < (seed * k / Modulus + 1) * Modulus
  {
    var q := seed * k / Modulus;
    assert q * Modulus + seed * k % Modulus == seed * k;
    if k > 0 {
      assert seed * k < Modulus * k by {
        assert (Modulus - seed) * k > 0;
      }
    }
  }
}
