/** The seeded shuffle of the public listing (`app/api/peiwan/route.ts`): the seed text
    is hashed to 32 bits, the hash seeds a `mulberry32` generator (0 is replaced by 1),
    and Fisher–Yates swaps each position, from the last down to the second, with one at
    or below it. The same seed always gives the same order, and the order is a
    permutation of the rows. */
module Shuffle {
  import opened Text

  const TWO_32: int := 0x1_0000_0000
  const HASH_START: bv32 := 1779033703
  const HASH_FACTOR: bv32 := 3432918353
  const MULBERRY_STEP: bv32 := 0x6d2b79f5

  /** `1779033703 ^ seed.length`, the length counted in UTF-16 code units. */
  function HashStart(length: nat): bv32 {
    HASH_START ^ ((length % TWO_32) as bv32)
  }

  /** One round of the loop: `Math.imul(h ^ code, 3432918353)` rotated left by 13. */
  function HashStep(h: bv32, unit: int): bv32
    requires 0 <= unit < 0x10000
  {
    var m := (h ^ (unit as bv32)) * HASH_FACTOR;
    (m << 13) | (m >> 19)
  }

  predicate CodeUnits(units: seq<int>) {
    forall i :: 0 <= i < |units| ==> 0 <= units[i] < 0x10000
  }

  /** The loop over the code units, from the first to the last. */
  function HashFold(h: bv32, units: seq<int>): bv32
    requires CodeUnits(units)
    decreases |units|
  {
    if units == [] then h else HashFold(HashStep(h, units[0]), units[1..])
  }

  /** `(h ^ (h >>> 16)) >>> 0` */
  function HashFinish(h: bv32): bv32 {
    h ^ (h >> 16)
  }

  /** `hashSeed`: an unsigned 32-bit value. */
  function HashSeed(seed: string): bv32 {
    var units := Utf16(seed);
    HashFinish(HashFold(HashStart(|units|), units))
  }

  /** `hashSeed`, one code unit at a time as the source does. */
  method ComputeHashSeed(seed: string) returns (r: bv32)
    ensures r == HashSeed(seed)
  {
    var units := Utf16(seed);
    var h := HashStart(|units|);
    var i := 0;
    while i < |units|
      invariant 0 <= i <= |units|
      invariant HashFold(h, units[i..]) == HashFold(HashStart(|units|), units)
    {
      assert units[i..][1..] == units[i + 1..];
      h := HashStep(h, units[i]);
      i := i + 1;
    }
    assert units[i..] == [];
    r := HashFinish(h);
  }

  /** The generator's state after `hashSeed(seed) || 1`. */
  function InitialState(hash: bv32): (a: bv32)
    ensures a != 0
    ensures hash != 0 ==> a == hash
  {
    if hash == 0 then 1 else hash
  }

  /** The value drawn from the advanced state `t`, before it is divided by 2^32. */
  function Draw(t: bv32): bv32 {
    var t1 := (t ^ (t >> 15)) * (t | 1);
    var t2 := t1 ^ (t1 + (t1 ^ (t1 >> 7)) * (t1 | 61));
    t2 ^ (t2 >> 14)
  }

  /** The `mulberry32` closure: its captured `a` becomes the field `state`. */
  class Mulberry32 {
    var state: bv32

    constructor (seed: bv32)
      ensures state == seed
    {
      state := seed;
    }

    /** One call of the closure: the state advances by `0x6d2b79f5` and `rng()` is
        `u / 2^32` for the returned `u`. */
    method Next() returns (u: bv32)
      modifies this
      ensures state == old(state) + MULBERRY_STEP
      ensures u == Draw(state)
    {
      state := state + MULBERRY_STEP;
      u := Draw(state);
    }
  }

  /** `Math.floor(rng() * (i + 1))` for `rng() = u / 2^32`. */
  function SwapIndex(u: bv32, i: nat): (j: int)
    ensures 0 <= j <= i
  {
    SwapIndexBound(u as int, i);
    (u as int * (i + 1)) / TWO_32
  }

  /** The swap index never leaves `[0, i]`, because the drawn fraction is below 1. */
  lemma SwapIndexBound(u: int, i: nat)
    requires 0 <= u < TWO_32
    ensures 0 <= (u * (i + 1)) / TWO_32 <= i
  {
    assert u * (i + 1) <= (TWO_32 - 1) * (i + 1);
    assert (TWO_32 - 1) * (i + 1) < TWO_32 * (i + 1);
  }

  /** `[arr[i], arr[j]] = [arr[j], arr[i]]` */
  function Swap<T>(s: seq<T>, i: nat, j: nat): (r: seq<T>)
    requires i < |s| && j < |s|
    ensures |r| == |s| && r[i] == s[j] && r[j] == s[i]
    ensures forall k :: 0 <= k < |s| && k != i && k != j ==> r[k] == s[k]
  {
    s[i := s[j]][j := s[i]]
  }

  /** The rest of the shuffle from position `i` down, with generator state `a`. */
  function ShuffleFrom<T>(s: seq<T>, i: int, a: bv32): seq<T>
    requires i < |s|
    decreases i
  {
    if i <= 0 then s
    else
      var next := a + MULBERRY_STEP;
      ShuffleFrom(Swap(s, i, SwapIndex(Draw(next), i)), i - 1, next)
  }

  /** One step of the shuffle. */
  lemma ShuffleStep<T>(s: seq<T>, i: int, a: bv32, next: bv32, j: int)
    requires 0 < i < |s|
    requires next == a + MULBERRY_STEP && j == SwapIndex(Draw(next), i)
    ensures ShuffleFrom(s, i, a) == ShuffleFrom(Swap(s, i, j), i - 1, next)
  {
  }

  /** `shuffleWithSeed(rows, seed)` */
  function Shuffled<T>(s: seq<T>, seed: string): (r: seq<T>)
    ensures |r| == |s| && multiset(r) == multiset(s)
  {
    ShuffleFromPermutes(s, |s| - 1, InitialState(HashSeed(seed)));
    ShuffleFrom(s, |s| - 1, InitialState(HashSeed(seed)))
  }

  /** A swap keeps the elements. */
  lemma SwapPermutes<T>(s: seq<T>, i: nat, j: nat)
    requires i < |s| && j < |s|
    ensures multiset(Swap(s, i, j)) == multiset(s)
  {
    var t := s[i := s[j]];
    assert multiset(t) == multiset(s) - multiset{s[i]} + multiset{s[j]};
    assert t[j] == s[j];
    assert multiset(t[j := s[i]]) == multiset(t) - multiset{s[j]} + multiset{s[i]};
  }

  /** The shuffle is a permutation: same length, same elements with the same counts. */
  lemma {:induction false} ShuffleFromPermutes<T>(s: seq<T>, i: int, a: bv32)
    requires i < |s|
    ensures |ShuffleFrom(s, i, a)| == |s|
    ensures multiset(ShuffleFrom(s, i, a)) == multiset(s)
    decreases i
  {
    if i > 0 {
      var next := a + MULBERRY_STEP;
      var j := SwapIndex(Draw(next), i);
      SwapPermutes(s, i, j);
      ShuffleFromPermutes(Swap(s, i, j), i - 1, next);
    }
  }

  lemma ShuffledPermutes<T>(s: seq<T>, seed: string)
    ensures |Shuffled(s, seed)| == |s|
    ensures multiset(Shuffled(s, seed)) == multiset(s)
    ensures forall x :: x in Shuffled(s, seed) <==> x in s
  {
    ShuffleFromPermutes(s, |s| - 1, InitialState(HashSeed(seed)));
    var r := Shuffled(s, seed);
    forall x
      ensures x in r <==> x in s
    {
      assert x in r <==> x in multiset(r);
      assert x in s <==> x in multiset(s);
    }
  }

  /** `shuffleWithSeed`: Fisher–Yates in place, driven by the generator seeded from the
      seed text. */
  method ShuffleWithSeed<T>(arr: array<T>, seed: string)
    modifies arr
    ensures arr[..] == Shuffled(old(arr[..]), seed)
    ensures multiset(arr[..]) == multiset(old(arr[..]))
  {
    var hash := ComputeHashSeed(seed);
    var rng := new Mulberry32(if hash == 0 then 1 else hash);
    FisherYates(arr, rng);
    ShuffledPermutes(old(arr[..]), seed);
  }

  /** The loop of `shuffleWithSeed`: position `i`, from the last down to 1, is swapped
      with the drawn index `j`. */
  method FisherYates<T>(arr: array<T>, rng: Mulberry32)
    modifies arr, rng
    ensures arr[..] == ShuffleFrom(old(arr[..]), arr.Length - 1, old(rng.state))
  {
    var i := arr.Length - 1;
    while i > 0
      invariant -1 <= i < arr.Length
      invariant ShuffleFrom(arr[..], i, rng.state) == ShuffleFrom(old(arr[..]), arr.Length - 1, old(rng.state))
      decreases i
    {
      ghost var before, a := arr[..], rng.state;
      var u := rng.Next();
      var j := SwapIndex(u, i);
      arr[i], arr[j] := arr[j], arr[i];
      assert arr[..] == Swap(before, i, j);
      ShuffleStep(before, i, a, rng.state, j);
      i := i - 1;
    }
  }
}
