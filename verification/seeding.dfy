/** How generateSingleElimination orders the participants before it pairs them. */
module Seeding {
  import opened Common
  import opened Shuffle

  datatype Participant = Participant(id: Id, seed: Option<int>)

  predicate AllSeeded(ps: seq<Participant>) {
    forall i :: 0 <= i < |ps| ==> ps[i].seed.Some?
  }

  ghost predicate SortedBySeed(ps: seq<Participant>)
    requires AllSeeded(ps)
  {
    forall i, j :: 0 <= i < j < |ps| ==> ps[i].seed.value <= ps[j].seed.value
  }

  /** Places p behind every element whose seed is not larger. */
  function InsertBySeed(ps: seq<Participant>, p: Participant): (r: seq<Participant>)
    requires AllSeeded(ps) && p.seed.Some?
    ensures AllSeeded(r) && |r| == |ps| + 1
    ensures forall i :: 0 <= i < |r| ==> r[i] == p || r[i] in ps
    ensures multiset(r) == multiset(ps) + multiset{p}
  {
    var last := |ps| - 1;
    if ps == [] || ps[last].seed.value <= p.seed.value then ps + [p]
    else
      assert ps == ps[..last] + [ps[last]];
      InsertBySeed(ps[..last], p) + [ps[last]]
  }

  /** A prefix of a sorted list is sorted, and nothing in it exceeds what follows. */
  lemma SortedPrefix(ps: seq<Participant>, n: nat)
    requires AllSeeded(ps) && SortedBySeed(ps) && n < |ps|
    ensures AllSeeded(ps[..n]) && SortedBySeed(ps[..n])
    ensures forall q :: q in ps[..n] ==> q.seed.value <= ps[n].seed.value
  {
  }

  lemma SortedAppend(ps: seq<Participant>, p: Participant)
    requires AllSeeded(ps) && p.seed.Some? && SortedBySeed(ps)
    requires forall i :: 0 <= i < |ps| ==> ps[i].seed.value <= p.seed.value
    ensures AllSeeded(ps + [p]) && SortedBySeed(ps + [p])
  {
  }

  lemma {:induction false} InsertKeepsSorted(ps: seq<Participant>, p: Participant)
    requires AllSeeded(ps) && p.seed.Some? && SortedBySeed(ps)
    ensures SortedBySeed(InsertBySeed(ps, p))
  {
    var last := |ps| - 1;
    if ps == [] || ps[last].seed.value <= p.seed.value {
      SortedAppend(ps, p);
    } else {
      SortedPrefix(ps, last);
      InsertKeepsSorted(ps[..last], p);
      SortedAppend(InsertBySeed(ps[..last], p), ps[last]);
    }
  }

  /** Array.prototype.sort with the comparator a.seed - b.seed: stable, as ECMAScript 2019 requires. */
  function SortBySeed(ps: seq<Participant>): (r: seq<Participant>)
    requires AllSeeded(ps)
    ensures AllSeeded(r) && SortedBySeed(r) && |r| == |ps|
    ensures multiset(r) == multiset(ps)
  {
    if ps == [] then []
    else
      var last := |ps| - 1;
      assert ps == ps[..last] + [ps[last]];
      var sorted := SortBySeed(ps[..last]);
      InsertKeepsSorted(sorted, ps[last]);
      InsertBySeed(sorted, ps[last])
  }

  /** Seeds when everybody has one, otherwise the shuffle or the given order. */
  function SeedOrder(ps: seq<Participant>, shuffle: bool, choices: seq<nat>): (r: seq<Participant>)
    requires ValidChoices(choices, |ps|)
    ensures |r| == |ps|
  {
    if AllSeeded(ps) then SortBySeed(ps)
    else if shuffle then Shuffled(ps, choices)
    else ps
  }

  lemma SeedOrderIsPermutation(ps: seq<Participant>, shuffle: bool, choices: seq<nat>)
    requires ValidChoices(choices, |ps|)
    ensures multiset(SeedOrder(ps, shuffle, choices)) == multiset(ps)
    ensures AllSeeded(ps) ==>
              AllSeeded(SeedOrder(ps, shuffle, choices)) && SortedBySeed(SeedOrder(ps, shuffle, choices))
  {
    ShuffledIsPermutation(ps, choices);
  }

  /**
   Without a full set of seeds, the order is the one given unless the shuffle is wanted; then every order of
   different participants is possible.
   */
  lemma UnseededOrderIff(ps: seq<Participant>, shuffle: bool, order: seq<Participant>)
    requires !AllSeeded(ps) && Distinct(ps)
    ensures (exists choices :: ValidChoices(choices, |ps|) && SeedOrder(ps, shuffle, choices) == order) <==>
            if shuffle then multiset(order) == multiset(ps) else order == ps
  {
    ShuffleIsBijection(ps, order);
    if !shuffle {
      ShuffleIsBijection(ps, ps);
      var choices :| ValidChoices(choices, |ps|) && Shuffled(ps, choices) == ps;
      assert SeedOrder(ps, shuffle, choices) == ps;
    } else if multiset(order) == multiset(ps) {
      var choices :| ValidChoices(choices, |ps|) && Shuffled(ps, choices) == order;
      assert SeedOrder(ps, shuffle, choices) == order;
    } else {
      forall choices | ValidChoices(choices, |ps|)
        ensures SeedOrder(ps, shuffle, choices) != order
      {
        SeedOrderIsPermutation(ps, shuffle, choices);
      }
    }
  }

  function IfSeed(p: Participant, seed: int): seq<Participant> {
    if p.seed == Some(seed) then [p] else []
  }

  /** The participants with a given seed, in order of appearance. */
  function WithSeed(ps: seq<Participant>, seed: int): seq<Participant> {
    if ps == [] then [] else WithSeed(ps[..|ps| - 1], seed) + IfSeed(ps[|ps| - 1], seed)
  }

  lemma WithSeedAppend(ps: seq<Participant>, p: Participant, seed: int)
    ensures WithSeed(ps + [p], seed) == WithSeed(ps, seed) + IfSeed(p, seed)
  {
    assert (ps + [p])[..|ps|] == ps;
  }

  lemma IfSeedsCommute(front: seq<Participant>, p: Participant, q: Participant, seed: int)
    requires p.seed != q.seed
    ensures front + IfSeed(p, seed) + IfSeed(q, seed) == front + IfSeed(q, seed) + IfSeed(p, seed)
  {
    assert IfSeed(p, seed) == [] || IfSeed(q, seed) == [];
  }

  lemma {:induction false} InsertIsStable(ps: seq<Participant>, p: Participant, seed: int)
    requires AllSeeded(ps) && p.seed.Some? && SortedBySeed(ps)
    ensures WithSeed(InsertBySeed(ps, p), seed) == WithSeed(ps, seed) + IfSeed(p, seed)
  {
    var last := |ps| - 1;
    if ps == [] || ps[last].seed.value <= p.seed.value {
      WithSeedAppend(ps, p, seed);
    } else {
      var shorter := ps[..last];
      InsertIsStable(shorter, p, seed);
      WithSeedAppend(InsertBySeed(shorter, p), ps[last], seed);
      IfSeedsCommute(WithSeed(shorter, seed), p, ps[last], seed);
    }
  }

  /** Equal seeds keep their order, so the seeded order is a function of the input. */
  lemma {:induction false} SortIsStable(ps: seq<Participant>, seed: int)
    requires AllSeeded(ps)
    ensures WithSeed(SortBySeed(ps), seed) == WithSeed(ps, seed)
  {
    if ps != [] {
      var last := |ps| - 1;
      SortIsStable(ps[..last], seed);
      InsertIsStable(SortBySeed(ps[..last]), ps[last], seed);
    }
  }
}
