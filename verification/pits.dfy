/** A single cell of the board: an owner, a store flag and a seed count. */
module Pits {
  import opened Players

  /** Owner and store flag are fixed at construction; only the seed count ever changes. */
  datatype Pit = Pit(owner: Player, isStore: bool, seeds: int)

  /** The constructor taking an owner and a store flag: the pit starts empty. */
  function NewPit(owner: Player, isStore: bool): (r: Pit)
    ensures r.owner == owner && r.isStore == isStore
    ensures r.seeds == 0
  {
    Pit(owner, isStore, 0)
  }

  /** The constructor taking an owner and an initial seed count: never a store. */
  function NewSowingPit(owner: Player, seeds: int): (r: Pit)
    ensures r.owner == owner && r.seeds == seeds
    ensures !r.isStore
  {
    Pit(owner, false, seeds)
  }

  /** Overwrites the seed count and nothing else. */
  function SetSeeds(p: Pit, n: int): (r: Pit)
    ensures r.seeds == n
    ensures r.owner == p.owner && r.isStore == p.isStore
  {
    p.(seeds := n)
  }

  /** Adds to the seed count and changes nothing else. */
  function AddSeeds(p: Pit, n: int): (r: Pit)
    ensures r.seeds == p.seeds + n
    ensures r.owner == p.owner && r.isStore == p.isStore
  {
    p.(seeds := p.seeds + n)
  }

  /** A copy with equal owner, flag and seeds; as a value it shares no state with the original. */
  function Clone(p: Pit): (r: Pit)
    ensures r.owner == p.owner && r.isStore == p.isStore && r.seeds == p.seeds
  {
    Pit(p.owner, p.isStore, p.seeds)
  }

  /** The two mutators a pit offers. */
  datatype Mutation = Set(n: int) | Add(n: int)

  function Apply(p: Pit, m: Mutation): Pit
  {
    match m
    case Set(n) => SetSeeds(p, n)
    case Add(n) => AddSeeds(p, n)
  }

  /** The pit after a whole history of mutations, oldest first. */
  function ApplyAll(p: Pit, ms: seq<Mutation>): Pit
    decreases |ms|
  {
    if |ms| == 0 then p else ApplyAll(Apply(p, ms[0]), ms[1..])
  }

  /** However a pit is mutated, its owner and store flag stay those it was built with. */
  lemma {:induction false} IdentityIsFixed(p: Pit, ms: seq<Mutation>)
    ensures ApplyAll(p, ms).owner == p.owner
    ensures ApplyAll(p, ms).isStore == p.isStore
    decreases |ms|
  {
    if |ms| > 0 {
      IdentityIsFixed(Apply(p, ms[0]), ms[1..]);
    }
  }

  /** Mutating a clone leaves the original untouched, and the clone starts equal to it. */
  lemma CloneIsIndependent(p: Pit, ms: seq<Mutation>)
    ensures Clone(p) == p
    ensures ApplyAll(Clone(p), ms) == ApplyAll(p, ms)
  {
  }

  /** Two additions amount to one addition of their sum. */
  lemma AddSeedsCompose(p: Pit, a: int, b: int)
    ensures AddSeeds(AddSeeds(p, a), b) == AddSeeds(p, a + b)
  {
  }

  /** Setting the seed count forgets everything added before. */
  lemma SetSeedsOverrides(p: Pit, a: int, n: int)
    ensures SetSeeds(AddSeeds(p, a), n) == SetSeeds(p, n)
  {
  }
}
