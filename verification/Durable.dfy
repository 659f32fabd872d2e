/** A directory changed by durable writes, any of which a kill may be the last to land. */
module Durable {

  function Land<S, W>(apply: (S, W) -> S, disk: S, writes: seq<W>): S {
    if writes == [] then disk
    else apply(Land(apply, disk, writes[..|writes| - 1]), writes[|writes| - 1])
  }

  function Cut<T>(s: seq<T>, k: nat): seq<T> { if k < |s| then s[..k] else s }

  lemma {:induction false} LandSplit<S, W>(apply: (S, W) -> S, disk: S, a: seq<W>, b: seq<W>)
    ensures Land(apply, disk, a + b) == Land(apply, Land(apply, disk, a), b)
  {
    if b == [] {
      assert a + b == a;
    } else {
      var front := b[..|b| - 1];
      LandSplit(apply, disk, a, front);
      assert (a + b)[..|a + b| - 1] == a + front;
    }
  }

  /** The directory, with the number of writes left before a kill.  The ghost fields: where a
      call started, the writes of it that landed, the writes it owes. */
  class Volume<S, W(==)> {
    const apply: (S, W) -> S
    var disk: S
    var budget: nat
    ghost const start: S
    ghost const allowance: nat
    ghost var landed: seq<W>
    ghost var owed: seq<W>

    ghost predicate Valid() reads this {
      disk == Land(apply, start, landed) && landed <= owed && budget + |landed| == allowance
    }

    constructor (apply: (S, W) -> S, disk: S, budget: nat)
      ensures Valid() && this.apply == apply && start == disk && allowance == budget && landed == []
    {
      this.apply, this.disk, this.budget, start, allowance, landed, owed := apply, disk, budget, disk, budget, [], [];
    }

    /** Every write owed landed, or the budget ran out first. */
    ghost predicate Ended(alive: bool) reads this {
      if alive then |landed| == |owed| else budget == 0 && |landed| < |owed|
    }

    method Do(write: W) returns (alive: bool)
      requires Valid() && |landed| < |owed| && owed[|landed|] == write
      modifies this
      ensures Valid() && owed == old(owed)
      ensures alive ==> |landed| == old(|landed|) + 1
      ensures !alive ==> budget == 0 && landed == old(landed)
    {
      if budget == 0 { return false; }
      ghost var next := landed + [write];
      assert next[..|next| - 1] == landed;
      budget, disk, landed := budget - 1, apply(disk, write), next;
      return true;
    }
  }

  /** A call leaves a prefix of the writes it owed, all of them unless killed. */
  lemma CallLands<S, W>(volume: Volume<S, W>, alive: bool)
    requires volume.Valid() && volume.Ended(alive)
    ensures volume.disk == Land(volume.apply, volume.start, Cut(volume.owed, volume.allowance))
  {
    assert volume.landed == Cut(volume.owed, volume.allowance);
  }
}
