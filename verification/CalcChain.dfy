/**
  The calculation chain edit (engine/assembly/xlsx_patch.py).  An entry's sheet id is
  written only when the sheet changes; an omitted id inherits the previous entry's
  (ECMA-376 Part 1, section 18.6.2).
 */
module CalcChain {
  import opened Wrappers

  datatype Entry = Entry(own: Option<int>, cell: string)

  type Drop = set<(int, string)>

  /** The sheet the k-th entry belongs to; before the first entry the current sheet is 1. */
  function Id(chain: seq<Entry>, k: nat): int
    requires k < |chain|
  {
    match chain[k].own
    case Some(id) => id
    case None => if k == 0 then 1 else Id(chain, k - 1)
  }

  function CurrentAfter(chain: seq<Entry>): int {
    if chain == [] then 1 else Id(chain, |chain| - 1)
  }

  /** What a reader of the chain sees. */
  function Resolve(chain: seq<Entry>): seq<(int, string)> {
    seq(|chain|, k requires 0 <= k < |chain| => (Id(chain, k), chain[k].cell))
  }

  /** `_chain_entries`, drained into a list. */
  method ChainEntries(chain: seq<Entry>) returns (pairs: seq<(Entry, int)>)
    ensures |pairs| == |chain|
    ensures forall k | 0 <= k < |chain| :: pairs[k] == (chain[k], Id(chain, k))
  {
    pairs := [];
    var current := 1;
    for k := 0 to |chain|
      invariant |pairs| == k
      invariant current == CurrentAfter(chain[..k])
      invariant forall i | 0 <= i < k :: pairs[i] == (chain[i], Id(chain, i))
    {
      IdOfPrefix(chain, k + 1, k);
      if k > 0 { IdOfPrefix(chain, k, k - 1); }
      if chain[k].own.Some? {
        current := chain[k].own.value;
      }
      pairs := pairs + [(chain[k], current)];
    }
  }

  lemma {:induction false} IdOfPrefix(chain: seq<Entry>, n: nat, k: nat)
    requires k < n <= |chain|
    ensures Id(chain[..n], k) == Id(chain, k)
  {
    if k > 0 && chain[k].own.None? {
      IdOfPrefix(chain, n, k - 1);
    }
  }

  // ------------------------------------------------------------ what is wanted

  predicate Dropped(chain: seq<Entry>, drop: Drop, k: nat)
    requires k < |chain|
  {
    (Id(chain, k), chain[k].cell) in drop
  }

  /** What a reader should see of the first n entries after the edit: the kept ones, unmoved. */
  function Kept(chain: seq<Entry>, drop: Drop, n: nat): seq<(int, string)>
    requires n <= |chain|
  {
    if n == 0 then []
    else if Dropped(chain, drop, n - 1) then Kept(chain, drop, n - 1)
    else Kept(chain, drop, n - 1) + [(Id(chain, n - 1), chain[n - 1].cell)]
  }

  /** The sheet of the last kept entry before n, 1 when there is none. */
  function LastKept(chain: seq<Entry>, drop: Drop, n: nat): int
    requires n <= |chain|
  {
    if n == 0 then 1
    else if Dropped(chain, drop, n - 1) then LastKept(chain, drop, n - 1)
    else Id(chain, n - 1)
  }

  // ------------------------------------------------------------- what is done

  /** The loop as written owes an id to entry k exactly when entry k-1 was dropped and
      carried its own id when it was read, that is, before any stamp. */
  predicate Owed(chain: seq<Entry>, drop: Drop, k: nat)
    requires k < |chain|
  {
    k > 0 && chain[k - 1].own.Some? && Dropped(chain, drop, k - 1)
  }

  function Stamped(chain: seq<Entry>, k: nat, owed: bool): Entry
    requires k < |chain| && (owed ==> k > 0)
  {
    if chain[k].own.None? && owed then Entry(Some(Id(chain, k - 1)), chain[k].cell) else chain[k]
  }

  function AsWritten(chain: seq<Entry>, drop: Drop, n: nat): seq<Entry>
    requires n <= |chain|
  {
    if n == 0 then []
    else if Dropped(chain, drop, n - 1) then AsWritten(chain, drop, n - 1)
    else AsWritten(chain, drop, n - 1) + [Stamped(chain, n - 1, Owed(chain, drop, n - 1))]
  }

  class Part {
    var root: seq<Entry>

    constructor (root: seq<Entry>)
      ensures this.root == root
    {
      this.root := root;
    }

    /** `_patch_calc_chain`: entries are stamped and removed in place while the resolved
        list, taken beforehand, is walked. */
    method PatchCalcChain(drop: Drop)
      modifies this
      ensures root == AsWritten(old(root), drop, |old(root)|)
    {
      ghost var chain := root;
      var entries := ChainEntries(root);
      var owed: Option<int> := None;
      var at := 0;
      for k := 0 to |entries|
        invariant 0 <= at <= |root|
        invariant root[..at] == AsWritten(chain, drop, k)
        invariant root[at..] == chain[k..]
        invariant k < |chain| ==> owed == if Owed(chain, drop, k) then Some(Id(chain, k - 1)) else None
      {
        var (entry, sheetId) := entries[k];
        var own := entry.own;
        assert root[at] == chain[k..][0];
        if own.None? && owed.Some? {
          root := root[at := Entry(owed, entry.cell)];
        }
        owed := None;
        assert root[at] == Stamped(chain, k, Owed(chain, drop, k));
        assert root[at + 1..] == chain[k..][1..] == chain[k + 1..];
        if (sheetId, entry.cell) in drop {
          if own.Some? {
            owed := Some(sheetId);
          }
          root := root[..at] + root[at + 1..];
        } else {
          assert root[..at + 1] == root[..at] + [root[at]];
          at := at + 1;
        }
      }
      assert root == root[..at] + root[at..];
    }
  }

  // ------------------------------------------------------ when it goes right

  /** Entry j keeps its sheet: it says so itself, or is stamped, or inherits the right one. */
  predicate Intact(chain: seq<Entry>, drop: Drop, j: nat)
    requires j < |chain|
  {
    || Dropped(chain, drop, j) || chain[j].own.Some? || Owed(chain, drop, j)
    || LastKept(chain, drop, j) == Id(chain, j)
  }

  lemma {:induction false} CurrentAfterAppend(chain: seq<Entry>, e: Entry)
    ensures Resolve(chain + [e])
         == Resolve(chain) + [(if e.own.Some? then e.own.value else CurrentAfter(chain), e.cell)]
    ensures CurrentAfter(chain + [e]) == if e.own.Some? then e.own.value else CurrentAfter(chain)
  {
    var longer := chain + [e];
    forall k | 0 <= k < |chain| ensures Id(longer, k) == Id(chain, k) {
      assert longer[..|chain|] == chain;
      IdOfPrefix(longer, |chain|, k);
    }
  }

  lemma StampedSheet(chain: seq<Entry>, k: nat, owed: bool)
    requires k < |chain| && (owed ==> k > 0)
    ensures Stamped(chain, k, owed).cell == chain[k].cell
    ensures Stamped(chain, k, owed).own.Some? <==> chain[k].own.Some? || owed
    ensures Stamped(chain, k, owed).own.Some? ==> Stamped(chain, k, owed).own.value == Id(chain, k)
  {
  }

  lemma {:induction false} AsWrittenResolves(chain: seq<Entry>, drop: Drop, n: nat)
    requires n <= |chain|
    ensures Resolve(AsWritten(chain, drop, n)) == Kept(chain, drop, n)
            <==> forall j: nat | j < n :: Intact(chain, drop, j)
    ensures (forall j: nat | j < n :: Intact(chain, drop, j)) ==>
              CurrentAfter(AsWritten(chain, drop, n)) == LastKept(chain, drop, n)
    ensures |AsWritten(chain, drop, n)| == |Kept(chain, drop, n)|
  {
    if n > 0 {
      var prior, k := AsWritten(chain, drop, n - 1), n - 1;
      AsWrittenResolves(chain, drop, k);
      var below := forall j: nat | j < k :: Intact(chain, drop, j);
      assert (forall j: nat | j < n :: Intact(chain, drop, j)) <==> below && Intact(chain, drop, k);
      if !Dropped(chain, drop, k) {
        var e := Stamped(chain, k, Owed(chain, drop, k));
        StampedSheet(chain, k, Owed(chain, drop, k));
        CurrentAfterAppend(prior, e);
        var seen := (if e.own.Some? then e.own.value else CurrentAfter(prior), e.cell);
        assert below ==> (seen.0 == Id(chain, k) <==> Intact(chain, drop, k));
        SameLast(Resolve(prior), Kept(chain, drop, k), seen, (Id(chain, k), chain[k].cell));
      }
    }
  }

  lemma SameLast<T>(a: seq<T>, b: seq<T>, x: T, y: T)
    requires |a| == |b|
    ensures a + [x] == b + [y] <==> a == b && x == y
  {
    if a + [x] == b + [y] {
      assert (a + [x])[..|a|] == a && (b + [y])[..|b|] == b;
      assert (a + [x])[|a|] == x && (b + [y])[|b|] == y;
    }
  }

  /** Head b carries its own id; b and at least the next entry are dropped, and everything
      up to the kept entry j; j and everything after b inherit; the last entry kept before b
      is on another sheet. */
  predicate LostDebt(chain: seq<Entry>, drop: Drop, b: nat, j: nat) {
    && b + 2 <= j < |chain|
    && chain[b].own.Some?
    && (forall k | b < k <= j :: chain[k].own.None?)
    && (forall k | b <= k < j :: Dropped(chain, drop, k))
    && !Dropped(chain, drop, j)
    && LastKept(chain, drop, b) != Id(chain, b)
  }

  lemma {:induction false} SameSheetAlong(chain: seq<Entry>, b: nat, j: nat)
    requires b <= j < |chain| && forall k | b < k <= j :: chain[k].own.None?
    ensures Id(chain, j) == Id(chain, b)
  {
    if b < j { SameSheetAlong(chain, b, j - 1); }
  }

  lemma {:induction false} LastKeptAcross(chain: seq<Entry>, drop: Drop, b: nat, j: nat)
    requires b <= j <= |chain| && forall k | b <= k < j :: Dropped(chain, drop, k)
    ensures LastKept(chain, drop, j) == LastKept(chain, drop, b)
  {
    if b < j { LastKeptAcross(chain, drop, b, j - 1); }
  }

  /** An entry that is not intact ends a run whose debt was lost. */
  lemma {:induction false} FindLostDebt(chain: seq<Entry>, drop: Drop, j: nat, n: nat) returns (b: nat)
    requires n <= j < |chain| && !Intact(chain, drop, j)
    requires forall k | n < k <= j :: chain[k].own.None?
    requires forall k | n <= k < j :: Dropped(chain, drop, k)
    requires n == j || (n + 1 == j ==> chain[n].own.None?)
    ensures LostDebt(chain, drop, b, j)
  {
    SameSheetAlong(chain, n, j);
    LastKeptAcross(chain, drop, n, j);
    if chain[n].own.Some? {
      b := n;
    } else if n == 0 {
      assert false;
    } else {
      assert Id(chain, n) == Id(chain, n - 1);
      b := FindLostDebt(chain, drop, j, n - 1);
    }
  }

  /** The exact condition: the edit as written leaves every surviving entry on its sheet if
      and only if no run of the chain loses its debt. */
  lemma EditKeepsSheets(chain: seq<Entry>, drop: Drop)
    ensures Resolve(AsWritten(chain, drop, |chain|)) == Kept(chain, drop, |chain|)
            <==> forall b: nat, j: nat | j < |chain| :: !LostDebt(chain, drop, b, j)
  {
    AsWrittenResolves(chain, drop, |chain|);
    if j: nat :| j < |chain| && !Intact(chain, drop, j) {
      var b := FindLostDebt(chain, drop, j, j);
    }
    forall b: nat, j: nat | j < |chain| && LostDebt(chain, drop, b, j)
      ensures !Intact(chain, drop, j)
    {
      SameSheetAlong(chain, b, j);
      LastKeptAcross(chain, drop, b, j);
    }
  }

  /** In particular when no dropped inheriting entry directly follows a dropped head. */
  lemma NoDroppedPairKeepsSheets(chain: seq<Entry>, drop: Drop)
    requires forall k: nat | k + 1 < |chain| && chain[k].own.Some? && chain[k + 1].own.None?
                             && Dropped(chain, drop, k) :: !Dropped(chain, drop, k + 1)
    ensures Resolve(AsWritten(chain, drop, |chain|)) == Kept(chain, drop, |chain|)
  {
    forall b: nat, j: nat | j < |chain| && b + 2 <= j ensures !LostDebt(chain, drop, b, j) {
      assert chain[b].own.Some? && chain[b + 1].own.None? && Dropped(chain, drop, b) ==>
               !Dropped(chain, drop, b + 1);
    }
    EditKeepsSheets(chain, drop);
  }

  /** Three cells of sheet 2, of which only the first names its sheet. */
  function Three(a: string, b: string, c: string): seq<Entry> { [Entry(Some(2), a), Entry(None, b), Entry(None, c)] }

  /** The failing family has members: with the first two overwritten the third goes to sheet 1. */
  lemma LostDebtMovesACell(a: string, b: string, c: string)
    requires c != a && c != b
    ensures var chain, drop: Drop := Three(a, b, c), {(2, a), (2, b)};
            && Kept(chain, drop, 3) == [(2, c)]
            && Resolve(AsWritten(chain, drop, 3)) == [(1, c)]
  {
    var chain, drop: Drop := Three(a, b, c), {(2, a), (2, b)};
    assert Id(chain, 0) == 2 && Id(chain, 1) == 2 && Id(chain, 2) == 2;
    assert Dropped(chain, drop, 0) && Dropped(chain, drop, 1) && !Dropped(chain, drop, 2);
    assert AsWritten(chain, drop, 1) == [] && AsWritten(chain, drop, 2) == [];
    assert AsWritten(chain, drop, 3) == [Entry(None, c)];
    assert Kept(chain, drop, 1) == [] && Kept(chain, drop, 2) == [];
  }

  // ------------------------------------------------------------- the repair

  /** Reading `own` after the stamp instead of before it: a debt survives dropped entries. */
  predicate StillOwed(chain: seq<Entry>, drop: Drop, k: nat)
    requires k < |chain|
  {
    k > 0 && Dropped(chain, drop, k - 1) && (chain[k - 1].own.Some? || StillOwed(chain, drop, k - 1))
  }

  function Repaired(chain: seq<Entry>, drop: Drop, n: nat): seq<Entry>
    requires n <= |chain|
  {
    if n == 0 then []
    else if Dropped(chain, drop, n - 1) then Repaired(chain, drop, n - 1)
    else Repaired(chain, drop, n - 1) + [Stamped(chain, n - 1, StillOwed(chain, drop, n - 1))]
  }

  lemma {:induction false} NothingOwed(chain: seq<Entry>, drop: Drop, k: nat)
    requires k < |chain| && chain[k].own.None? && !StillOwed(chain, drop, k)
    ensures LastKept(chain, drop, k) == Id(chain, k)
  {
    if k > 0 && Dropped(chain, drop, k - 1) {
      NothingOwed(chain, drop, k - 1);
    }
  }

  /** The repaired loop keeps every surviving entry on its sheet, always. */
  lemma {:induction false} RepairKeepsSheets(chain: seq<Entry>, drop: Drop, n: nat)
    requires n <= |chain|
    ensures Resolve(Repaired(chain, drop, n)) == Kept(chain, drop, n)
    ensures CurrentAfter(Repaired(chain, drop, n)) == LastKept(chain, drop, n)
  {
    if n > 0 {
      var prior, k := Repaired(chain, drop, n - 1), n - 1;
      RepairKeepsSheets(chain, drop, k);
      if !Dropped(chain, drop, k) {
        var owed := StillOwed(chain, drop, k);
        if chain[k].own.None? && !owed { NothingOwed(chain, drop, k); }
        StampedSheet(chain, k, owed);
        CurrentAfterAppend(prior, Stamped(chain, k, owed));
      }
    }
  }
}
