/** The dry run is the real run's report; what a real run keeps; when a real run raises. */
module IngestProof {
  import opened Wrappers
  import opened Provenance
  import opened Ingest

  // ---------------------------------------------------------------- simulation

  /** The two stores answer the loop's existence question alike: outside what the run minted
      or deleted they hold the same cards. */
  ghost predicate SameAnswers(a: Store, b: Store, run: Run) {
    forall id | id !in run.written && id !in run.deleted :: id in a.cards <==> id in b.cards
  }

  lemma SameDecision(a: Store, b: Store, run: Run, cand: Candidate, overlap: Overlap)
    requires SameAnswers(a, b, run)
    ensures Decide(a, run, cand, overlap) == Decide(b, run, cand, overlap)
  {
    assert forall id :: Exists(a, run, id) == Exists(b, run, id);
  }

  lemma PerformKeepsAnswers(store: Store, run: Run, cand: Candidate, call: Call)
    requires !Tried(store, cand, Decide(store, run, cand, call.overlap), call).raised
    ensures var move := Decide(store, run, cand, call.overlap);
            SameAnswers(store, Tried(store, cand, move, call).store, Next(run, cand, move))
  {
  }

  /** Whenever the real run returns, the dry run from the same store gives the same report. */
  lemma {:induction false} DryRunIsRealReport(store: Store, run: Run, call: Call, n: nat)
    requires n <= |call.candidates|
    requires !Ingested(false, store, run, call, n).raised
    ensures Ingested(true, store, run, call, n) == World(store, Ingested(false, store, run, call, n).run, false)
    ensures SameAnswers(store, Ingested(false, store, run, call, n).store, Ingested(false, store, run, call, n).run)
  {
    if n > 0 {
      var before := Ingested(false, store, run, call, n - 1);
      var cand := call.candidates[n - 1];
      DryRunIsRealReport(store, run, call, n - 1);
      SameDecision(store, before.store, before.run, cand, call.overlap);
      PerformKeepsAnswers(before.store, before.run, cand, call);
    }
  }

  // ------------------------------------------------------ what a real run keeps

  function Ids(existing: seq<Card>): (ids: set<KbId>) { set c | c in existing :: c.id }

  predicate Distinct(existing: seq<Card>) {
    forall i, j | 0 <= i < j < |existing| :: existing[i].id != existing[j].id
  }

  lemma {:induction false} WithoutMeans(existing: seq<Card>, id: KbId)
    requires Distinct(existing)
    ensures Distinct(Without(existing, id)) && Ids(Without(existing, id)) == Ids(existing) - {id}
    ensures forall c | c in Without(existing, id) :: c in existing
  {
    if existing != [] {
      var front, last := existing[..|existing| - 1], existing[|existing| - 1];
      assert existing == front + [last];
      WithoutMeans(front, id);
      IdsOfPush(front, last);
      IdsOfPush(Without(front, id), last);
      assert last.id !in Ids(front);
    }
  }

  lemma IdsOfPush(existing: seq<Card>, card: Card)
    ensures Ids(existing + [card]) == Ids(existing) + {card.id}
  {
    forall id | id in Ids(existing) + {card.id} ensures id in Ids(existing + [card]) {
      if id == card.id { assert card in existing + [card]; }
      else {
        var c :| c in existing && c.id == id;
        assert c in existing + [card];
      }
    }
  }

  lemma DistinctPush(existing: seq<Card>, card: Card)
    requires Distinct(existing) && card.id !in Ids(existing)
    ensures Distinct(existing + [card])
  {
    assert forall c | c in existing :: c.id in Ids(existing);
  }

  /** The loop's list names exactly the live cards, each with its record. */
  predicate Listed(store: Store, run: Run) {
    && Consistent(store)
    && Distinct(run.existing)
    && Ids(run.existing) == store.cards.Keys
    && forall id | id in run.deleted && id in store.cards :: id in run.written
  }

  /** Every id the run handled is still remembered by the store. */
  ghost predicate InMemory(store: Store, run: Run) {
    forall id | id in run.written + run.deleted + run.absorbed.Keys :: Remembers(store, id)
  }

  ghost predicate Sound(store: Store, run: Run) { Listed(store, run) && InMemory(store, run) }

  /** The record a decision appends to, which the decision did not itself see alive. */
  function Target(cand: Candidate, move: Move): Option<KbId> {
    match move
    case Home => Some(cand.card.id)
    case Again(owner) => Some(owner)
    case _ => None
  }

  /** A caller can read this off the dry run: what the next decision appends to is in the list. */
  predicate LandsLive(world: World, cand: Candidate, overlap: Overlap) {
    var target := Target(cand, Decide(world.store, world.run, cand, overlap));
    target.Some? ==> target.value in Ids(world.run.existing)
  }

  lemma NotExistsIsNotLive(store: Store, run: Run, id: KbId)
    requires Sound(store, run) && !Exists(store, run, id)
    ensures id !in store.cards && id !in store.records
  {
  }

  /** A merge partner is a live card, and never the candidate's own id. */
  lemma MergePartnerIsLive(store: Store, run: Run, cand: Candidate, overlap: Overlap)
    requires Sound(store, run)
    ensures var move := Decide(store, run, cand, overlap);
            move.Replace? || move.Fold? ==>
              move.top in run.existing && move.top.id in store.cards && move.top.id != cand.card.id
  {
    var move := Decide(store, run, cand, overlap);
    if move.Replace? || move.Fold? {
      NotExistsIsNotLive(store, run, cand.card.id);
      assert move.top in run.existing;
      assert move.top.id in Ids(run.existing);
    }
  }

  lemma MemoryKept(before: Store, after: Store, run: Run)
    requires InMemory(before, run) && Conserves(before, after)
    ensures InMemory(after, run)
  {
  }

  lemma MemoryGrows(store: Store, run: Run, next: Run, id: KbId, other: KbId)
    requires InMemory(store, run) && Remembers(store, id) && Remembers(store, other)
    requires next.written <= run.written + {id} && next.deleted <= run.deleted + {other}
    requires next.absorbed.Keys <= run.absorbed.Keys + {id, other}
    ensures InMemory(store, next)
  {
  }

  lemma SoundAppended(store: Store, run: Run, id: KbId, given: Contribution, absorbed: Option<KbId>)
    requires Sound(store, run)
    ensures var did := Appended(store, id, given, absorbed);
            && (did.raised <==> id !in store.cards) && Conserves(store, did.store)
            && Sound(did.store, run)
            && (!did.raised ==> HoldsSource(did.store, given.source))
            && (!did.raised && absorbed.Some? ==> Remembers(did.store, absorbed.value))
  {
    if id in store.cards {
      AppendConserves(store, id, given.source, given.identifiers, absorbed);
      MemoryKept(store, Appended(store, id, given, absorbed).store, run);
    }
  }

  lemma SoundRehomed(store: Store, run: Run, card: Card, given: Contribution)
    requires Sound(store, run)
    ensures var did := Rehomed(store, card, given);
            && (did.raised <==> card.id !in store.cards) && Conserves(store, did.store)
            && Sound(did.store, run)
            && (!did.raised ==> HoldsSource(did.store, given.source) && card.id in did.store.cards)
  {
    if card.id in store.cards {
      RewriteConserves(store, card);
      var rewritten := RewriteCard(store, card).value;
      MemoryKept(store, rewritten, run);
      SoundAppended(rewritten, run, card.id, given, None);
      ConservesTransitive(store, rewritten, Rehomed(store, card, given).store);
    }
  }

  lemma MintConserves(store: Store, card: Card, given: Contribution)
    requires Consistent(store) && card.id !in store.cards
    ensures var minted := Minted(store, card, given);
            Conserves(store, minted) && HoldsSource(minted, given.source) && Consistent(minted)
            && minted.cards.Keys == store.cards.Keys + {card.id}
  {
    WriteConserves(store, card, given.source, given.identifiers, {});
  }

  /** The swap of a new card for a live one keeps everything the old one's record held. */
  lemma ReplacedConserves(store: Store, top: KbId, card: Card, given: Contribution)
    requires Consistent(store) && top in store.cards && card.id !in store.cards
    ensures var did := Replaced(store, top, card, given);
            && !did.raised && Conserves(store, did.store) && HoldsSource(did.store, given.source)
            && Consistent(did.store) && did.store.cards.Keys == store.cards.Keys + {card.id} - {top}
  {
    MintConserves(store, card, given);
    var minted := Minted(store, card, given);
    var merged := MergeInto(minted, top, card.id).value;
    MergeConserves(minted, top, card.id);
    var after := DeleteCard(merged, top).value;
    SameRecordsConserve(merged, after);
    ConservesTransitive(store, minted, merged);
    ConservesTransitive(store, merged, after);
    assert HoldsSource(merged, given.source);
  }

  lemma ListedAfterReplace(store: Store, run: Run, after: Store, next: Run, top: KbId, card: Card)
    requires Listed(store, run) && Consistent(after) && card.id !in store.cards && top in store.cards
    requires after.cards.Keys == store.cards.Keys + {card.id} - {top}
    requires next.existing == Without(run.existing, top) + [card]
    requires next.written == run.written + {card.id} && next.deleted == run.deleted + {top}
    ensures Listed(after, next)
  {
    WithoutMeans(run.existing, top);
    IdsOfPush(Without(run.existing, top), card);
    DistinctPush(Without(run.existing, top), card);
  }

  lemma SoundReplace(store: Store, run: Run, cand: Candidate, move: Move, given: Contribution)
    requires Sound(store, run) && move.Replace? && move.card.id == cand.card.id
    requires move.top.id in store.cards && cand.card.id !in store.cards
    ensures var did := Perform(store, cand, move, given);
            && !did.raised && Conserves(store, did.store) && HoldsSource(did.store, given.source)
            && Sound(did.store, Next(run, cand, move)) && cand.card.id in did.store.cards
  {
    var did, next := Replaced(store, move.top.id, move.card, given), Next(run, cand, move);
    ReplacedConserves(store, move.top.id, move.card, given);
    ListedAfterReplace(store, run, did.store, next, move.top.id, move.card);
    MemoryKept(store, did.store, run);
    assert Remembers(store, move.top.id);
    MemoryGrows(did.store, run, next, cand.card.id, move.top.id);
  }

  lemma ListedAfterMint(store: Store, run: Run, after: Store, next: Run, card: Card)
    requires Listed(store, run) && Consistent(after) && card.id !in store.cards
    requires after.cards.Keys == store.cards.Keys + {card.id}
    requires next.existing == run.existing + [card]
    requires next.written == run.written + {card.id} && next.deleted == run.deleted
    ensures Listed(after, next)
  {
    IdsOfPush(run.existing, card);
    DistinctPush(run.existing, card);
  }

  lemma SoundMint(store: Store, run: Run, cand: Candidate, given: Contribution)
    requires Sound(store, run) && cand.card.id !in store.cards
    ensures var did := Perform(store, cand, Mint, given);
            && !did.raised && Conserves(store, did.store) && HoldsSource(did.store, given.source)
            && Sound(did.store, Next(run, cand, Mint)) && cand.card.id in did.store.cards
  {
    var after, next := Minted(store, cand.card, given), Next(run, cand, Mint);
    MintConserves(store, cand.card, given);
    ListedAfterMint(store, run, after, next, cand.card);
    MemoryKept(store, after, run);
    MemoryGrows(after, run, next, cand.card.id, cand.card.id);
  }

  /** The next decision goes through: what it writes validates, what it appends to is live. */
  predicate Lands(world: World, cand: Candidate, call: Call) {
    Fitting(cand, Decide(world.store, world.run, cand, call.overlap), call.fits) && LandsLive(world, cand, call.overlap)
  }

  /** One decision: it raises exactly when its card does not validate or its target is dead, and
      either way nothing is lost. */
  lemma SoundStep(store: Store, run: Run, cand: Candidate, call: Call)
    requires Sound(store, run)
    ensures var move := Decide(store, run, cand, call.overlap);
            var did := Tried(store, cand, move, call);
            && (did.raised <==> !Lands(World(store, run, false), cand, call))
            && Conserves(store, did.store)
            && (!did.raised ==> Sound(did.store, Next(run, cand, move)))
            && (!did.raised ==> Remembers(did.store, cand.card.id))
            && (!did.raised && !move.Skip? ==> HoldsSource(did.store, call.given.source))
  {
    var move := Decide(store, run, cand, call.overlap);
    if Fitting(cand, move, call.fits) {
      SoundPerform(store, run, cand, call);
    } else {
      SameRecordsConserve(store, store);
    }
  }

  lemma SoundPerform(store: Store, run: Run, cand: Candidate, call: Call)
    requires Sound(store, run)
    ensures var move := Decide(store, run, cand, call.overlap);
            var did := Perform(store, cand, move, call.given);
            && (did.raised <==> !LandsLive(World(store, run, false), cand, call.overlap))
            && Conserves(store, did.store)
            && (!did.raised ==> Sound(did.store, Next(run, cand, move)))
            && (!did.raised ==> Remembers(did.store, cand.card.id))
            && (!did.raised && !move.Skip? ==> HoldsSource(did.store, call.given.source))
  {
    var move := Decide(store, run, cand, call.overlap);
    var did := Perform(store, cand, move, call.given);
    MergePartnerIsLive(store, run, cand, call.overlap);
    match move
    case Home => SoundRehomed(store, run, cand.card, call.given);
    case Skip => SameRecordsConserve(store, store);
    case Again(owner) =>
      SoundAppended(store, run, owner, call.given, None);
      assert Remembers(store, cand.card.id);
    case Replace(_, _, _) =>
      NotExistsIsNotLive(store, run, cand.card.id);
      SoundReplace(store, run, cand, move, call.given);
    case Fold(top, _) => SoundAppended(store, run, top.id, call.given, Some(cand.card.id));
    case Mint =>
      NotExistsIsNotLive(store, run, cand.card.id);
      SoundMint(store, run, cand, call.given);
  }

  /** A run over any candidates keeps every source, identifier and id the store ever held, also
      when it raises; while it has not raised, its list names exactly the live cards. */
  lemma {:induction false} IngestConserves(store: Store, run: Run, call: Call, n: nat)
    requires n <= |call.candidates| && Sound(store, run)
    ensures var end := Ingested(false, store, run, call, n);
            Conserves(store, end.store) && (!end.raised ==> Sound(end.store, end.run))
  {
    if n == 0 {
      SameRecordsConserve(store, store);
    } else {
      IngestConserves(store, run, call, n - 1);
      var before := Ingested(false, store, run, call, n - 1);
      if !before.raised {
        SoundStep(before.store, before.run, call.candidates[n - 1], call);
        ConservesTransitive(store, before.store, Ingested(false, store, run, call, n).store);
      }
    }
  }

  /** Every card the dry run would write validates, and every append of it lands on a card that its
      own list still names. */
  predicate AllLand(store: Store, run: Run, call: Call, n: nat)
    requires n <= |call.candidates|
  {
    n == 0 || (AllLand(store, run, call, n - 1)
               && Lands(Ingested(true, store, run, call, n - 1), call.candidates[n - 1], call))
  }

  /** The real run returns exactly when the dry run writes no card that fails its schema and never
      appends to a dead card. */
  lemma {:induction false} RealRunReturnsIff(store: Store, run: Run, call: Call, n: nat)
    requires n <= |call.candidates| && Sound(store, run)
    ensures !Ingested(false, store, run, call, n).raised <==> AllLand(store, run, call, n)
  {
    if n > 0 {
      RealRunReturnsIff(store, run, call, n - 1);
      var before := Ingested(false, store, run, call, n - 1);
      if !before.raised {
        var cand := call.candidates[n - 1];
        DryRunIsRealReport(store, run, call, n - 1);
        IngestConserves(store, run, call, n - 1);
        SameDecision(store, before.store, before.run, cand, call.overlap);
        SoundStep(before.store, before.run, cand, call);
      }
    }
  }

  /** What one processed candidate leaves: its id remembered and, unless skipped, its source held. */
  ghost predicate Accounted(store: Store, cand: Candidate, move: Move, given: Contribution) {
    Remembers(store, cand.card.id) && (move.Skip? || HoldsSource(store, given.source))
  }

  function MoveAt(store: Store, run: Run, call: Call, k: nat): Move
    requires k < |call.candidates|
  {
    var at := Ingested(false, store, run, call, k);
    Decide(at.store, at.run, call.candidates[k], call.overlap)
  }

  lemma JustAfter(store: Store, run: Run, call: Call, k: nat)
    requires k < |call.candidates| && Sound(store, run)
    requires !Ingested(false, store, run, call, k + 1).raised
    ensures Accounted(Ingested(false, store, run, call, k + 1).store, call.candidates[k],
                      MoveAt(store, run, call, k), call.given)
  {
    var at := Ingested(false, store, run, call, k);
    IngestConserves(store, run, call, k);
    SoundStep(at.store, at.run, call.candidates[k], call);
  }

  lemma StillAccounted(a: Store, b: Store, cand: Candidate, move: Move, given: Contribution)
    requires Conserves(a, b) && Accounted(a, cand, move, given)
    ensures Accounted(b, cand, move, given)
  {
  }

  /** Every candidate of a run that returns is remembered, and each one not skipped left its source. */
  lemma {:induction false} EveryCandidateAccounted(store: Store, run: Run, call: Call, n: nat, k: nat)
    requires k < n <= |call.candidates| && Sound(store, run)
    requires !Ingested(false, store, run, call, n).raised
    ensures Accounted(Ingested(false, store, run, call, n).store, call.candidates[k],
                      MoveAt(store, run, call, k), call.given)
  {
    if k == n - 1 {
      JustAfter(store, run, call, k);
    } else {
      EveryCandidateAccounted(store, run, call, n - 1, k);
      LastStepConserves(store, run, call, n);
      StillAccounted(Ingested(false, store, run, call, n - 1).store, Ingested(false, store, run, call, n).store,
                     call.candidates[k], MoveAt(store, run, call, k), call.given);
    }
  }

  lemma LastStepConserves(store: Store, run: Run, call: Call, n: nat)
    requires 0 < n <= |call.candidates| && Sound(store, run)
    requires !Ingested(false, store, run, call, n).raised
    ensures Conserves(Ingested(false, store, run, call, n - 1).store, Ingested(false, store, run, call, n).store)
  {
    var before := Ingested(false, store, run, call, n - 1);
    IngestConserves(store, run, call, n - 1);
    SoundStep(before.store, before.run, call.candidates[n - 1], call);
  }
}
