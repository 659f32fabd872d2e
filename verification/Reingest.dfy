/** Ingest over a whole store: the start of a run, a run repeated, and the runs that raise. */
module Reingest {
  import opened Ordered
  import opened Wrappers
  import opened Provenance
  import opened Ingest
  import opened IngestProof

  /** The cards of the store, in the order the loop first lists them. */
  predicate IsListing(store: Store, listing: seq<Card>) {
    && Increasing(listing, (c: Card) => c.id)
    && (forall c | c in listing :: c.id in store.cards && store.cards[c.id] == c)
    && (forall id | id in store.cards :: store.cards[id] in listing)
  }

  /** Every run starts sound. */
  lemma BeginIsSound(store: Store, listing: seq<Card>, owners: map<KbId, KbId>)
    requires Consistent(store) && IsListing(store, listing) && OwnersOf(store.records, owners)
    ensures Sound(store, Begin(listing, owners))
  {
    forall id | id in store.cards ensures id in Ids(listing) {
      assert store.cards[id] in listing;
    }
  }

  // ------------------------------------------------------------ a run repeated

  ghost predicate Quiet(store: Store, owners: map<KbId, KbId>, end: World, listing: seq<Card>) {
    && !end.raised && end.store.cards == store.cards && end.store.records.Keys == store.records.Keys
    && end.run.existing == listing && end.run.absorbed == owners
    && end.run.written == {} && end.run.deleted == {} && end.run.cardsWritten == []
  }

  /** Candidates the store remembers are recognised: nothing is minted, merged away or deleted. */
  lemma {:induction false} RememberedIsQuiet(store: Store, listing: seq<Card>, owners: map<KbId, KbId>, call: Call,
                                             n: nat)
    requires n <= |call.candidates| && Consistent(store) && OwnersOf(store.records, owners)
    requires forall c | c in call.candidates :: !c.drifted && Remembers(store, c.card.id)
    ensures Quiet(store, owners, Ingested(false, store, Begin(listing, owners), call, n), listing)
  {
    if n > 0 {
      RememberedIsQuiet(store, listing, owners, call, n - 1);
      QuietStep(store, listing, owners, Ingested(false, store, Begin(listing, owners), call, n - 1),
                call.candidates[n - 1], call);
    }
  }

  lemma QuietStep(store: Store, listing: seq<Card>, owners: map<KbId, KbId>, at: World, cand: Candidate, call: Call)
    requires Consistent(store) && OwnersOf(store.records, owners) && Quiet(store, owners, at, listing)
    requires !cand.drifted && Remembers(store, cand.card.id)
    ensures Quiet(store, owners, StepOf(false, at, cand, call), listing)
  {
    var id := cand.card.id;
    if !Exists(at.store, at.run, id) {
      assert id in owners && owners[id] in store.records;
      assert Decide(at.store, at.run, cand, call.overlap) == Again(owners[id]);
    }
  }

  /** Ingesting the same content again, after a run that returned, writes no card and never raises. */
  lemma ReingestWritesNoCard(store: Store, listing: seq<Card>, owners: map<KbId, KbId>, first: Call,
                             again: Call, listing': seq<Card>, owners': map<KbId, KbId>)
    requires Consistent(store) && IsListing(store, listing) && OwnersOf(store.records, owners)
    requires !Ingested(false, store, Begin(listing, owners), first, |first.candidates|).raised
    requires forall c | c in again.candidates ::
               !c.drifted && exists k | 0 <= k < |first.candidates| :: first.candidates[k].card.id == c.card.id
    requires OwnersOf(Ingested(false, store, Begin(listing, owners), first, |first.candidates|).store.records, owners')
    ensures var between := Ingested(false, store, Begin(listing, owners), first, |first.candidates|).store;
            Quiet(between, owners', Ingested(false, between, Begin(listing', owners'), again, |again.candidates|),
                listing')
  {
    var run, n := Begin(listing, owners), |first.candidates|;
    var between := Ingested(false, store, run, first, n).store;
    BeginIsSound(store, listing, owners);
    IngestConserves(store, run, first, n);
    forall c | c in again.candidates ensures Remembers(between, c.card.id) {
      var k :| 0 <= k < n && first.candidates[k].card.id == c.card.id;
      EveryCandidateAccounted(store, run, first, n, k);
    }
    RememberedIsQuiet(between, listing', owners', again, |again.candidates|);
  }

  // -------------------------------------------------------------- measurements

  /** The list's survivals are the store's. */
  predicate Tied(world: World) {
    forall c | c in world.run.existing :: c.id in world.store.cards && world.store.cards[c.id].survival == c.survival
  }

  ghost predicate Measured(existing: seq<Card>, survival: real) {
    exists c | c in existing :: c.survival == Some(survival)
  }

  lemma {:induction false} WithoutKeeps(existing: seq<Card>, id: KbId, c: Card)
    requires c in existing && c.id != id
    ensures c in Without(existing, id)
  {
    var front := existing[..|existing| - 1];
    assert existing == front + [existing[|existing| - 1]];
    if c in front { WithoutKeeps(front, id, c); }
  }

  lemma ReplaceKeepsMeasure(existing: seq<Card>, top: Card, card: Card, survival: real)
    requires Distinct(existing) && top in existing && card.survival.None? && Measured(existing, survival)
    ensures Measured(Without(existing, top.id) + [Carried(card, top)], survival)
  {
    var c :| c in existing && c.survival == Some(survival);
    if c.id == top.id {
      assert c == top;
      assert Carried(card, top) in Without(existing, top.id) + [Carried(card, top)];
    } else {
      WithoutKeeps(existing, top.id, c);
      assert c in Without(existing, top.id) + [Carried(card, top)];
    }
  }

  predicate Fresh(cand: Candidate) { !cand.drifted && cand.card.survival.None? }

  /** A measured survival is on a card of the list after any step over a fresh candidate. */
  lemma StepKeepsMeasure(world: World, cand: Candidate, call: Call, survival: real)
    requires Sound(world.store, world.run) && Fresh(cand) && Measured(world.run.existing, survival)
    ensures Measured(StepOf(false, world, cand, call).run.existing, survival)
  {
    var move := Decide(world.store, world.run, cand, call.overlap);
    MergePartnerIsLive(world.store, world.run, cand, call.overlap);
    match move
    case Replace(top, card, _) => ReplaceKeepsMeasure(world.run.existing, top, cand.card, survival);
    case Mint =>
      var c :| c in world.run.existing && c.survival == Some(survival);
      assert c in world.run.existing + [cand.card];
    case _ =>
  }

  lemma ReplaceKeepsTied(world: World, top: Card, card: Card, given: Contribution, next: Run)
    requires Listed(world.store, world.run) && Tied(world)
    requires card.id !in world.store.cards && top.id in world.store.cards
    requires next.existing == Without(world.run.existing, top.id) + [card]
    ensures Tied(World(Replaced(world.store, top.id, card, given).store, next, false))
  {
    ReplacedConserves(world.store, top.id, card, given);
    var after := Replaced(world.store, top.id, card, given).store;
    WithoutMeans(world.run.existing, top.id);
    forall c | c in next.existing ensures c.id in after.cards && after.cards[c.id].survival == c.survival {
      if c in Without(world.run.existing, top.id) {
        assert c.id in Ids(Without(world.run.existing, top.id));
      }
    }
  }

  lemma StepKeepsTied(world: World, cand: Candidate, call: Call)
    requires Sound(world.store, world.run) && Fresh(cand) && Tied(world)
    ensures Tied(StepOf(false, world, cand, call))
  {
    var move := Decide(world.store, world.run, cand, call.overlap);
    MergePartnerIsLive(world.store, world.run, cand, call.overlap);
    match move
    case Replace(top, card, _) =>
      NotExistsIsNotLive(world.store, world.run, cand.card.id);
      ReplaceKeepsTied(world, top, card, call.given, Next(world.run, cand, move));
    case Mint => NotExistsIsNotLive(world.store, world.run, cand.card.id);
    case _ =>
  }

  /** No measurement is discarded: a survival some card carries is carried by a live card at the end. */
  lemma {:induction false} MeasurementsKept(store: Store, run: Run, call: Call, n: nat, survival: real)
    requires n <= |call.candidates| && Sound(store, run) && Tied(World(store, run, false))
    requires forall c | c in call.candidates :: Fresh(c)
    requires Measured(run.existing, survival)
    requires !Ingested(false, store, run, call, n).raised
    ensures Tied(Ingested(false, store, run, call, n))
        && Measured(Ingested(false, store, run, call, n).run.existing, survival)
    ensures exists id | id in Ingested(false, store, run, call, n).store.cards ::
      Ingested(false, store, run, call, n).store.cards[id].survival == Some(survival)
  {
    var end := Ingested(false, store, run, call, n);
    if n > 0 {
      var before := Ingested(false, store, run, call, n - 1);
      MeasurementsKept(store, run, call, n - 1, survival);
      IngestConserves(store, run, call, n - 1);
      StepKeepsMeasure(before, call.candidates[n - 1], call, survival);
      StepKeepsTied(before, call.candidates[n - 1], call);
    }
    var c :| c in end.run.existing && c.survival == Some(survival);
    assert end.store.cards[c.id].survival == Some(survival);
  }

  // ------------------------------------------------------------ runs that raise

  const P0 := Source("p", "c", "d")

  /** One document's cards: its own text each, and the document's one outcome. */
  function Held(id: KbId, text: string): Card { Card(id, None, 0, text) }

  function One(): Card { Held(1, "one") }

  function Two(): Card { Held(2, "two") }

  function Three(): Card { Held(3, "three") }

  /** Every pair of texts is a near duplicate, neither containing the other. */
  function Close(query: string, text: string, existing: seq<Card>): real { 0.6 }

  function Corner(): Call {
    Call([Candidate(Two(), false), Candidate(One(), false), Candidate(Three(), false)], Contribution(P0, map[]), Close,
         (c: Card) => true)
  }

  function CornerStore(): Store { Store(map[3 := Three()], map[3 := Record([P0], map[], {})]) }

  lemma SwapKeys(store: Store, top: KbId, card: Card, given: Contribution)
    requires Consistent(store) && top in store.cards && card.id !in store.cards
    ensures var did := Replaced(store, top, card, given);
            !did.raised && Consistent(did.store) && did.store.cards.Keys == store.cards.Keys + {card.id} - {top}
  {
    ReplacedConserves(store, top, card, given);
  }

  lemma FirstSwap()
    ensures var one := Ingested(false, CornerStore(), Begin([Three()], map[]), Corner(), 1);
            !one.raised && Consistent(one.store) && one.store.cards.Keys == {2}
            && one.run == Run([Two()], map[3 := 2], {2}, {3}, [], [Scored(2, 3, 0.6, true)], [2])
  {
    var store, run, call := CornerStore(), Begin([Three()], map[]), Corner();
    assert Decide(store, run, call.candidates[0], Close) == Replace(Three(), Two(), 0.6);
    SwapTurn(World(store, run, false), call.candidates[0], call, Three(), 0.6);
  }

  /** One turn that swaps a card for the candidate. */
  lemma SwapTurn(at: World, cand: Candidate, call: Call, top: Card, score: real)
    requires !at.raised && Consistent(at.store) && top.id in at.store.cards && cand.card.id !in at.store.cards
    requires Decide(at.store, at.run, cand, call.overlap) == Replace(top, cand.card, score) && call.fits(cand.card)
    ensures var after := Onward(false, at, cand, call);
            && !after.raised && Consistent(after.store)
            && after.store.cards.Keys == at.store.cards.Keys + {cand.card.id} - {top.id}
            && after.run == Next(at.run, cand, Replace(top, cand.card, score))
  {
    SwapKeys(at.store, top.id, cand.card, call.given);
  }

  lemma WithoutOne(card: Card)
    ensures Without([card], card.id) == []
  {
    assert [card][..0] == [];
  }

  lemma SecondNext()
    ensures Next(Run([Two()], map[3 := 2], {2}, {3}, [], [Scored(2, 3, 0.6, true)], [2]), Candidate(One(), false),
                 Replace(Two(), One(), 0.6))
         == Run([One()], map[3 := 2, 2 := 1], {2, 1}, {3, 2}, [],
                [Scored(2, 3, 0.6, true), Scored(1, 2, 0.6, true)], [2, 1])
  {
    WithoutOne(Two());
  }

  lemma SecondDecision()
    ensures var one := Ingested(false, CornerStore(), Begin([Three()], map[]), Corner(), 1);
            Decide(one.store, one.run, Corner().candidates[1], Close) == Replace(Two(), One(), 0.6)
  {
    FirstSwap();
  }

  lemma SecondSwap()
    ensures var two := Ingested(false, CornerStore(), Begin([Three()], map[]), Corner(), 2);
            !two.raised && Consistent(two.store) && two.store.cards.Keys == {1}
            && two.run == Run([One()], map[3 := 2, 2 := 1], {2, 1}, {3, 2}, [],
                              [Scored(2, 3, 0.6, true), Scored(1, 2, 0.6, true)], [2, 1])
  {
    FirstSwap();
    SecondDecision();
    var one, call := Ingested(false, CornerStore(), Begin([Three()], map[]), Corner(), 1), Corner();
    SecondNext();
    SwapTurn(one, call.candidates[1], call, Two(), 0.6);
  }

  /** Card 2 absorbs the live card 3 and is absorbed by card 1; then the content of card 3 comes
      again.  Its remembered owner is card 2, which the run still counts as written: the dry run
      reports a merge, the real run raises on the dead record. */
  lemma StaleOwnerRaises()
    ensures Consistent(CornerStore()) && IsListing(CornerStore(), [Three()])
    ensures Ingested(false, CornerStore(), Begin([Three()], map[]), Corner(), 3).raised
    ensures Ingested(true, CornerStore(), Begin([Three()], map[]), Corner(), 3).run.merged
         == [Scored(2, 3, 0.6, true), Scored(1, 2, 0.6, true), Prior(2, 3)]
  {
    var store, run, call := CornerStore(), Begin([Three()], map[]), Corner();
    var two := Ingested(false, store, run, call, 2);
    SecondSwap();
    assert Decide(two.store, two.run, call.candidates[2], Close) == Again(2);
    DryRunIsRealReport(store, run, call, 2);
    SameDecision(store, two.store, two.run, call.candidates[2], Close);
  }

  /** The dry run validates nothing: one candidate the schema refuses is reported as written, and
      the real run raises on it. */
  lemma UnfitCandidateRaises(store: Store, owners: map<KbId, KbId>, call: Call)
    requires store.cards == map[] && owners == map[] && |call.candidates| == 1
    requires !call.candidates[0].drifted && !call.fits(call.candidates[0].card)
    ensures Ingested(true, store, Begin([], owners), call, 1).run.cardsWritten == [call.candidates[0].card.id]
    ensures Ingested(false, store, Begin([], owners), call, 1) == World(store, Begin([], owners), true)
  {
    var run := Begin([], owners);
    assert Ingested(true, store, run, call, 0) == World(store, run, false);
    assert Ingested(false, store, run, call, 0) == World(store, run, false);
    assert Decide(store, run, call.candidates[0], call.overlap) == Mint;
  }
}
