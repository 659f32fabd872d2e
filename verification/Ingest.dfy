/**
  The dedup-merge loop of an ingest (engine/kb/ingest.py, steps 6 to 7): one control flow, run
  over a writer that reaches the store or over a dry one that reaches nothing.
 */
module Ingest {
  import opened Wrappers
  import opened Provenance

  const DEDUP_FLOOR: real := 0.5

  /** `drifted`: reconciliation gave the candidate the id of the prior card it replaces. */
  datatype Candidate = Candidate(card: Card, drifted: bool)

  /** What every write of one call carries. */
  datatype Contribution = Contribution(source: Source, identifiers: map<string, string>)

  /** The score of a query text against a card text, weighted over the existing cards. */
  type Overlap = (string, string, seq<Card>) -> real

  /** `fits` is the schema a card is validated against when it is written, with this contribution. */
  datatype Call = Call(candidates: seq<Candidate>, given: Contribution, overlap: Overlap, fits: Card -> bool)

  datatype Merged =
    | Prior(survivor: KbId, absorbed: KbId)
    | Scored(survivor: KbId, absorbed: KbId, score: real, keptNew: bool)

  /** The loop's local variables; the last three are the report. */
  datatype Run = Run(
    existing: seq<Card>,
    absorbed: map<KbId, KbId>,
    written: set<KbId>,
    deleted: set<KbId>,
    skipped: seq<KbId>,
    merged: seq<Merged>,
    cardsWritten: seq<KbId>)

  function Begin(listing: seq<Card>, absorbed: map<KbId, KbId>): Run {
    Run(listing, absorbed, {}, {}, [], [], [])
  }

  // -------------------------------------------------------------- the decisions

  predicate Exists(store: Store, run: Run, id: KbId) {
    (id in store.cards && id !in run.deleted) || id in run.written
  }

  /** The survivor rule: measured before unmeasured, higher survival, better outcome, lower id. */
  predicate Outranks(a: Card, b: Card) {
    if a.survival.Some? != b.survival.Some? then a.survival.Some?
    else if a.survival.Some? && a.survival.value != b.survival.value then a.survival.value > b.survival.value
    else if a.outcome != b.outcome then a.outcome < b.outcome
    else a.id < b.id
  }

  lemma OutranksIsStrictOrder(a: Card, b: Card, c: Card)
    ensures !Outranks(a, a)
    ensures a.id != b.id ==> Outranks(a, b) != Outranks(b, a)
    ensures Outranks(a, b) && Outranks(b, c) ==> Outranks(a, c)
  {
  }

  predicate Before(existing: seq<Card>, query: string, overlap: Overlap, i: nat, j: nat)
    requires i < |existing| && j < |existing|
  {
    var si, sj := overlap(query, existing[i].content, existing), overlap(query, existing[j].content, existing);
    si > sj || (si == sj && existing[i].id < existing[j].id)
  }

  /** The head of the list sorted by falling score, then id. */
  function Top(existing: seq<Card>, query: string, overlap: Overlap, n: nat): (i: nat)
    requires 0 < n <= |existing|
    ensures i < n
  {
    if n == 1 then 0
    else
      var i := Top(existing, query, overlap, n - 1);
      if Before(existing, query, overlap, n - 1, i) then n - 1 else i
  }

  lemma {:induction false} TopIsFirst(existing: seq<Card>, query: string, overlap: Overlap, n: nat)
    requires 0 < n <= |existing|
    ensures forall j: nat | j < n :: !Before(existing, query, overlap, j, Top(existing, query, overlap, n))
  {
    if n > 1 {
      TopIsFirst(existing, query, overlap, n - 1);
      var i := Top(existing, query, overlap, n - 1);
      forall j: nat | j < n ensures !Before(existing, query, overlap, j, Top(existing, query, overlap, n)) {
        assert j < n - 1 ==> !Before(existing, query, overlap, j, i);
      }
    }
  }

  datatype Move =
    | Home
    | Skip
    | Again(owner: KbId)
    | Replace(top: Card, card: Card, score: real)
    | Fold(top: Card, score: real)
    | Mint

  /** A container outlives its fragment; otherwise the survivor rule decides. */
  predicate CandidateSurvives(card: Card, top: Card, score: real, reverse: real) {
    if score >= 1.0 && reverse < 1.0 then false
    else if reverse >= 1.0 && score < 1.0 then true
    else Outranks(card, top)
  }

  function Carried(card: Card, top: Card): Card {
    if card.survival.None? && top.survival.Some? then card.(survival := top.survival) else card
  }

  function Match(existing: seq<Card>, card: Card, overlap: Overlap): Move {
    if existing == [] then Mint
    else
      var top := existing[Top(existing, card.content, overlap, |existing|)];
      var score := overlap(card.content, top.content, existing);
      if score < DEDUP_FLOOR then Mint
      else if CandidateSurvives(card, top, score, overlap(top.content, card.content, existing))
      then Replace(top, Carried(card, top), score)
      else Fold(top, score)
  }

  function Decide(store: Store, run: Run, cand: Candidate, overlap: Overlap): Move {
    var id := cand.card.id;
    if cand.drifted then Home
    else if Exists(store, run, id) then Skip
    else if id in run.absorbed && Exists(store, run, run.absorbed[id]) then Again(run.absorbed[id])
    else Match(run.existing, cand.card, overlap)
  }

  // ------------------------------------------------------- what a decision does

  function Without(existing: seq<Card>, id: KbId): seq<Card> {
    if existing == [] then []
    else
      var rest := Without(existing[..|existing| - 1], id);
      if existing[|existing| - 1].id == id then rest else rest + [existing[|existing| - 1]]
  }

  function Next(run: Run, cand: Candidate, move: Move): Run {
    var id := cand.card.id;
    match move
    case Home => run
    case Skip => run.(skipped := run.skipped + [id])
    case Again(owner) => run.(merged := run.merged + [Prior(owner, id)])
    case Replace(top, card, score) => Run(
      Without(run.existing, top.id) + [card],
      run.absorbed[top.id := id],
      run.written + {id},
      run.deleted + {top.id},
      run.skipped,
      run.merged + [Scored(id, top.id, score, true)],
      run.cardsWritten + [id])
    case Fold(top, score) => run.(
      absorbed := run.absorbed[id := top.id],
      merged := run.merged + [Scored(top.id, id, score, false)])
    case Mint => run.(
      existing := run.existing + [cand.card],
      written := run.written + {id},
      cardsWritten := run.cardsWritten + [id])
  }

  /** The store after a decision's writes, or where the first refusal left it. */
  datatype Performed = Performed(store: Store, raised: bool)

  function Reached(at: Store, result: Result<Store, string>): Performed {
    match result
    case Ok(after) => Performed(after, false)
    case Raised(_) => Performed(at, true)
  }

  function Appended(store: Store, id: KbId, given: Contribution, absorbed: Option<KbId>): Performed {
    Reached(store, AppendSource(store, id, given.source, given.identifiers, absorbed))
  }

  function Minted(store: Store, card: Card, given: Contribution): Store {
    WriteCard(store, card, given.source, given.identifiers, {})
  }

  function Rehomed(store: Store, card: Card, given: Contribution): Performed {
    var rewritten := Reached(store, RewriteCard(store, card));
    if rewritten.raised then rewritten else Appended(rewritten.store, card.id, given, None)
  }

  function Replaced(store: Store, top: KbId, card: Card, given: Contribution): Performed {
    var minted := Minted(store, card, given);
    var merged := Reached(minted, MergeInto(minted, top, card.id));
    if merged.raised then merged else Reached(merged.store, DeleteCard(merged.store, top))
  }

  function Perform(store: Store, cand: Candidate, move: Move, given: Contribution): Performed {
    match move
    case Home => Rehomed(store, cand.card, given)
    case Skip => Performed(store, false)
    case Again(owner) => Appended(store, owner, given, None)
    case Replace(top, card, _) => Replaced(store, top.id, card, given)
    case Fold(top, _) => Appended(store, top.id, given, Some(cand.card.id))
    case Mint => Performed(Minted(store, cand.card, given), false)
  }

  /** The card a decision writes, before anything else it does. */
  function WrittenBy(cand: Candidate, move: Move): Option<Card> {
    match move
    case Home => Some(cand.card)
    case Replace(_, card, _) => Some(card)
    case Mint => Some(cand.card)
    case _ => None
  }

  predicate Fitting(cand: Candidate, move: Move, fits: Card -> bool) {
    WrittenBy(cand, move).Some? ==> fits(WrittenBy(cand, move).value)
  }

  /** A card that does not validate is refused before the store changes. */
  function Tried(store: Store, cand: Candidate, move: Move, call: Call): Performed {
    if Fitting(cand, move, call.fits) then Perform(store, cand, move, call.given) else Performed(store, true)
  }

  // ------------------------------------------------------------------- the runs

  datatype World = World(store: Store, run: Run, raised: bool)

  function StepOf(dry: bool, world: World, cand: Candidate, call: Call): World {
    var move := Decide(world.store, world.run, cand, call.overlap);
    if dry then World(world.store, Next(world.run, cand, move), false)
    else
      var did := Tried(world.store, cand, move, call);
      World(did.store, if did.raised then world.run else Next(world.run, cand, move), did.raised)
  }

  /** A raise ends the loop. */
  function Onward(dry: bool, before: World, cand: Candidate, call: Call): World {
    if before.raised then before else StepOf(dry, before, cand, call)
  }

  /** The first n candidates. */
  function Ingested(dry: bool, store: Store, run: Run, call: Call, n: nat): World
    requires n <= |call.candidates|
  {
    if n == 0 then World(store, run, false)
    else Onward(dry, Ingested(dry, store, run, call, n - 1), call.candidates[n - 1], call)
  }

  lemma OnwardRaised(dry: bool, before: World, cand: Candidate, call: Call)
    requires before.raised
    ensures Onward(dry, before, cand, call) == before
  {
  }

  lemma {:induction false} RaiseStops(dry: bool, store: Store, run: Run, call: Call, k: nat, n: nat)
    requires k <= n <= |call.candidates|
    requires Ingested(dry, store, run, call, k).raised
    ensures Ingested(dry, store, run, call, n) == Ingested(dry, store, run, call, k)
  {
    if k < n {
      RaiseStops(dry, store, run, call, k, n - 1);
      OnwardRaised(dry, Ingested(dry, store, run, call, n - 1), call.candidates[n - 1], call);
    }
  }

  /** One more candidate, after a run that has not raised. */
  lemma NextTurn(dry: bool, store: Store, run: Run, call: Call, k: nat, at: World)
    requires k < |call.candidates| && Ingested(dry, store, run, call, k) == at && !at.raised
    ensures Ingested(dry, store, run, call, k + 1) == StepOf(dry, at, call.candidates[k], call)
    ensures StepOf(dry, at, call.candidates[k], call).raised ==>
      Ingested(dry, store, run, call, |call.candidates|) == StepOf(dry, at, call.candidates[k], call)
  {
    if StepOf(dry, at, call.candidates[k], call).raised {
      RaiseStops(dry, store, run, call, k + 1, |call.candidates|);
    }
  }

  // ------------------------------------------------------------------ the loop

  /** The store writes of an ingest behind one object; a dry writer answers with nothing. */
  class Writer {
    const dry: bool
    const store: KBStore

    constructor (dry: bool, store: KBStore)
      ensures this.dry == dry && this.store == store
    {
      this.dry, this.store := dry, store;
    }

    method Mint(card: Card, given: Contribution) returns (raised: bool)
      modifies store
      ensures raised <==> !dry && !store.fits(card)
      ensures store.View() == if dry || raised then old(store.View()) else Minted(old(store.View()), card, given)
    {
      if dry { return false; }
      var r := store.Write(card, given.source, given.identifiers, {});
      return r.Raised?;
    }

    method Rewrite(card: Card) returns (raised: bool)
      modifies store
      ensures Performed(store.View(), raised) == if dry then Performed(old(store.View()), false)
                else if !store.fits(card) then Performed(old(store.View()), true)
                else Reached(old(store.View()), RewriteCard(old(store.View()), card))
    {
      if dry { return false; }
      var r := store.Rewrite(card);
      return r.Raised?;
    }

    method Append(id: KbId, given: Contribution, absorbed: Option<KbId>) returns (raised: bool)
      modifies store
      ensures Performed(store.View(), raised) == if dry then Performed(old(store.View()), false)
                else Appended(old(store.View()), id, given, absorbed)
    {
      if dry { return false; }
      var r := store.Append(id, given.source, given.identifiers, absorbed);
      return r.Raised?;
    }

    method Merge(src: KbId, dst: KbId) returns (raised: bool)
      modifies store
      ensures Performed(store.View(), raised) == if dry then Performed(old(store.View()), false)
                else Reached(old(store.View()), MergeInto(old(store.View()), src, dst))
    {
      if dry { return false; }
      var r := store.Merge(src, dst);
      return r.Raised?;
    }

    method Delete(id: KbId) returns (raised: bool)
      modifies store
      ensures Performed(store.View(), raised) == if dry then Performed(old(store.View()), false)
                else Reached(old(store.View()), DeleteCard(old(store.View()), id))
    {
      if dry { return false; }
      var r := store.Delete(id);
      return r.Raised?;
    }
  }

  method Drop(existing: seq<Card>, id: KbId) returns (kept: seq<Card>)
    ensures kept == Without(existing, id)
  {
    kept := [];
    for k := 0 to |existing|
      invariant kept == Without(existing[..k], id)
    {
      assert existing[..k + 1][..k] == existing[..k];
      if existing[k].id != id { kept := kept + [existing[k]]; }
    }
    assert existing[..|existing|] == existing;
  }

  method First(existing: seq<Card>, query: string, overlap: Overlap) returns (top: Card)
    requires existing != []
    ensures top == existing[Top(existing, query, overlap, |existing|)]
  {
    var best := 0;
    for n := 1 to |existing|
      invariant best == Top(existing, query, overlap, n)
    {
      if Before(existing, query, overlap, n, best) { best := n; }
    }
    return existing[best];
  }

  /** None when a write raised.  The listing is the cards of the store, read before the loop. */
  method DedupMerge(writer: Writer, call: Call, listing: seq<Card>, owners: map<KbId, KbId>)
    returns (report: Option<Run>)
    requires writer.store.fits == call.fits
    modifies writer.store
    ensures var end := Ingested(writer.dry, old(writer.store.View()), Begin(listing, owners), call, |call.candidates|);
            && writer.store.View() == end.store
            && report == if end.raised then None else Some(end.run)
  {
    ghost var start := writer.store.View();
    ghost var begin := Begin(listing, owners);
    var run := Begin(listing, owners);
    for k := 0 to |call.candidates|
      invariant Ingested(writer.dry, start, begin, call, k) == World(writer.store.View(), run, false)
    {
      NextTurn(writer.dry, start, begin, call, k, World(writer.store.View(), run, false));
      var raised;
      run, raised := One(writer, run, call.candidates[k], call);
      if raised { return None; }
    }
    return Some(run);
  }

  /** One turn of the loop. */
  method One(writer: Writer, before: Run, cand: Candidate, call: Call) returns (run: Run, raised: bool)
    requires writer.store.fits == call.fits
    modifies writer.store
    ensures World(writer.store.View(), run, raised)
         == StepOf(writer.dry, World(old(writer.store.View()), before, false), cand, call)
  {
    run, raised := before, false;
    var card := cand.card;
    if cand.drifted {
      raised := writer.Rewrite(card);
      if raised { return; }
      raised := writer.Append(card.id, call.given, None);
      return;
    }
    if Exists(writer.store.View(), run, card.id) {
      run := run.(skipped := run.skipped + [card.id]);
      return;
    }
    if card.id in run.absorbed && Exists(writer.store.View(), run, run.absorbed[card.id]) {
      var owner := run.absorbed[card.id];
      raised := writer.Append(owner, call.given, None);
      if raised { return; }
      run := run.(merged := run.merged + [Prior(owner, card.id)]);
      return;
    }
    if run.existing != [] {
      var top := First(run.existing, card.content, call.overlap);
      var score := call.overlap(card.content, top.content, run.existing);
      if score >= DEDUP_FLOOR {
        run, raised := MergeOne(writer, before, cand, top, score, call);
        return;
      }
    }
    raised := writer.Mint(card, call.given);
    if raised { return; }
    run := run.(existing := run.existing + [card], written := run.written + {card.id},
                cardsWritten := run.cardsWritten + [card.id]);
  }

  /** The near-duplicate branch: one of the two cards survives. */
  method MergeOne(writer: Writer, before: Run, cand: Candidate, top: Card, score: real, call: Call)
    returns (run: Run, raised: bool)
    requires writer.store.fits == call.fits
    modifies writer.store
    ensures var reverse := call.overlap(top.content, cand.card.content, before.existing);
            var move := if CandidateSurvives(cand.card, top, score, reverse)
                        then Replace(top, Carried(cand.card, top), score) else Fold(top, score);
            var did := if writer.dry then Performed(old(writer.store.View()), false)
                       else Tried(old(writer.store.View()), cand, move, call);
            && writer.store.View() == did.store && raised == did.raised
            && run == if raised then before else Next(before, cand, move)
  {
    run, raised := before, false;
    var card := cand.card;
    var reverse := call.overlap(top.content, card.content, before.existing);
    if CandidateSurvives(card, top, score, reverse) {
      if card.survival.None? && top.survival.Some? {
        card := card.(survival := top.survival);
      }
      raised := writer.Mint(card, call.given);
      if raised { return; }
      raised := writer.Merge(top.id, card.id);
      if raised { return; }
      raised := writer.Delete(top.id);
      if raised { return; }
      var kept := Drop(run.existing, top.id);
      run := Run(kept + [card], run.absorbed[top.id := card.id], run.written + {card.id},
                 run.deleted + {top.id}, run.skipped,
                 run.merged + [Scored(card.id, top.id, score, true)], run.cardsWritten + [card.id]);
    } else {
      raised := writer.Append(top.id, call.given, Some(card.id));
      if raised { return; }
      run := run.(absorbed := run.absorbed[card.id := top.id],
                  merged := run.merged + [Scored(top.id, card.id, score, false)]);
    }
  }
}
