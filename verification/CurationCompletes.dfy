/** When an admitted batch completes, and batches on which it does not or does harm. */
module CurationCompletes {
  import opened Wrappers
  import opened Curation
  import opened CurationRuns

  // -------------------------------------------------- one card under a batch's operations

  predicate Touches(op: Op, id: KbId) { (op.Front? || op.AddLesson? || op.Withdraw?) && op.kbId == id }

  function Touch(card: Card, op: Op): Card {
    match op
    case Front(_, update) => Overlaid(card, update)
    case AddLesson(_, lesson) => if Taught(card, lesson.proposal) then card
        else card.(lessons := card.lessons + [lesson])
    case Withdraw(_, mark) => card.(deprecated := Some(mark))
    case _ => card
  }

  /** The card as the first n operations on it accumulate. */
  function Grown(card: Card, ops: seq<Op>, n: nat, id: KbId): Card
    requires n <= |ops|
  {
    if n == 0 then card
    else if Touches(ops[n - 1], id) then Touch(Grown(card, ops, n - 1, id), ops[n - 1])
    else Grown(card, ops, n - 1, id)
  }

  function BodyOf(op: Op): string
    requires op.MintCard?
  {
    Get(op.proposal.diff.texts, "body", "")
  }

  predicate Fresh(ops: seq<Op>, env: Env, i: nat)
    requires i < |ops| && ops[i].MintCard?
  {
    forall j | 0 <= j < i && ops[j].MintCard? :: env.mint(BodyOf(ops[j])) != env.mint(BodyOf(ops[i]))
  }

  /** Operation i writes a card that validates and renders, and mints no id an earlier one minted. */
  predicate OpGood(kb: Kb, ops: seq<Op>, env: Env, i: nat)
    requires i < |ops|
  {
    match ops[i]
    case MintCard(p, fill) => Lands(Drafted(p, fill), env) && Fresh(ops, env, i)
    case Accept(_, _) => true
    case op =>
      op.kbId in kb.cards && (op.Front? ==> Callable(op.update))
      && var before := Grown(kb.cards[op.kbId], ops, i, op.kbId);
         (op.AddLesson? && Taught(before, op.lesson.proposal)) || Lands(Touch(before, op), env)
  }

  // ------------------------------------------------------- what validation prepares

  predicate PreparedOp(kb: Kb, op: Op, env: Env) {
    match op
    case MintCard(p, fill) => CheckNewCard(kb.cards, p, fill, env).Ok?
    case Accept(pid, _) => pid in kb.proposals && kb.proposals[pid].status == Proposed
    case _ => op.kbId in kb.cards
  }

  predicate Prepared(kb: Kb, ops: seq<Op>, env: Env) { forall op | op in ops :: PreparedOp(kb, op, env) }

  lemma OnePrepared(kb: Kb, batch: Batch, env: Env, pid: Pid)
    requires StageOne(kb, pid, batch, env).Ok?
    ensures Prepared(kb, OpsOf(StageOne(kb, pid, batch, env).value, batch), env)
  {
    var s := StageOne(kb, pid, batch, env).value;
    assert Prepared(kb, FrontOps(s), env);
    assert Prepared(kb, LessonOps(s), env);
    assert Prepared(kb, HomeOps(s, batch), env);
    assert Prepared(kb, [Accept(s.pid, Decision(batch))], env);
    PreparedSplit(kb, FrontOps(s), LessonOps(s), env);
    PreparedSplit(kb, FrontOps(s) + LessonOps(s), HomeOps(s, batch), env);
    PreparedSplit(kb, FrontOps(s) + LessonOps(s) + HomeOps(s, batch), [Accept(s.pid, Decision(batch))], env);
  }

  lemma PreparedSplit(kb: Kb, a: seq<Op>, b: seq<Op>, env: Env)
    requires Prepared(kb, a, env) && Prepared(kb, b, env)
    ensures Prepared(kb, a + b, env)
  {
  }

  lemma {:induction false} BatchPrepared(kb: Kb, batch: Batch, env: Env, n: nat)
    requires n <= |batch.ids| && StageTo(kb, batch, env, n).Ok?
    ensures Prepared(kb, AllOps(StageTo(kb, batch, env, n).value, batch), env)
  {
    if n > 0 {
      BatchPrepared(kb, batch, env, n - 1);
      OnePrepared(kb, batch, env, batch.ids[n - 1]);
      var before, one := StageTo(kb, batch, env, n - 1).value, StageOne(kb, batch.ids[n - 1], batch, env).value;
      assert (before + [one])[..|before|] == before;
      PreparedSplit(kb, AllOps(before, batch), OpsOf(one, batch), env);
    }
  }

  // --------------------------------------------------------------- the completion

  /** The cards after n operations: those there at first as grown, and those minted. */
  predicate Tracks(kb: Kb, ops: seq<Op>, env: Env, n: nat, at: Kb)
    requires n <= |ops|
  {
    && (forall id | id in kb.cards :: id in at.cards && at.cards[id] == Grown(kb.cards[id], ops, n, id))
    && (forall id | id in at.cards && id !in kb.cards ::
          exists j | 0 <= j < n :: ops[j].MintCard? && env.mint(BodyOf(ops[j])) == id)
    && (forall j | 0 <= j < n && ops[j].MintCard? :: env.mint(BodyOf(ops[j])) in at.cards)
  }

  lemma TouchGood(kb: Kb, ops: seq<Op>, env: Env, n: nat, at: Kb)
    requires n < |ops| && Tracks(kb, ops, env, n, at) && PreparedOp(kb, ops[n], env)
    requires ops[n].Front? || ops[n].AddLesson? || ops[n].Withdraw?
    ensures ApplyOp(at, ops[n], env).Ok? <==> OpGood(kb, ops, env, n)
    ensures ApplyOp(at, ops[n], env).Ok? ==>
      ApplyOp(at, ops[n], env).value.cards == at.cards[ops[n].kbId := Touch(at.cards[ops[n].kbId], ops[n])]
  {
  }

  lemma TouchTracks(kb: Kb, ops: seq<Op>, env: Env, n: nat, at: Kb)
    requires n < |ops| && Tracks(kb, ops, env, n, at) && PreparedOp(kb, ops[n], env)
    requires ops[n].Front? || ops[n].AddLesson? || ops[n].Withdraw?
    requires ApplyOp(at, ops[n], env).Ok?
    ensures Tracks(kb, ops, env, n + 1, ApplyOp(at, ops[n], env).value)
  {
    TouchGood(kb, ops, env, n, at);
  }

  lemma MintGood(kb: Kb, ops: seq<Op>, env: Env, n: nat, at: Kb)
    requires n < |ops| && Tracks(kb, ops, env, n, at) && PreparedOp(kb, ops[n], env) && ops[n].MintCard?
    ensures ApplyOp(at, ops[n], env).Ok? <==> OpGood(kb, ops, env, n)
    ensures ApplyOp(at, ops[n], env).Ok? ==>
      && env.mint(BodyOf(ops[n])) !in at.cards
      && ApplyOp(at, ops[n], env).value.cards
           == at.cards[env.mint(BodyOf(ops[n])) := Drafted(ops[n].proposal, ops[n].fill)]
  {
    assert env.mint(BodyOf(ops[n])) in at.cards <==> !Fresh(ops, env, n);
  }

  lemma MintTracks(kb: Kb, ops: seq<Op>, env: Env, n: nat, at: Kb)
    requires n < |ops| && Tracks(kb, ops, env, n, at) && PreparedOp(kb, ops[n], env) && ops[n].MintCard?
    requires ApplyOp(at, ops[n], env).Ok?
    ensures Tracks(kb, ops, env, n + 1, ApplyOp(at, ops[n], env).value)
  {
    MintGood(kb, ops, env, n, at);
  }

  lemma {:induction false} AcceptedPrefixOf(ops: seq<Op>, k: nat, n: nat)
    requires k <= n <= |ops|
    ensures AcceptedIn(ops, k) <= AcceptedIn(ops, n)
  {
    if k < n { AcceptedPrefixOf(ops, k, n - 1); }
  }

  lemma AcceptGood(kb: Kb, ops: seq<Op>, env: Env, n: nat)
    requires n < |ops| && Performed(kb, ops, env, n).Ok? && PreparedOp(kb, ops[n], env) && ops[n].Accept?
    requires Distinct(AcceptedIn(ops, |ops|), |AcceptedIn(ops, |ops|)|)
    ensures ApplyOp(Performed(kb, ops, env, n).value, ops[n], env).Ok?
  {
    AcceptedPrefixOf(ops, n + 1, |ops|);
    var all := AcceptedIn(ops, |ops|);
    var m := |AcceptedIn(ops, n)|;
    assert all[m] == ops[n].pid && forall i | 0 <= i < m :: all[i] == AcceptedIn(ops, n)[i];
    OnlyAcceptedDecided(kb, ops, env, n, ops[n].pid);
  }

  predicate AllGood(kb: Kb, ops: seq<Op>, env: Env, n: nat)
    requires n <= |ops|
  {
    n == 0 || (AllGood(kb, ops, env, n - 1) && OpGood(kb, ops, env, n - 1))
  }

  lemma {:induction false} AllGoodMeans(kb: Kb, ops: seq<Op>, env: Env, n: nat)
    requires n <= |ops|
    ensures AllGood(kb, ops, env, n) <==> forall i | 0 <= i < n :: OpGood(kb, ops, env, i)
  {
    if n > 0 { AllGoodMeans(kb, ops, env, n - 1); }
  }

  lemma StepGood(kb: Kb, ops: seq<Op>, env: Env, n: nat)
    requires n < |ops| && Performed(kb, ops, env, n).Ok? && PreparedOp(kb, ops[n], env)
    requires Tracks(kb, ops, env, n, Performed(kb, ops, env, n).value)
    requires Distinct(AcceptedIn(ops, |ops|), |AcceptedIn(ops, |ops|)|)
    ensures Performed(kb, ops, env, n + 1).Ok? <==> OpGood(kb, ops, env, n)
    ensures Performed(kb, ops, env, n + 1).Ok? ==> Tracks(kb, ops, env, n + 1, Performed(kb, ops, env, n + 1).value)
  {
    var at := Performed(kb, ops, env, n).value;
    match ops[n]
    case MintCard(_, _) =>
      MintGood(kb, ops, env, n, at);
      if ApplyOp(at, ops[n], env).Ok? { MintTracks(kb, ops, env, n, at); }
    case Accept(_, _) => AcceptGood(kb, ops, env, n);
    case _ =>
      TouchGood(kb, ops, env, n, at);
      if ApplyOp(at, ops[n], env).Ok? { TouchTracks(kb, ops, env, n, at); }
  }

  ghost predicate Reached(kb: Kb, ops: seq<Op>, env: Env, n: nat)
    requires n <= |ops|
  {
    Performed(kb, ops, env, n).Ok? && Tracks(kb, ops, env, n, Performed(kb, ops, env, n).value)
  }

  predicate Decidable(kb: Kb, ops: seq<Op>, env: Env) {
    Prepared(kb, ops, env) && Distinct(AcceptedIn(ops, |ops|), |AcceptedIn(ops, |ops|)|)
  }

  lemma StepReaches(kb: Kb, ops: seq<Op>, env: Env, n: nat)
    requires n < |ops| && Decidable(kb, ops, env) && Reached(kb, ops, env, n)
    ensures Performed(kb, ops, env, n + 1).Ok? <==> OpGood(kb, ops, env, n)
    ensures OpGood(kb, ops, env, n) ==> Reached(kb, ops, env, n + 1)
  {
    assert ops[n] in ops;
    StepGood(kb, ops, env, n);
  }

  lemma {:induction false} PerformedIff(kb: Kb, ops: seq<Op>, env: Env, n: nat)
    requires n <= |ops| && Decidable(kb, ops, env)
    ensures Performed(kb, ops, env, n).Ok? <==> AllGood(kb, ops, env, n)
    ensures AllGood(kb, ops, env, n) ==> Reached(kb, ops, env, n)
  {
    if n > 0 {
      PerformedIff(kb, ops, env, n - 1);
      if AllGood(kb, ops, env, n - 1) { StepReaches(kb, ops, env, n - 1); }
    }
  }

  /** An admitted batch left to itself completes exactly when no two of its new cards have one id
      and every card it writes, as the operations before have changed it, validates and renders. */
  lemma CompletesIff(kb: Kb, batch: Batch, env: Env)
    requires StageTo(kb, batch, env, |batch.ids|).Ok?
    ensures var ops := AllOps(StageTo(kb, batch, env, |batch.ids|).value, batch);
            Halt(kb, ops, env, NoFault, 0) == |ops| <==> forall i | 0 <= i < |ops| :: OpGood(kb, ops, env, i)
  {
    var staged := StageTo(kb, batch, env, |batch.ids|).value;
    var ops := AllOps(staged, batch);
    BatchPrepared(kb, batch, env, |batch.ids|);
    AllAccepted(staged, batch);
    PidsAreIds(kb, batch, env);
    PerformedIff(kb, ops, env, |ops|);
    AllGoodMeans(kb, ops, env, |ops|);
    if Performed(kb, ops, env, |ops|).Ok? { HaltIs(kb, ops, env, NoFault, 0, |ops|); }
  }

  /** Two new cards of one id both pass validation, and the batch never completes. */
  lemma TwinMintsNeverComplete(kb: Kb, batch: Batch, env: Env, i: nat, j: nat)
    requires StageTo(kb, batch, env, |batch.ids|).Ok?
    requires var ops := AllOps(StageTo(kb, batch, env, |batch.ids|).value, batch);
             i < j < |ops| && ops[i].MintCard? && ops[j].MintCard?
                 && env.mint(BodyOf(ops[i])) == env.mint(BodyOf(ops[j]))
    ensures var ops := AllOps(StageTo(kb, batch, env, |batch.ids|).value, batch);
            Halt(kb, ops, env, NoFault, 0) < |ops|
  {
    var ops := AllOps(StageTo(kb, batch, env, |batch.ids|).value, batch);
    CompletesIff(kb, batch, env);
    assert !OpGood(kb, ops, env, j);
  }

  /** A new card an admitted batch performed is on the cards as drafted: nothing in it can touch it. */
  lemma NewCardStands(kb: Kb, ops: seq<Op>, env: Env, k: nat, n: nat)
    requires k < n <= |ops| && Prepared(kb, ops, env) && Performed(kb, ops, env, n).Ok? && ops[k].MintCard?
    ensures env.mint(BodyOf(ops[k])) in Performed(kb, ops, env, n).value.cards
    ensures Performed(kb, ops, env, n).value.cards[env.mint(BodyOf(ops[k]))] == Drafted(ops[k].proposal, ops[k].fill)
  {
    assert ops[k] in ops;
    PerformedEarlier(kb, ops, env, k + 1, n);
    NewCardLands(Performed(kb, ops, env, k).value, ops[k], env);
    CardUntouched(kb, ops, env, k + 1, n, env.mint(BodyOf(ops[k])));
  }

  lemma {:induction false} CardUntouched(kb: Kb, ops: seq<Op>, env: Env, k: nat, n: nat, id: KbId)
    requires k <= n <= |ops| && Prepared(kb, ops, env) && id !in kb.cards
    requires Performed(kb, ops, env, n).Ok? && Performed(kb, ops, env, k).Ok?
        && id in Performed(kb, ops, env, k).value.cards
    ensures id in Performed(kb, ops, env, n).value.cards
    ensures Performed(kb, ops, env, n).value.cards[id] == Performed(kb, ops, env, k).value.cards[id]
  {
    if k < n {
      PerformedEarlier(kb, ops, env, n - 1, n);
      CardUntouched(kb, ops, env, k, n - 1, id);
      assert ops[n - 1] in ops;
      NewCardUntouched(kb, Performed(kb, ops, env, n - 1).value, ops[n - 1], env, id);
    }
  }

  lemma NewCardLands(at: Kb, op: Op, env: Env)
    requires op.MintCard? && ApplyOp(at, op, env).Ok?
    ensures var cards, id := ApplyOp(at, op, env).value.cards, env.mint(BodyOf(op));
            id in cards && cards[id] == Drafted(op.proposal, op.fill)
  {
  }

  lemma NewCardUntouched(kb: Kb, at: Kb, op: Op, env: Env, id: KbId)
    requires PreparedOp(kb, op, env) && ApplyOp(at, op, env).Ok? && id in at.cards && id !in kb.cards
    ensures var cards := ApplyOp(at, op, env).value.cards;
            id in cards && cards[id] == at.cards[id]
  {
  }

  // -------------------------------------------------------------- concrete batches

  /** A schema that takes everything, no residue, and an id that is the body. */
  function Lenient(): Env { Env((c: Card) => true, (t: string, b: string) => false, (b: string) => b) }

  function New(body: string): Proposal {
    Proposal("new_card", None, Diff(map["body" := body, "layer" := "corpus"], None, None, None, None), Proposed, None)
  }

  function Change(id: KbId, diff: Diff): Proposal { Proposal("update_card", Some(id), diff, Proposed, None) }

  function Two(first: Proposal, second: Proposal, cards: map<KbId, Card>): Kb {
    Kb(cards, map["p1" := first, "p2" := second], [])
  }

  function Both(): Batch { Batch(["p1", "p2"], "steward", "now", map[]) }

  lemma Names()
    ensures "p1" != "p2"
  {
    assert "p1"[1] != "p2"[1];
  }

  lemma StagesFirst(kb: Kb, batch: Batch, env: Env)
    requires batch.ids != [] && StageOne(kb, batch.ids[0], batch, env).Ok?
    ensures StageTo(kb, batch, env, 1) == Ok([StageOne(kb, batch.ids[0], batch, env).value])
  {
    var none: seq<Staged> := [];
    var one := StageOne(kb, batch.ids[0], batch, env).value;
    assert StageTo(kb, batch, env, 0) == Ok(none);
    assert none + [one] == [one];
  }

  /** What a batch of two admitted proposals stages. */
  lemma StagesBoth(kb: Kb, env: Env)
    requires StageOne(kb, "p1", Both(), env).Ok? && StageOne(kb, "p2", Both(), env).Ok?
    ensures StageTo(kb, Both(), env, 2)
         == Ok([StageOne(kb, "p1", Both(), env).value, StageOne(kb, "p2", Both(), env).value])
  {
    Names();
    StagesFirst(kb, Both(), env);
    assert Both().ids[..1] == ["p1"];
    var one, two := StageOne(kb, "p1", Both(), env).value, StageOne(kb, "p2", Both(), env).value;
    assert [one] + [two] == [one, two];
  }

  lemma OpsOfOne(a: Staged, batch: Batch)
    ensures AllOps([a], batch) == OpsOf(a, batch)
  {
    var none: seq<Staged> := [];
    assert [a][..0] == none;
    assert AllOps(none, batch) + OpsOf(a, batch) == OpsOf(a, batch);
  }

  lemma OpsOfBoth(a: Staged, b: Staged)
    ensures AllOps([a, b], Both()) == OpsOf(a, Both()) + OpsOf(b, Both())
  {
    OpsOfOne(a, Both());
    assert [a, b][..1] == [a];
  }

  /** Two proposals of one body are admitted together; the second never lands. */
  lemma TwinsAreAdmitted()
    ensures var kb := Two(New("b"), New("b"), map[]);
            StageTo(kb, Both(), Lenient(), 2).Ok?
            && Halt(kb, AllOps(StageTo(kb, Both(), Lenient(), 2).value, Both()), Lenient(), NoFault, 0)
                 < |AllOps(StageTo(kb, Both(), Lenient(), 2).value, Both())|
  {
    var kb, env := Two(New("b"), New("b"), map[]), Lenient();
    assert "corpus" != "fact_sheet" by { assert |"corpus"| != |"fact_sheet"|; }
    assert StageOne(kb, "p1", Both(), env) == Ok(Staged("p1", New("b"), NewCard, NOTHING, None));
    assert StageOne(kb, "p2", Both(), env) == Ok(Staged("p2", New("b"), NewCard, NOTHING, None));
    StagesBoth(kb, env);
    var a, b := Staged("p1", New("b"), NewCard, NOTHING, None), Staged("p2", New("b"), NewCard, NOTHING, None);
    OpsOfBoth(a, b);
    var ops := AllOps([a, b], Both());
    assert ops[0] == MintCard(New("b"), map[]) && ops[2] == MintCard(New("b"), map[]);
    TwinMintsNeverComplete(kb, Both(), env, 0, 2);
  }

  predicate Ordinary(op: Op) { op.Front? ==> "provenance" !in op.update.fields && Callable(op.update) }

  lemma {:induction false} GrownRenders(card: Card, ops: seq<Op>, n: nat, id: KbId)
    requires n <= |ops| && Renders(card) && forall op | op in ops :: Ordinary(op)
    ensures Renders(Grown(card, ops, n, id))
  {
    if n > 0 {
      assert ops[n - 1] in ops;
      GrownRenders(card, ops, n - 1, id);
    }
  }

  /** With a schema that takes everything, no new card and no odd key, an admitted batch completes. */
  lemma LenientCompletes(kb: Kb, batch: Batch)
    requires StageTo(kb, batch, Lenient(), |batch.ids|).Ok? && forall id | id in kb.cards :: Renders(kb.cards[id])
    requires forall op | op in AllOps(StageTo(kb, batch, Lenient(), |batch.ids|).value, batch) ::
        !op.MintCard? && Ordinary(op)
    ensures var ops := AllOps(StageTo(kb, batch, Lenient(), |batch.ids|).value, batch);
            Halt(kb, ops, Lenient(), NoFault, 0) == |ops|
  {
    var ops := AllOps(StageTo(kb, batch, Lenient(), |batch.ids|).value, batch);
    CompletesIff(kb, batch, Lenient());
    BatchPrepared(kb, batch, Lenient(), |batch.ids|);
    forall i | 0 <= i < |ops| ensures OpGood(kb, ops, Lenient(), i) {
      assert ops[i] in ops;
      if !ops[i].Accept? { GrownRenders(kb.cards[ops[i].kbId], ops, i, ops[i].kbId); }
    }
  }

  /** The first pass validates; the write also renders.  An admitted batch with an update that
      carries provenance, or a second kb_id, never completes. */
  lemma OddKeyNeverCompletes(kb: Kb, batch: Batch, env: Env, i: nat)
    requires StageTo(kb, batch, env, |batch.ids|).Ok?
    requires var ops := AllOps(StageTo(kb, batch, env, |batch.ids|).value, batch);
             i < |ops| && !Ordinary(ops[i])
    ensures var ops := AllOps(StageTo(kb, batch, env, |batch.ids|).value, batch);
            Halt(kb, ops, env, NoFault, 0) < |ops|
  {
    var ops := AllOps(StageTo(kb, batch, env, |batch.ids|).value, batch);
    CompletesIff(kb, batch, env);
    assert !OpGood(kb, ops, env, i);
  }

  function Sourced(): Proposal { Change("k", Diff(map["provenance" := "{}"], None, None, None, None)) }

  /** An update that carries provenance is admitted, and the write refuses it: nothing is written,
      nothing decided, and the log line says the batch was aborted. */
  lemma ProvenanceIsAdmitted()
    ensures var kb := Two(Sourced(), New("b"), map["k" := Plain(false)]);
            && StageTo(kb, Alone(), Lenient(), 1).Ok?
            && var after := Merged(kb, Alone(), Lenient(), NoFault);
               && after.cards == kb.cards && after.proposals == kb.proposals
               && after.log == [LogLine("now", "steward", [], [], kb.cards, kb.cards, true)]
  {
    var kb, env := Two(Sourced(), New("b"), map["k" := Plain(false)]), Lenient();
    var staged := Staged("p1", Sourced(), CardField("k"), Changes(Sourced()), None);
    SourcedStages(kb);
    StagesFirst(kb, Alone(), env);
    OpsOfOne(staged, Alone());
    var ops := AllOps([staged], Alone());
    assert ops == [Front("k", Changes(Sourced())), Accept("p1", Decision(Alone()))];
    assert !Renders(Overlaid(kb.cards["k"], Changes(Sourced())));
    HaltIs(kb, ops, env, NoFault, 0, 0);
  }

  lemma SourcedStages(kb: Kb)
    requires kb == Two(Sourced(), New("b"), map["k" := Plain(false)])
    ensures StageOne(kb, "p1", Alone(), Lenient())
        == Ok(Staged("p1", Sourced(), CardField("k"), Changes(Sourced()), None))
    ensures "provenance" in Changes(Sourced()).fields
  {
    Names();
    assert "provenance" != "text" by { assert |"provenance"| != |"text"|; }
    assert "provenance" in Changes(Sourced()).fields;
  }

  const SEEN := Mark("now", "steward", "p1")

  function Plain(hold: bool): Card { Card(map[], [], None, hold, "body") }

  function Alone(): Batch { Batch(["p1"], "steward", "now", map[]) }

  function Marking(): Proposal { Change("k", Diff(map[], None, None, Some(SEEN), None)) }

  lemma MarkingStages(kb: Kb)
    requires kb == Two(Marking(), New("b"), map["k" := Plain(true)])
    ensures StageOne(kb, "p1", Alone(), Lenient())
        == Ok(Staged("p1", Marking(), CardField("k"), Changes(Marking()), None))
  {
    Names();
  }

  /** An update that carries a deprecation is admitted on a held card, and deprecates it. */
  lemma HeldCardIsDeprecated()
    ensures var kb := Two(Marking(), New("b"), map["k" := Plain(true)]);
            StageTo(kb, Alone(), Lenient(), 1).Ok? && !HoldKept(kb, Merged(kb, Alone(), Lenient(), NoFault), "k")
  {
    var kb, env := Two(Marking(), New("b"), map["k" := Plain(true)]), Lenient();
    var staged := Staged("p1", Marking(), CardField("k"), Changes(Marking()), None);
    MarkingStages(kb);
    StagesFirst(kb, Alone(), env);
    OpsOfOne(staged, Alone());
    var ops := AllOps([staged], Alone());
    assert ops == [Front("k", Changes(Marking())), Accept("p1", Decision(Alone()))];
    LenientCompletes(kb, Alone());
    assert LastMark(ops, 1, "k") == Some(SEEN);
    MergeKeepsHoldIff(kb, Alone(), env, NoFault, "k");
  }

  /** A lesson accepted first is written over by an update of the same batch that carries lessons. */
  lemma LessonIsErased()
    ensures var taught, wiped := Change("k", Diff(map["text" := "say less"], None, None, None, None)),
                                 Change("k", Diff(map[], None, Some([]), None, None));
            var kb := Two(taught, wiped, map["k" := Plain(false)]);
            && StageTo(kb, Both(), Lenient(), 2).Ok?
            && var ops := AllOps(StageTo(kb, Both(), Lenient(), 2).value, Both());
               && ops[0] == AddLesson("k", Lesson("p1", "now", "steward", "say less"))
               && Halt(kb, ops, Lenient(), NoFault, 0) == |ops|
               && !Carried(Performed(kb, ops, Lenient(), |ops|).value, ops[0], Lenient())
  {
    var taught, wiped := Change("k", Diff(map["text" := "say less"], None, None, None, None)),
                         Change("k", Diff(map[], None, Some([]), None, None));
    var kb, env := Two(taught, wiped, map["k" := Plain(false)]), Lenient();
    var lesson := Lesson("p1", "now", "steward", "say less");
    ErasingStages(kb, taught, wiped, lesson);
    var a, b := Staged("p1", taught, CardLesson("k"), NOTHING, Some(lesson)),
                Staged("p2", wiped, CardField("k"), Changes(wiped), None);
    StagesBoth(kb, env);
    ErasingOps(a, b, lesson);
    var ops := AllOps([a, b], Both());
    LenientCompletes(kb, Both());
    assert !LessonStands(ops, 0, 3);
    assert !LessonStands(ops, 0, 4);
    CarriedIff(kb, ops, env, 0, 4);
  }

  function Retitle(title: string): Proposal { Change("k", Diff(map["title" := title], None, None, None, None)) }

  lemma RetitleStages(kb: Kb)
    requires kb == Two(Retitle("a"), Retitle("b"), map["k" := Plain(false)])
    ensures StageOne(kb, "p1", Both(), Lenient())
         == Ok(Staged("p1", Retitle("a"), CardField("k"), Update(map["title" := "a"], None, None, None), None))
    ensures StageOne(kb, "p2", Both(), Lenient())
         == Ok(Staged("p2", Retitle("b"), CardField("k"), Update(map["title" := "b"], None, None, None), None))
  {
    Names();
    assert "title" != "text" by { assert |"title"| != |"text"|; }
    assert Changes(Retitle("a")).fields == map["title" := "a"] && Changes(Retitle("b")).fields == map["title" := "b"];
    assert "title" in Changes(Retitle("a")).fields && "title" in Changes(Retitle("b")).fields;
  }

  /** Two accepted updates of one key: both are decided, and the first one's value is gone. */
  lemma UpdateIsOverwritten()
    ensures var kb := Two(Retitle("a"), Retitle("b"), map["k" := Plain(false)]);
            && StageTo(kb, Both(), Lenient(), 2).Ok?
            && var ops := AllOps(StageTo(kb, Both(), Lenient(), 2).value, Both());
               && ops[0] == Front("k", Update(map["title" := "a"], None, None, None))
               && Halt(kb, ops, Lenient(), NoFault, 0) == |ops|
               && !Carried(Performed(kb, ops, Lenient(), |ops|).value, ops[0], Lenient())
  {
    var kb, env := Two(Retitle("a"), Retitle("b"), map["k" := Plain(false)]), Lenient();
    var one, two := Update(map["title" := "a"], None, None, None), Update(map["title" := "b"], None, None, None);
    RetitleStages(kb);
    StagesBoth(kb, env);
    var a, b := Staged("p1", Retitle("a"), CardField("k"), one, None),
        Staged("p2", Retitle("b"), CardField("k"), two, None);
    RetitleOps(a, b);
    var ops := AllOps([a, b], Both());
    LenientCompletes(kb, Both());
    assert TextOf(ops[2], "k", "title") == Some("b");
    assert !TextStands(ops, 0, 3, "title");
    assert !TextStands(ops, 0, 4, "title");
    CarriedIff(kb, ops, env, 0, 4);
  }

  lemma RetitleOps(a: Staged, b: Staged)
    requires a.changes == Update(map["title" := "a"], None, None, None) && a.proposal == Retitle("a")
    requires b.changes == Update(map["title" := "b"], None, None, None) && b.proposal == Retitle("b")
    requires a.lesson == b.lesson == None && a.home == b.home == CardField("k")
    ensures AllOps([a, b], Both())
         == [Front("k", a.changes), Accept(a.pid, Decision(Both())), Front("k", b.changes),
             Accept(b.pid, Decision(Both()))]
    ensures Ordinary(Front("k", a.changes)) && Ordinary(Front("k", b.changes))
  {
    OpsOfBoth(a, b);
    assert "title" in a.changes.fields && "title" in b.changes.fields;
    assert "title" != "kb_id" by { assert "title"[0] != "kb_id"[0]; }
    assert "title" != "provenance" by { assert |"title"| != |"provenance"|; }
  }

  lemma ErasingOps(a: Staged, b: Staged, lesson: Lesson)
    requires a.lesson == Some(lesson) && a.changes == NOTHING && a.home == CardLesson("k")
        && a.proposal.kbId == Some("k")
    requires b.lesson == None && b.changes.lessons == Some([]) && b.home == CardField("k")
        && b.proposal.kbId == Some("k")
    ensures AllOps([a, b], Both())
         == [AddLesson("k", lesson), Accept(a.pid, Decision(Both())), Front("k", b.changes),
             Accept(b.pid, Decision(Both()))]
  {
    OpsOfBoth(a, b);
  }

  lemma ErasingStages(kb: Kb, taught: Proposal, wiped: Proposal, lesson: Lesson)
    requires taught == Change("k", Diff(map["text" := "say less"], None, None, None, None))
    requires wiped == Change("k", Diff(map[], None, Some([]), None, None))
    requires kb == Two(taught, wiped, map["k" := Plain(false)]) && lesson == Lesson("p1", "now", "steward", "say less")
    ensures StageOne(kb, "p1", Both(), Lenient()) == Ok(Staged("p1", taught, CardLesson("k"), NOTHING, Some(lesson)))
    ensures StageOne(kb, "p2", Both(), Lenient()) == Ok(Staged("p2", wiped, CardField("k"), Changes(wiped), None))
  {
    Names();
    assert Changes(taught).fields == map[];
    assert Changes(taught) == NOTHING;
    assert |"say less"| > 0;
  }
}
