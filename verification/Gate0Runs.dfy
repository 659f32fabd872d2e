/** Gate 0 over whole histories: submissions, kills, advances and the later writers of the brief. */
module Gate0Runs {
  import opened Durable
  import opened Wrappers
  import opened GateEdits
  import opened Gate0

  // ------------------------------------------------------------------- histories

  /** `Submit` and `Intake` land at most k writes.  `Intake` is the driver reading the package
      again; `Enrich` a later stage writing its own part of the brief; `Ping` and `AnswerPing` a
      question to an expert and its answer; `Freeze` Gate 1. */
  datatype Event =
    | Submit(s: Submission, k: nat)
    | Intake(reread: Brief, k: nat)
    | Enrich(rest: string)
    | Ping(gap: string)
    | AnswerPing(gap: string, text: string, from: string, at: string, k: nat)
    | Freeze

  /** Only when the bid_brief checkpoint is missing. */
  function IntakeWrites<D, H>(disk: Disk<D, H>, reread: Brief): seq<Write<D, H>> {
    if disk.bidBrief then []
    else if disk.intake then [WriteBrief(Artifact(reread, None, "")), CheckpointBidBrief]
    else [CheckpointIntake, WriteBrief(Artifact(reread, None, "")), CheckpointBidBrief]
  }

  function EnrichWrites<D, H>(disk: Disk<D, H>, rest: string): seq<Write<D, H>> {
    if disk.artifact.None? then [] else [WriteBrief(disk.artifact.value.(rest := rest))]
  }

  /** Only an open gap of a brief that is not frozen is asked about. */
  function PingWrites<D, H>(disk: Disk<D, H>, gap: string): seq<Write<D, H>> {
    if disk.artifact.None? || disk.frozen || OpenGap(disk.artifact.value.brief.gaps, gap).Raised? then []
    else [RecordPing(gap)]
  }

  function Replied(gap: Gap, text: string, from: string, at: string): Gap {
    gap.(status := Answered, answer := Some(text), answeredBy := Some(from), answeredAt := Some(at))
  }

  /** The answer goes to the gap its ping names, whatever became of the gap since. */
  function ReplyWrites<D, H>(disk: Disk<D, H>, id: string, text: string, from: string, at: string): seq<Write<D, H>> {
    if disk.artifact.None? || disk.frozen || disk.pings[id] == 0 || Blank(text) then []
    else
      var artifact := disk.artifact.value;
      var gap := FindGap(artifact.brief.gaps, id);
      if gap.None? then []
      else
        var gaps := SetGap(artifact.brief.gaps, Replied(gap.value, text, from, at));
        [RecordAnswer(id), WriteBrief(artifact.(brief := artifact.brief.(gaps := gaps)))]
  }

  function WritesOf<D(==), H>(disk: Disk<D, H>, event: Event, env: Env<D, H>): seq<Write<D, H>> {
    match event
    case Submit(s, k) => Cut(AttemptOf(disk, s, env).writes, k)
    case Intake(reread, k) => Cut(IntakeWrites(disk, reread), k)
    case Enrich(rest) => EnrichWrites(disk, rest)
    case Ping(gap) => PingWrites(disk, gap)
    case AnswerPing(gap, text, from, at, k) => Cut(ReplyWrites(disk, gap, text, from, at), k)
    case Freeze => [FreezeBrief]
  }

  function Step<D(==), H>(disk: Disk<D, H>, event: Event, env: Env<D, H>): Disk<D, H> {
    Land(Apply, disk, WritesOf(disk, event, env))
  }

  function After<D(==), H>(disk: Disk<D, H>, events: seq<Event>, env: Env<D, H>): Disk<D, H> {
    if events == [] then disk
    else Step(After(disk, events[..|events| - 1], env), events[|events| - 1], env)
  }

  lemma LandOne<D, H>(disk: Disk<D, H>, write: Write<D, H>)
    ensures Land(Apply, disk, [write]) == Apply(disk, write)
  {
    assert [write][..0] == [];
  }

  // ---------------------------------------------------------- the stamp is for good

  /** Equal digests mean equal decisions. */
  ghost predicate FixesDecision<D, H>(env: Env<D, H>) {
    forall r, t :: env.digest(r) == env.digest(t) ==> r.decision == t.decision
  }

  predicate Approval(request: Request) { request.decision in DECISIONS && request.decision != "rejected" }

  /** A checkpoint of the stamp's actor, clock and digest, and of the decision of its request. */
  predicate Agrees<D(==), H>(c: Checkpoint<D, H>, stamp: Stamp<D>, r: Request, env: Env<D, H>) {
    c.decision == r.decision && c.actor == stamp.approvedBy && stamp.at == Some(c.at) && c.digest == Some(env.digest(r))
  }

  /** The brief carries the stamp of an approval of r, and the checkpoint, if there, agrees with it. */
  predicate Stamped<D(==), H>(disk: Disk<D, H>, r: Request, env: Env<D, H>) {
    && disk.artifact.Some? && disk.artifact.value.stamp.Some?
    && var stamp := disk.artifact.value.stamp.value;
    && Approval(r) && stamp.digest == Some(env.digest(r)) && stamp.at.Some?
    && (disk.gate.Some? ==> Agrees(disk.gate.value, stamp, r, env))
  }

  /** A write that neither moves the stamped brief nor unsettles its checkpoint. */
  predicate Keeps<D(==), H(==)>(write: Write<D, H>, artifact: Artifact<D>, checkpoint: Checkpoint<D, H>) {
    match write
    case Emit(_) => true
    case WriteBrief(written) => written == artifact
    case CheckpointGate(c) => c == checkpoint
    case _ => false
  }

  /** The gap lines of the log, in order. */
  function GapLines(log: seq<Line>): seq<GapLine> {
    if log == [] then []
    else
      var rest := GapLines(log[..|log| - 1]);
      if log[|log| - 1].GapLogged? then rest + [log[|log| - 1].line] else rest
  }

  /** The gap lines among writes. */
  function GapsIn<D, H>(writes: seq<Write<D, H>>): seq<GapLine> {
    if writes == [] then []
    else
      var rest, last := GapsIn(writes[..|writes| - 1]), writes[|writes| - 1];
      if last.Emit? && last.line.GapLogged? then rest + [last.line.line] else rest
  }

  lemma {:induction false} LandGaps<D, H>(disk: Disk<D, H>, writes: seq<Write<D, H>>)
    ensures GapLines(Land(Apply, disk, writes).log) == GapLines(disk.log) + GapsIn(writes)
  {
    if writes != [] {
      var front, last := writes[..|writes| - 1], writes[|writes| - 1];
      LandGaps(disk, front);
      if last.Emit? { GapLinesPush(Land(Apply, disk, front).log, last.line); }
    }
  }

  predicate NoGapLine<D, H>(write: Write<D, H>) { write.Emit? ==> !write.line.GapLogged? }

  lemma {:induction false} NoGapsIn<D, H>(writes: seq<Write<D, H>>)
    requires forall w | w in writes :: NoGapLine(w)
    ensures GapsIn(writes) == []
  {
    if writes != [] {
      var front, last := writes[..|writes| - 1], writes[|writes| - 1];
      assert writes == front + [last] && NoGapLine(last);
      NoGapsIn(front);
    }
  }

  lemma GapLinesPush(log: seq<Line>, line: Line)
    ensures GapLines(log + [line]) == if line.GapLogged? then GapLines(log) + [line.line] else GapLines(log)
  {
    assert (log + [line])[..|log|] == log;
  }

  /** What such writes leave as it was. */
  predicate SameBut<D(==), H(==)>(disk: Disk<D, H>, after: Disk<D, H>) {
    && after.artifact == disk.artifact && after.bidBrief == disk.bidBrief && after.intake == disk.intake
    && after.rejection == disk.rejection && after.pings == disk.pings && after.frozen == disk.frozen
  }

  lemma {:induction false} LandKeeps<D, H>(disk: Disk<D, H>, writes: seq<Write<D, H>>, artifact: Artifact<D>,
                                           checkpoint: Checkpoint<D, H>)
    requires disk.artifact == Some(artifact) && (disk.gate.Some? ==> disk.gate.value == checkpoint)
    requires forall w | w in writes :: Keeps(w, artifact, checkpoint)
    ensures var after := Land(Apply, disk, writes);
            && SameBut(disk, after) && (after.gate.Some? ==> after.gate.value == checkpoint)
            && (disk.gate.Some? || CheckpointGate(checkpoint) in writes ==> after.gate.Some?)
  {
    if writes != [] {
      var front, last := writes[..|writes| - 1], writes[|writes| - 1];
      assert writes == front + [last] && Keeps(last, artifact, checkpoint);
      LandKeeps(disk, front, artifact, checkpoint);
    }
  }

  /** The checkpoint the stamp calls for. */
  function Promised<D, H>(disk: Disk<D, H>, r: Request, env: Env<D, H>): Checkpoint<D, H>
    requires disk.artifact.Some? && disk.artifact.value.stamp.Some? && disk.artifact.value.stamp.value.at.Some?
  {
    var stamp := disk.artifact.value.stamp.value;
    Agreed(disk.artifact.value, r.decision, stamp.approvedBy, stamp.at.value, env.digest(r), env)
  }

  predicate SameRequest<D(==), H>(disk: Disk<D, H>, s: Submission, env: Env<D, H>) {
    && disk.artifact.Some? && disk.artifact.value.stamp.Some?
    && s.actor == disk.artifact.value.stamp.value.approvedBy
    && Some(env.digest(s.request)) == disk.artifact.value.stamp.value.digest
  }

  /** Once stamped, a well-formed call raises exactly when it is another request, and then writes
      nothing; the same request writes the same brief and the promised checkpoint. */
  lemma StampedAttempt<D, H>(disk: Disk<D, H>, s: Submission, r: Request, env: Env<D, H>)
    requires FixesDecision(env) && Stamped(disk, r, env)
    ensures var attempt := AttemptOf(disk, s, env);
            && (WellFormed(s) ==> (attempt.raised <==> !SameRequest(disk, s, env)))
            && (attempt.raised || disk.gate.Some? ==> attempt.writes == [])
            && (forall w | w in attempt.writes :: Keeps(w, disk.artifact.value, Promised(disk, r, env)) && NoGapLine(w))
            && (!attempt.raised && disk.gate.None? ==> CheckpointGate(Promised(disk, r, env)) in attempt.writes)
  {
    if WellFormed(s) && SameRequest(disk, s, env) && disk.gate.None? {
      var writes := AttemptOf(disk, s, env).writes;
      assert s.request.decision == r.decision;
      assert writes == Approving(disk.artifact.value, [], s, disk.artifact.value.stamp.value.at.value, env);
      assert writes[4] == CheckpointGate(Promised(disk, r, env));
    }
  }

  lemma CutKeeps<D, H>(writes: seq<Write<D, H>>, k: nat, artifact: Artifact<D>, checkpoint: Checkpoint<D, H>)
    requires forall w | w in writes :: Keeps(w, artifact, checkpoint)
    ensures forall w | w in Cut(writes, k) :: Keeps(w, artifact, checkpoint)
  {
  }

  /** A submission on a stamped brief: nothing moves but the log, and the checkpoint if it was missing. */
  lemma SubmitKeeps<D, H>(disk: Disk<D, H>, s: Submission, k: nat, r: Request, env: Env<D, H>)
    requires FixesDecision(env) && Stamped(disk, r, env)
    ensures var after := Step(disk, Submit(s, k), env);
            && SameBut(disk, after) && GapLines(after.log) == GapLines(disk.log)
            && (disk.gate.Some? ==> after.gate == disk.gate)
            && (disk.gate.None? && after.gate.Some? ==> after.gate.value == Promised(disk, r, env))
  {
    StampedAttempt(disk, s, r, env);
    if disk.gate.None? {
      var writes := AttemptOf(disk, s, env).writes;
      CutKeeps(writes, k, disk.artifact.value, Promised(disk, r, env));
      LandKeeps(disk, Cut(writes, k), disk.artifact.value, Promised(disk, r, env));
      LandGaps(disk, Cut(writes, k));
      assert forall w | w in Cut(writes, k) :: w in writes;
      NoGapsIn(Cut(writes, k));
    }
  }

  /** The stamp and every gated field but the gaps are the same. */
  predicate SameCore<D(==)>(a: Artifact<D>, b: Artifact<D>) {
    && a.stamp == b.stamp && a.brief.parents == b.brief.parents
    && a.brief.values == b.brief.values && a.brief.register == b.brief.register
  }

  lemma ReplyLands<D, H>(disk: Disk<D, H>, id: string, text: string, from: string, at: string, k: nat)
    ensures var after := Land(Apply, disk, Cut(ReplyWrites(disk, id, text, from, at), k));
            if k == 0 || ReplyWrites(disk, id, text, from, at) == [] then after == disk
            else if k == 1 then after == disk.(pings := disk.pings - multiset{id})
            else
              var artifact := disk.artifact.value;
              var gap := FindGap(artifact.brief.gaps, id).value;
              after == disk.(pings := disk.pings - multiset{id},
                             artifact := Some(artifact.(brief := artifact.brief.(gaps :=
                               SetGap(artifact.brief.gaps, Replied(gap, text, from, at))))))
  {
    var writes: seq<Write<D, H>> := ReplyWrites(disk, id, text, from, at);
    if writes != [] {
      LandOne(disk, writes[0]);
      assert writes[..1] == [writes[0]];
      assert Cut(writes, k) == if k == 0 then [] else if k == 1 then writes[..1] else writes;
    }
  }

  lemma StampedStep<D, H>(disk: Disk<D, H>, event: Event, r: Request, env: Env<D, H>)
    requires FixesDecision(env) && Stamped(disk, r, env) && disk.bidBrief
    ensures var after := Step(disk, event, env);
            && Stamped(after, r, env) && after.bidBrief && SameCore(after.artifact.value, disk.artifact.value)
            && (disk.gate.Some? ==> after.gate == disk.gate)
  {
    match event
    case Submit(s, k) => SubmitKeeps(disk, s, k, r, env);
    case Intake(_, _) =>
    case Enrich(rest) => LandOne(disk, WriteBrief(disk.artifact.value.(rest := rest)));
    case Ping(gap) => LandOne(disk, RecordPing(gap));
    case AnswerPing(gap, text, from, at, k) => ReplyLands(disk, gap, text, from, at, k);
    case Freeze => LandOne(disk, FreezeBrief);
  }

  /** The first approval wins for good: over every history of submissions, kills, intakes, pings and
      later stages the stamp, the corrected fields and the register do not move again, and a
      checkpoint, once there, agrees with the stamp and stays. */
  lemma {:induction false} StampIsForGood<D, H>(disk: Disk<D, H>, events: seq<Event>, r: Request, env: Env<D, H>)
    requires FixesDecision(env) && Stamped(disk, r, env) && disk.bidBrief
    ensures var after := After(disk, events, env);
            && Stamped(after, r, env) && after.bidBrief && SameCore(after.artifact.value, disk.artifact.value)
            && (disk.gate.Some? ==> after.gate == disk.gate)
  {
    if events != [] {
      StampIsForGood(disk, events[..|events| - 1], r, env);
      StampedStep(After(disk, events[..|events| - 1], env), events[|events| - 1], r, env);
    }
  }

  /** One uninterrupted submission of the same request, under any clock, completes the gate. */
  lemma SameRequestCompletes<D, H>(disk: Disk<D, H>, s: Submission, r: Request, env: Env<D, H>)
    requires FixesDecision(env) && Stamped(disk, r, env)
    requires WellFormed(s) && SameRequest(disk, s, env)
    ensures var attempt := AttemptOf(disk, s, env);
            var after := Land(Apply, disk, attempt.writes);
            && !attempt.raised && SameBut(disk, after) && GapLines(after.log) == GapLines(disk.log)
            && after.gate == if disk.gate.Some? then disk.gate else Some(Promised(disk, r, env))
  {
    StampedAttempt(disk, s, r, env);
    if disk.gate.None? {
      LandKeeps(disk, AttemptOf(disk, s, env).writes, disk.artifact.value, Promised(disk, r, env));
      LandGaps(disk, AttemptOf(disk, s, env).writes);
      NoGapsIn(AttemptOf(disk, s, env).writes);
    }
  }

  // ------------------------------------------------------------- the gate's answers

  /** The gap is closed, and no question on it is out or the brief takes no more answers. */
  predicate GapSettled<D(==), H(==)>(disk: Disk<D, H>, id: string) {
    && disk.artifact.Some? && FindGap(disk.artifact.value.brief.gaps, id).Some?
    && FindGap(disk.artifact.value.brief.gaps, id).value.status != Open
    && (disk.frozen || disk.pings[id] == 0)
  }

  lemma GapStep<D, H>(disk: Disk<D, H>, event: Event, r: Request, env: Env<D, H>, id: string)
    requires FixesDecision(env) && Stamped(disk, r, env) && disk.bidBrief && GapSettled(disk, id)
    ensures var after := Step(disk, event, env);
            && GapSettled(after, id)
            && FindGap(after.artifact.value.brief.gaps, id) == FindGap(disk.artifact.value.brief.gaps, id)
  {
    match event
    case Submit(s, k) => SubmitKeeps(disk, s, k, r, env);
    case Intake(_, _) =>
    case Enrich(rest) => LandOne(disk, WriteBrief(disk.artifact.value.(rest := rest)));
    case Ping(gap) => LandOne(disk, RecordPing(gap));
    case AnswerPing(gap, text, from, at, k) =>
      ReplyLands(disk, gap, text, from, at, k);
      var found := FindGap(disk.artifact.value.brief.gaps, gap);
      if found.Some? { SetGapFinds(disk.artifact.value.brief.gaps, Replied(found.value, text, from, at), id); }
    case Freeze => LandOne(disk, FreezeBrief);
  }

  lemma {:induction false} SettledGapStands<D, H>(disk: Disk<D, H>, events: seq<Event>, r: Request, env: Env<D, H>,
                                                  id: string)
    requires FixesDecision(env) && Stamped(disk, r, env) && disk.bidBrief && GapSettled(disk, id)
    ensures var after := After(disk, events, env);
            && GapSettled(after, id)
            && FindGap(after.artifact.value.brief.gaps, id) == FindGap(disk.artifact.value.brief.gaps, id)
  {
    if events != [] {
      var front := events[..|events| - 1];
      SettledGapStands(disk, front, r, env, id);
      StampIsForGood(disk, front, r, env);
      GapStep(After(disk, front, env), events[|events| - 1], r, env, id);
    }
  }

  ghost predicate GapEndures<D, H>(disk: Disk<D, H>, env: Env<D, H>, id: string)
    requires disk.artifact.Some?
  {
    forall events :: var after := After(disk, events, env);
      after.artifact.Some?
          && FindGap(after.artifact.value.brief.gaps, id) == FindGap(disk.artifact.value.brief.gaps, id)
  }

  lemma RunOne<D, H>(disk: Disk<D, H>, event: Event, env: Env<D, H>)
    ensures After(disk, [event], env) == Step(disk, event, env)
  {
    assert [event][..0] == [];
  }

  /** Some answer other than the gap's own. */
  function Otherwise(gap: Gap): string { if gap.answer == Some("a") then "b" else "a" }

  lemma OtherwiseSays(gap: Gap)
    ensures !Blank(Otherwise(gap)) && gap.answer != Some(Otherwise(gap))
  {
    assert Otherwise(gap)[0] == 'a' || Otherwise(gap)[0] == 'b';
    assert Otherwise(gap)[0] in Otherwise(gap);
  }

  lemma ReplyOverwrites<D, H>(disk: Disk<D, H>, env: Env<D, H>, id: string)
    requires disk.artifact.Some? && FindGap(disk.artifact.value.brief.gaps, id).Some? && !disk.frozen
        && disk.pings[id] > 0
    ensures var gap := FindGap(disk.artifact.value.brief.gaps, id).value;
            var after := Step(disk, AnswerPing(id, Otherwise(gap), "", "", 2), env);
            after.artifact.Some? && FindGap(after.artifact.value.brief.gaps, id) != Some(gap)
  {
    var gap := FindGap(disk.artifact.value.brief.gaps, id).value;
    OtherwiseSays(gap);
    ReplyLands(disk, id, Otherwise(gap), "", "", 2);
    SetGapFinds(disk.artifact.value.brief.gaps, Replied(gap, Otherwise(gap), "", ""), id);
  }

  /** What the gate made of a gap outlives every history exactly when no question on it was still
      out, or the brief was frozen: an expert's late answer writes over the gate's answer or skip. */
  lemma GateAnswerEnduresIff<D, H>(disk: Disk<D, H>, r: Request, env: Env<D, H>, id: string)
    requires FixesDecision(env) && Stamped(disk, r, env) && disk.bidBrief
    requires FindGap(disk.artifact.value.brief.gaps, id).Some?
        && FindGap(disk.artifact.value.brief.gaps, id).value.status != Open
    ensures GapEndures(disk, env, id) <==> disk.frozen || disk.pings[id] == 0
  {
    if disk.frozen || disk.pings[id] == 0 {
      forall events ensures var after := After(disk, events, env);
        after.artifact.Some?
            && FindGap(after.artifact.value.brief.gaps, id) == FindGap(disk.artifact.value.brief.gaps, id)
      {
        SettledGapStands(disk, events, r, env, id);
        StampIsForGood(disk, events, r, env);
      }
    } else {
      var event := AnswerPing(id, Otherwise(FindGap(disk.artifact.value.brief.gaps, id).value), "", "", 2);
      ReplyOverwrites(disk, env, id);
      RunOne(disk, event, env);
      assert After(disk, [event], env) == Step(disk, event, env);
    }
  }
}
