/**
  Gate 0 (engine/intake/gate.py, approve_gate0): a stamp on the brief, log lines and a checkpoint,
  written one durable write at a time, any of which a kill may be the last to land.
 */
module Gate0 {
  import opened Durable
  import opened Wrappers
  import opened GateEdits
  import GateKey

  datatype Request = Request(decision: string, notes: Option<string>, corrections: seq<Correction>,
                             answers: seq<Answer>, skips: seq<string>)

  /** `at` is None when the clock is not ISO 8601. */
  datatype Submission = Submission(request: Request, actor: string, at: Option<string>, auto: bool)

  /** Stamps written before the digest existed carry none. */
  datatype Stamp<D> = Stamp(approvedBy: string, at: Option<string>, digest: Option<D>, notes: Option<string>)

  /** `rest` is what later stages write beside the gated fields: research, themes, status. */
  datatype Artifact<D> = Artifact(brief: Brief, stamp: Option<Stamp<D>>, rest: string)

  datatype Checkpoint<D, H> = Checkpoint(decision: string, actor: string, at: string, sha: H, digest: Option<D>)

  datatype Line =
    | StageStart
    | StageEnd
    | BriefWritten
    | GapLogged(line: GapLine)
    | GateLogged(decision: string, actor: string, notes: Option<string>)

  datatype Rejection = Rejection(actor: string, at: string, notes: Option<string>)

  /** The durable state of a pursuit the gate touches.  `pings` counts the questions out on each gap
      and not answered yet; `frozen` is Gate 1's copy of the brief. */
  datatype Disk<D, H> = Disk(
    artifact: Option<Artifact<D>>,
    log: seq<Line>,
    intake: bool,
    bidBrief: bool,
    rejection: Option<Rejection>,
    gate: Option<Checkpoint<D, H>>,
    pings: multiset<string>,
    frozen: bool)

  datatype Write<D, H> =
    | Emit(line: Line)
    | WriteBrief(artifact: Artifact<D>)
    | ClearIntake
    | ClearBidBrief
    | CheckpointIntake
    | CheckpointBidBrief
    | CheckpointRejection(rejection: Rejection)
    | CheckpointGate(checkpoint: Checkpoint<D, H>)
    | RecordPing(gap: string)
    | RecordAnswer(gap: string)
    | FreezeBrief

  /** The weight parser, and the brief's schema.  The schema is asked of the corrected brief: what
      gap actions, confirmations and the stamp put there are texts and listed states it takes. */
  datatype Rules = Rules(parse: Parse, fits: Brief -> bool)

  /** The request digest, the hash of a brief's bytes, and the rules of its edits. */
  datatype Env<!D, !H> = Env(digest: Request -> D, sha: Artifact<D> -> H, rules: Rules)

  // ---------------------------------------------------------------- the brief

  const DECISIONS := {"approved", "approved_with_edits", "rejected", "auto_approved"}

  function Confirm(entry: Entry): Entry {
    if entry.status == Unconfirmed then entry.(status := EntryStatus.Confirmed) else entry
  }

  function Confirmed(entries: seq<Entry>): seq<Entry> {
    seq(|entries|, i requires 0 <= i < |entries| => Confirm(entries[i]))
  }

  function Blanket(brief: Brief, decision: string): Brief {
    if decision == "approved" || decision == "approved_with_edits"
    then brief.(register := Confirmed(brief.register)) else brief
  }

  const UNFIT := "the brief fails its schema"

  /** The brief after every edit of the request, or the refusal of the first that fails; a brief that
      its schema refuses is never written. */
  function Edited(brief: Brief, request: Request, actor: string, at: string, rules: Rules): Result<Brief, string> {
    match CorrectTo(brief, request.corrections, actor, rules.parse, |request.corrections|)
    case Raised(why) => Raised(why)
    case Ok(corrected) =>
      match ActTo(corrected.gaps, request.answers, request.skips, actor, at, |request.answers| + |request.skips|)
      case Raised(why) => Raised(why)
      case Ok(gaps) =>
        if !rules.fits(corrected) then Raised(UNFIT) else Ok(Blanket(corrected.(gaps := gaps), request.decision))
  }

  function Said(notes: Option<string>): Option<string> {
    if notes.Some? && notes.value == "" then None else notes
  }

  /** Blanket confirmation, entry by entry. */
  method ConfirmAll(entries: seq<Entry>) returns (register: seq<Entry>)
    ensures register == Confirmed(entries)
  {
    register := entries;
    for i := 0 to |entries|
      invariant |register| == |entries|
      invariant forall j | 0 <= j < |register| :: register[j] == if j < i then Confirm(entries[j]) else entries[j]
    {
      if register[i].status == Unconfirmed {
        register := register[i := register[i].(status := EntryStatus.Confirmed)];
      }
    }
  }

  method EditBrief(given: Brief, request: Request, actor: string, at: string, rules: Rules)
    returns (r: Result<Brief, string>, lines: seq<GapLine>)
    ensures r == Edited(given, request, actor, at, rules)
    ensures r.Ok? ==> lines == LinesTo(request.answers, request.skips, at, |request.answers| + |request.skips|)
  {
    lines := [];
    r := ApplyCorrections(given, request.corrections, actor, rules.parse);
    if r.Raised? { return; }
    var brief := r.value;
    var fits := rules.fits(brief);
    var acted;
    acted, lines := ApplyGapActions(brief.gaps, request.answers, request.skips, actor, at);
    if acted.Raised? { return Raised(acted.why), []; }
    brief := brief.(gaps := acted.value);
    if request.decision == "approved" || request.decision == "approved_with_edits" {
      var register := ConfirmAll(brief.register);
      brief := brief.(register := register);
    }
    if !fits { return Raised(UNFIT), []; }
    return Ok(brief), lines;
  }

  // ---------------------------------------------------------------- an attempt

  /** The writes a call would make in order, and whether it ends in a refusal. */
  datatype Attempt<D, H> = Attempt(writes: seq<Write<D, H>>, raised: bool)

  predicate WellFormed(s: Submission) {
    && s.request.decision in DECISIONS
    && (s.request.decision == "auto_approved") == s.auto
    && s.actor != ""
    && s.at.Some?
    && (s.request.decision == "approved_with_edits"
        ==> s.request.corrections != [] || s.request.answers != [] || s.request.skips != [])
    && (s.request.decision == "rejected" ==> s.request.notes.Some? && !Blank(s.request.notes.value))
  }

  function OfGate<D, H>(c: Checkpoint<D, H>): GateKey.Record<D> {
    GateKey.Record(Some(c.decision), Some(c.actor), c.digest)
  }

  function OfStamp<D>(stamp: Stamp<D>): GateKey.Record<D> {
    GateKey.Record(None, Some(stamp.approvedBy), stamp.digest)
  }

  function Rejecting<D, H>(s: Submission, at: string): seq<Write<D, H>> {
    [Emit(StageStart), ClearIntake, ClearBidBrief, Emit(GateLogged(s.request.decision, s.actor, s.request.notes)),
     CheckpointRejection(Rejection(s.actor, at, s.request.notes)), Emit(StageEnd)]
  }

  function GapWrites<D, H>(lines: seq<GapLine>): seq<Write<D, H>> {
    seq(|lines|, i requires 0 <= i < |lines| => Emit(GapLogged(lines[i])))
  }

  function Agreed<D, H>(artifact: Artifact<D>, decision: string, actor: string, at: string, digest: D, env: Env<D, H>)
    : Checkpoint<D, H>
  {
    Checkpoint(decision, actor, at, env.sha(artifact), Some(digest))
  }

  function Approving<D, H>(artifact: Artifact<D>, lines: seq<GapLine>, s: Submission, at: string, env: Env<D, H>)
    : seq<Write<D, H>>
  {
    [Emit(StageStart), WriteBrief(artifact), Emit(BriefWritten)]
    + GapWrites(lines)
    + [Emit(GateLogged(s.request.decision, s.actor, Said(s.request.notes))),
       CheckpointGate(Agreed(artifact, s.request.decision, s.actor, at, env.digest(s.request), env)),
       Emit(StageEnd)]
  }

  function StampOf<D, H>(s: Submission, at: string, env: Env<D, H>): Stamp<D> {
    Stamp(s.actor, Some(at), Some(env.digest(s.request)), Said(s.request.notes))
  }

  function Deciding<D(==), H>(artifact: Artifact<D>, s: Submission, env: Env<D, H>): Attempt<D, H>
    requires s.at.Some?
  {
    var digest := env.digest(s.request);
    if artifact.stamp.Some? && !GateKey.SameDecision(OfStamp(artifact.stamp.value), None, s.actor, digest)
    then Attempt([], true)
    else
      // a resumed approval completes with the stamp's clock
      var at := if artifact.stamp.Some? && artifact.stamp.value.at.Some? then artifact.stamp.value.at.value
          else s.at.value;
      if s.request.decision == "rejected" then Attempt(Rejecting(s, at), false)
      else if artifact.stamp.Some? then Attempt(Approving(artifact, [], s, at, env), false)
      else
        match Edited(artifact.brief, s.request, s.actor, at, env.rules)
        case Raised(_) => Attempt([Emit(StageStart)], true)
        case Ok(brief) =>
          var lines := LinesTo(s.request.answers, s.request.skips, at, |s.request.answers| + |s.request.skips|);
          Attempt(Approving(artifact.(brief := brief, stamp := Some(StampOf(s, at, env))), lines, s, at, env), false)
  }

  function AttemptOf<D(==), H>(disk: Disk<D, H>, s: Submission, env: Env<D, H>): Attempt<D, H> {
    if !WellFormed(s) || disk.artifact.None? then Attempt([], true)
    else if disk.gate.Some? then
      Attempt([],
          !GateKey.SameDecision(OfGate(disk.gate.value), Some(s.request.decision), s.actor, env.digest(s.request)))
    else Deciding(disk.artifact.value, s, env)
  }

  function Apply<D, H>(disk: Disk<D, H>, write: Write<D, H>): Disk<D, H> {
    match write
    case Emit(line) => disk.(log := disk.log + [line])
    case WriteBrief(artifact) => disk.(artifact := Some(artifact))
    case ClearIntake => disk.(intake := false)
    case ClearBidBrief => disk.(bidBrief := false)
    case CheckpointIntake => disk.(intake := true)
    case CheckpointBidBrief => disk.(bidBrief := true)
    case CheckpointRejection(rejection) => disk.(rejection := Some(rejection))
    case CheckpointGate(checkpoint) => disk.(gate := Some(checkpoint))
    case RecordPing(gap) => disk.(pings := disk.pings + multiset{gap})
    case RecordAnswer(gap) => disk.(pings := disk.pings - multiset{gap})
    case FreezeBrief => disk.(frozen := true)
  }

  // ------------------------------------------------------------------ the call

  datatype End = Refused | Killed | Finished

  type Pursuit<!D(==), !H(==)> = Volume<Disk<D, H>, Write<D, H>>

  /** The redo door: nothing is stamped, and the cleared checkpoints make intake run again. */
  method Reject<D(==), H(==)>(pursuit: Pursuit<D, H>, s: Submission, at: string) returns (alive: bool)
    requires pursuit.Valid() && pursuit.owed == Rejecting(s, at) && |pursuit.landed| == 1
    modifies pursuit
    ensures pursuit.Valid() && pursuit.owed == old(pursuit.owed) && pursuit.Ended(alive)
  {
    alive := pursuit.Do(ClearIntake);
    if !alive { return; }
    alive := pursuit.Do(ClearBidBrief);
    if !alive { return; }
    alive := pursuit.Do(Emit(GateLogged(s.request.decision, s.actor, s.request.notes)));
    if !alive { return; }
    alive := pursuit.Do(CheckpointRejection(Rejection(s.actor, at, s.request.notes)));
    if !alive { return; }
    alive := pursuit.Do(Emit(StageEnd));
  }

  method EmitGaps<D(==), H(==)>(pursuit: Pursuit<D, H>, lines: seq<GapLine>) returns (alive: bool)
    requires pursuit.Valid() && |pursuit.landed| + |lines| < |pursuit.owed|
    requires forall k | 0 <= k < |lines| :: pursuit.owed[|pursuit.landed| + k] == Emit(GapLogged(lines[k]))
    modifies pursuit
    ensures pursuit.Valid() && pursuit.owed == old(pursuit.owed)
    ensures if alive then |pursuit.landed| == old(|pursuit.landed|) + |lines| else pursuit.Ended(false)
  {
    alive := true;
    for k := 0 to |lines|
      invariant pursuit.Valid() && pursuit.owed == old(pursuit.owed) && alive
      invariant |pursuit.landed| == old(|pursuit.landed|) + k
    {
      alive := pursuit.Do(Emit(GapLogged(lines[k])));
      if !alive { return; }
    }
  }

  /** Brief, then log, then checkpoint. */
  method Record<D(==), H(==)>(pursuit: Pursuit<D, H>, artifact: Artifact<D>, lines: seq<GapLine>, s: Submission,
                              at: string, env: Env<D, H>)
    returns (alive: bool)
    requires pursuit.Valid() && pursuit.owed == Approving(artifact, lines, s, at, env) && |pursuit.landed| == 1
    modifies pursuit
    ensures pursuit.Valid() && pursuit.owed == old(pursuit.owed) && pursuit.Ended(alive)
  {
    alive := pursuit.Do(WriteBrief(artifact));
    if !alive { return; }
    alive := pursuit.Do(Emit(BriefWritten));
    if !alive { return; }
    alive := EmitGaps(pursuit, lines);
    if !alive { return; }
    alive := pursuit.Do(Emit(GateLogged(s.request.decision, s.actor, Said(s.request.notes))));
    if !alive { return; }
    alive := pursuit.Do(CheckpointGate(Agreed(artifact, s.request.decision, s.actor, at, env.digest(s.request), env)));
    if !alive { return; }
    alive := pursuit.Do(Emit(StageEnd));
  }

  /** Past the idempotency checks: what is left of the attempt after its first log line. */
  method Decide<D(==), H(==)>(pursuit: Pursuit<D, H>, given: Artifact<D>, s: Submission, at: string, env: Env<D, H>)
    returns (end: End)
    requires pursuit.Valid() && s.at.Some? && |pursuit.landed| == 1 && pursuit.owed == Deciding(given, s, env).writes
    requires at == if given.stamp.Some? && given.stamp.value.at.Some? then given.stamp.value.at.value else s.at.value
    requires given.stamp.Some?
        ==> GateKey.SameDecision(OfStamp(given.stamp.value), None, s.actor, env.digest(s.request))
    modifies pursuit
    ensures pursuit.Valid() && pursuit.owed == old(pursuit.owed) && pursuit.Ended(end != Killed)
    ensures end != Killed ==> end == if Deciding(given, s, env).raised then Refused else Finished
  {
    var alive;
    if s.request.decision == "rejected" {
      alive := Reject(pursuit, s, at);
    } else if given.stamp.Some? {
      alive := Record(pursuit, given, [], s, at, env);
    } else {
      var edited, lines := EditBrief(given.brief, s.request, s.actor, at, env.rules);
      if edited.Raised? { return Refused; }
      alive := Record(pursuit, given.(brief := edited.value, stamp := Some(StampOf(s, at, env))), lines, s, at, env);
    }
    return if alive then Finished else Killed;
  }

  /** Any prefix of the attempt's writes lands, as the budget has it. */
  method ApproveGate0<D(==), H(==)>(pursuit: Pursuit<D, H>, s: Submission, env: Env<D, H>) returns (end: End)
    requires pursuit.Valid() && pursuit.landed == [] && pursuit.apply == Apply
    modifies pursuit
    ensures var attempt := AttemptOf(old(pursuit.disk), s, env);
            && pursuit.disk == Land(Apply, old(pursuit.disk), Cut(attempt.writes, old(pursuit.budget)))
            && (end == Killed <==> old(pursuit.budget) < |attempt.writes|)
            && (end != Killed ==> end == if attempt.raised then Refused else Finished)
  {
    pursuit.owed := AttemptOf(pursuit.disk, s, env).writes;
    end := Submitted(pursuit, s, env);
    CallLands(pursuit, end != Killed);
  }

  method Submitted<D(==), H(==)>(pursuit: Pursuit<D, H>, s: Submission, env: Env<D, H>) returns (end: End)
    requires pursuit.Valid() && pursuit.landed == [] && pursuit.owed == AttemptOf(pursuit.disk, s, env).writes
    modifies pursuit
    ensures pursuit.Valid() && pursuit.owed == old(pursuit.owed) && pursuit.Ended(end != Killed)
    ensures end != Killed ==> end == if AttemptOf(old(pursuit.disk), s, env).raised then Refused else Finished
  {
    if !WellFormed(s) || pursuit.disk.artifact.None? { return Refused; }
    var digest := env.digest(s.request);
    if pursuit.disk.gate.Some? {
      var same := GateKey.SameDecision(OfGate(pursuit.disk.gate.value), Some(s.request.decision), s.actor, digest);
      return if same then Finished else Refused;
    }
    var artifact, at := pursuit.disk.artifact.value, s.at.value;
    if artifact.stamp.Some? {
      if !GateKey.SameDecision(OfStamp(artifact.stamp.value), None, s.actor, digest) { return Refused; }
      if artifact.stamp.value.at.Some? { at := artifact.stamp.value.at.value; }
    }
    var alive := pursuit.Do(Emit(StageStart));
    if !alive { return Killed; }
    end := Decide(pursuit, artifact, s, at, env);
  }
}
