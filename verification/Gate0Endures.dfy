/** Exactly when a Gate 0 stamp is for good, and the digest that makes it so. */
module Gate0Endures {
  import opened Durable
  import opened Wrappers
  import opened GateEdits
  import opened Gate0
  import opened Gate0Runs
  import opened Gate0First
  import GateKey

  /** Well-formed stamps and checkpoints: an actor, no rejection on record, and a digest, where
      there is one, taken of an approval. */
  ghost predicate Recorded<D, H>(disk: Disk<D, H>, env: Env<D, H>) {
    && disk.artifact.Some? && disk.artifact.value.stamp.Some?
    && var stamp := disk.artifact.value.stamp.value;
    && stamp.approvedBy != ""
    && (disk.gate.Some? ==> Approvals(disk.gate.value.decision))
    && (stamp.digest.Some? && disk.gate.None? ==>
          stamp.at.Some? && exists r: Request :: Approval(r) && stamp.digest == Some(env.digest(r)))
  }

  predicate Approvals(decision: string) { decision in DECISIONS && decision != "rejected" }

  /** No redo is pending, and either the gate is recorded or the stamp names its request. */
  predicate Settled<D, H>(disk: Disk<D, H>)
    requires disk.artifact.Some? && disk.artifact.value.stamp.Some?
  {
    disk.bidBrief && (disk.gate.Some? || disk.artifact.value.stamp.value.digest.Some?)
  }

  /** The stamp and every gated field but the gaps, over every history. */
  ghost predicate Endures<D, H>(disk: Disk<D, H>, env: Env<D, H>)
    requires disk.artifact.Some?
  {
    forall events :: After(disk, events, env).artifact.Some?
      && SameCore(After(disk, events, env).artifact.value, disk.artifact.value)
  }

  lemma RunTwo<D, H>(disk: Disk<D, H>, a: Event, b: Event, env: Env<D, H>)
    ensures After(disk, [a, b], env) == Step(Step(disk, a, env), b, env)
  {
    RunOne(disk, a, env);
    assert [a, b][..1] == [a];
  }

  /** With a redo pending the next advance reads the package again and the stamp is gone. */
  lemma PendingRedoLosesStamp<D, H>(disk: Disk<D, H>, reread: Brief, env: Env<D, H>)
    requires !disk.bidBrief
    ensures Step(disk, Intake(reread, 3), env).artifact == Some(Artifact(reread, None, ""))
  {
    var writes := IntakeWrites(disk, reread);
    assert Cut(writes, 3) == writes;
    FirstTwo(disk, writes);
    var rest := writes[2..];
    if rest != [] { assert rest[..0] == []; }
  }

  function Redo(actor: string): Submission {
    Submission(Request("rejected", Some("redo"), [], [], []), actor, Some("now"), false)
  }

  /** A stamp without a digest takes any request of its actor, a rejection included. */
  lemma OldStampTakesRejection<D, H>(disk: Disk<D, H>, env: Env<D, H>)
    requires disk.artifact.Some? && disk.artifact.value.stamp.Some? && disk.gate.None?
    requires disk.artifact.value.stamp.value.digest.None? && disk.artifact.value.stamp.value.approvedBy != ""
    ensures !Step(disk, Submit(Redo(disk.artifact.value.stamp.value.approvedBy), 6), env).bidBrief
  {
    var s := Redo(disk.artifact.value.stamp.value.approvedBy);
    assert !Blank("redo") by { assert 'r' in "redo"; }
    var writes := AttemptOf(disk, s, env).writes;
    assert Cut(writes, 6) == writes;
    LandSplit(Apply, disk, writes[..3], writes[3..]);
    assert writes == writes[..3] + writes[3..];
    assert !Land(Apply, disk, writes[..3]).bidBrief by { assert writes[..3][..2] == writes[..2]; }
    TailKeepsBidBrief(Land(Apply, disk, writes[..3]), writes[3..]);
  }

  /** With the gate on record a submission writes nothing, and no other writer touches the core. */
  lemma RecordedStep<D, H>(disk: Disk<D, H>, event: Event, env: Env<D, H>)
    requires Recorded(disk, env) && disk.gate.Some? && disk.bidBrief
    ensures var after := Step(disk, event, env);
            && Recorded(after, env) && after.gate.Some? && after.bidBrief
            && SameCore(after.artifact.value, disk.artifact.value)
  {
    match event
    case Submit(_, _) =>
    case Intake(_, _) =>
    case Enrich(rest) => LandOne(disk, WriteBrief(disk.artifact.value.(rest := rest)));
    case Ping(gap) => LandOne(disk, RecordPing(gap));
    case AnswerPing(gap, text, from, at, k) => ReplyLands(disk, gap, text, from, at, k);
    case Freeze => LandOne(disk, FreezeBrief);
  }

  lemma {:induction false} GateRecordedEndures<D, H>(disk: Disk<D, H>, events: seq<Event>, env: Env<D, H>)
    requires Recorded(disk, env) && disk.gate.Some? && disk.bidBrief
    ensures var after := After(disk, events, env);
            && Recorded(after, env) && after.gate.Some? && after.bidBrief
            && SameCore(after.artifact.value, disk.artifact.value)
  {
    if events != [] {
      GateRecordedEndures(disk, events[..|events| - 1], env);
      RecordedStep(After(disk, events[..|events| - 1], env), events[|events| - 1], env);
    }
  }

  /** The stamped brief outlives every history exactly when it is settled: a rejection whose redo
      is still pending, or a stamp older than the digest, lets a later intake replace it. */
  lemma StampEnduresIff<D, H>(disk: Disk<D, H>, env: Env<D, H>)
    requires FixesDecision(env) && Recorded(disk, env)
    ensures Endures(disk, env) <==> Settled(disk)
  {
    var reread := Brief({}, map[], [], []);
    if !disk.bidBrief {
      PendingRedoLosesStamp(disk, reread, env);
      RunOne(disk, Intake(reread, 3), env);
      assert !Endures(disk, env) by { assert After(disk, [Intake(reread, 3)], env).artifact.value.stamp.None?; }
    } else if disk.gate.Some? {
      forall events ensures After(disk, events, env).artifact.Some?
          && SameCore(After(disk, events, env).artifact.value, disk.artifact.value)
      {
        GateRecordedEndures(disk, events, env);
      }
    } else if disk.artifact.value.stamp.value.digest.None? {
      var redo := Submit(Redo(disk.artifact.value.stamp.value.approvedBy), 6);
      OldStampTakesRejection(disk, env);
      PendingRedoLosesStamp(Step(disk, redo, env), reread, env);
      RunTwo(disk, redo, Intake(reread, 3), env);
      assert !Endures(disk, env) by { assert After(disk, [redo, Intake(reread, 3)], env).artifact.value.stamp.None?; }
    } else {
      var r :| Approval(r) && disk.artifact.value.stamp.value.digest == Some(env.digest(r));
      forall events ensures After(disk, events, env).artifact.Some?
          && SameCore(After(disk, events, env).artifact.value, disk.artifact.value)
      {
        StampIsForGood(disk, events, r, env);
      }
    }
  }

  // ------------------------------------------------------------------ the digest

  /** The semantic fields of a request; `rest` encodes all of them but the decision. */
  function FieldsOf(r: Request, rest: Request -> map<string, GateKey.Json>): map<string, GateKey.Json> {
    rest(r)["decision" := GateKey.Str(r.decision)]
  }

  /** An injective hash of the pruned fields is a digest that fixes the decision, as long as the
      decision is not empty, which the gate checks first. */
  lemma DigestFixesDecision<D(!new)>(r: Request, t: Request, rest: Request -> map<string, GateKey.Json>,
                                     hash: map<string, GateKey.Json> -> D)
    requires GateKey.Injective(hash)
    requires GateKey.Canon(FieldsOf(r, rest)).Ok? && GateKey.Canon(FieldsOf(t, rest)).Ok?
    requires hash(GateKey.Canon(FieldsOf(r, rest)).value) == hash(GateKey.Canon(FieldsOf(t, rest)).value)
    ensures r.decision == t.decision
  {
    var fs, gs := FieldsOf(r, rest), FieldsOf(t, rest);
    GateKey.DigestDecides(fs, gs, hash);
    assert fs["decision"] == GateKey.Str(r.decision) && gs["decision"] == GateKey.Str(t.decision);
    assert GateKey.SameRequest(fs["decision"], gs["decision"]);
  }
}
