/** How many gate lines a resubmitted approval leaves in the log (engine/intake/gate.py). */
module Gate0Lines {
  import opened Durable
  import opened Wrappers
  import opened Gate0
  import GateEdits
  import opened Gate0Runs
  import opened Gate0First

  /** The gate lines of a log, and those among writes. */
  function GateLines(log: seq<Line>): nat {
    if log == [] then 0
    else GateLines(log[..|log| - 1]) + if log[|log| - 1].GateLogged? then 1 else 0
  }

  predicate IsGateLine<D, H>(write: Write<D, H>) { write.Emit? && write.line.GateLogged? }

  function GatesIn<D, H>(writes: seq<Write<D, H>>): nat {
    if writes == [] then 0
    else GatesIn(writes[..|writes| - 1]) + if IsGateLine(writes[|writes| - 1]) then 1 else 0
  }

  lemma GateLinesPush(log: seq<Line>, line: Line)
    ensures GateLines(log + [line]) == GateLines(log) + if line.GateLogged? then 1 else 0
  {
    assert (log + [line])[..|log|] == log;
  }

  lemma {:induction false} LandGates<D, H>(disk: Disk<D, H>, writes: seq<Write<D, H>>)
    ensures GateLines(Land(Apply, disk, writes).log) == GateLines(disk.log) + GatesIn(writes)
  {
    if writes != [] {
      var front, last := writes[..|writes| - 1], writes[|writes| - 1];
      LandGates(disk, front);
      if last.Emit? { GateLinesPush(Land(Apply, disk, front).log, last.line); }
    }
  }

  predicate Checkpoints<D, H>(writes: seq<Write<D, H>>) {
    writes != [] && (Checkpoints(writes[..|writes| - 1]) || writes[|writes| - 1].CheckpointGate?)
  }

  lemma ApplyGate<D, H>(disk: Disk<D, H>, write: Write<D, H>)
    ensures Apply(disk, write).gate.Some? <==> disk.gate.Some? || write.CheckpointGate?
  {
  }

  lemma {:induction false} LandCheckpoints<D, H>(disk: Disk<D, H>, writes: seq<Write<D, H>>)
    ensures Land(Apply, disk, writes).gate.Some? <==> disk.gate.Some? || Checkpoints(writes)
  {
    if writes != [] {
      var front, last := writes[..|writes| - 1], writes[|writes| - 1];
      LandCheckpoints(disk, front);
      ApplyGate(Land(Apply, disk, front), last);
    }
  }

  lemma {:induction false} OneCheckpoint<D, H>(writes: seq<Write<D, H>>, c: nat, k: nat)
    requires k <= |writes| && forall j | 0 <= j < |writes| :: writes[j].CheckpointGate? <==> j == c
    ensures Checkpoints(writes[..k]) <==> k > c
  {
    if k > 0 {
      OneCheckpoint(writes, c, k - 1);
      assert writes[..k][..k - 1] == writes[..k - 1];
    }
  }

  /** Of writes with one gate line, at g, the first k hold it or not. */
  lemma {:induction false} OneGate<D, H>(writes: seq<Write<D, H>>, g: nat, k: nat)
    requires k <= |writes| && forall j | 0 <= j < |writes| :: IsGateLine(writes[j]) <==> j == g
    ensures GatesIn(writes[..k]) == if k > g then 1 else 0
  {
    if k > 0 {
      OneGate(writes, g, k - 1);
      assert writes[..k][..k - 1] == writes[..k - 1];
    }
  }

  /** An approval cut at k: its gate line follows the gap lines, its checkpoint the gate line. */
  lemma ApprovalCut<D, H>(disk: Disk<D, H>, artifact: Artifact<D>, lines: seq<GateEdits.GapLine>, s: Submission,
                          at: string, k: nat, env: Env<D, H>)
    requires disk.gate.None?
    ensures var after := Land(Apply, disk, Cut(Approving(artifact, lines, s, at, env), k));
            && GateLines(after.log) == GateLines(disk.log) + (if k >= 4 + |lines| then 1 else 0)
            && (after.gate.Some? <==> k >= 5 + |lines|)
  {
    var writes := Approving(artifact, lines, s, at, env);
    var cut := Cut(writes, k);
    var m := if k < |writes| then k else |writes|;
    assert |writes| == 6 + |lines| && cut == writes[..m];
    OneGate(writes, 3 + |lines|, m);
    OneCheckpoint(writes, 4 + |lines|, m);
    LandGates(disk, cut);
    LandCheckpoints(disk, cut);
  }

  /** Where the gate line of the next try stands: the gap lines are written by the landing try only. */
  function GateAt(s: Submission, front: seq<Try>, last: Try): nat {
    if Landing(front).Some? then 4 else 4 + |LinesOf(s, last.at)|
  }

  /** Some try wrote the checkpoint, which follows the gate line. */
  predicate Checkpointed(s: Submission, tries: seq<Try>) {
    tries != []
    && (var front, last := tries[..|tries| - 1], tries[|tries| - 1];
        Checkpointed(s, front) || last.k > GateAt(s, front, last))
  }

  /** The tries that reached the gate line before any wrote the checkpoint. */
  function GateTries(s: Submission, tries: seq<Try>): nat {
    if tries == [] then 0
    else
      var front, last := tries[..|tries| - 1], tries[|tries| - 1];
      GateTries(s, front) + if !Checkpointed(s, front) && last.k >= GateAt(s, front, last) then 1 else 0
  }

  ghost predicate Counted<D, H>(disk: Disk<D, H>, after: Disk<D, H>, s: Submission, tries: seq<Try>) {
    && GateLines(after.log) == GateLines(disk.log) + GateTries(s, tries)
    && (after.gate.Some? <==> Checkpointed(s, tries))
  }

  predicate GateStep<D, H>(before: Disk<D, H>, after: Disk<D, H>, k: nat, g: nat) {
    && GateLines(after.log) == GateLines(before.log) + (if before.gate.None? && k >= g then 1 else 0)
    && (after.gate.Some? <==> before.gate.Some? || k > g)
  }

  lemma LandedTryCounts<D, H>(before: Disk<D, H>, again: Submission, r: Request, k: nat, env: Env<D, H>)
    requires FixesDecision(env) && WellFormed(again) && Stamped(before, r, env) && SameRequest(before, again, env)
    requires again.request == r
    ensures GateStep(before, Step(before, Submit(again, k), env), k, 4)
  {
    StampedAttempt(before, again, r, env);
    if before.gate.None? {
      var stamped := before.artifact.value;
      assert AttemptOf(before, again, env).writes == Approving(stamped, [], again, stamped.stamp.value.at.value, env);
      ApprovalCut(before, stamped, [], again, stamped.stamp.value.at.value, k, env);
    }
  }

  lemma FirstTryCounts<D, H>(before: Disk<D, H>, artifact: Artifact<D>, s: Submission, last: Try, env: Env<D, H>)
    requires Awaiting(before, artifact) && WellFormed(s) && Approval(s.request)
    requires Edited(artifact.brief, s.request, s.actor, last.at, env.rules).Ok?
    ensures GateStep(before, Step(before, Submit(s.(at := Some(last.at)), last.k), env), last.k,
                     4 + |LinesOf(s, last.at)|)
  {
    var again := s.(at := Some(last.at));
    var approved := Approved(artifact, again, last.at, env);
    assert AttemptOf(before, again, env).writes == Approving(approved, LinesOf(s, last.at), again, last.at, env);
    ApprovalCut(before, approved, LinesOf(s, last.at), again, last.at, last.k, env);
  }

  lemma TryCounts<D, H>(before: Disk<D, H>, artifact: Artifact<D>, s: Submission, front: seq<Try>, last: Try,
                        disk: Disk<D, H>, env: Env<D, H>)
    requires FixesDecision(env) && WellFormed(s) && Approval(s.request)
    requires Editable(artifact.brief, s.request, s.actor, env.rules)
        && AtTries(disk, before, artifact, s, Landing(front), env)
    ensures GateStep(before, Step(before, Submit(s.(at := Some(last.at)), last.k), env), last.k, GateAt(s, front, last))
  {
    if Landing(front).Some? {
      LandedTryCounts(before, s.(at := Some(last.at)), s.request, last.k, env);
    } else {
      assert Edited(artifact.brief, s.request, s.actor, last.at, env.rules).Ok?;
      FirstTryCounts(before, artifact, s, last, env);
    }
  }

  /** Over any kills and resubmissions the log gains one gate line for each try that reached it
      before one wrote the checkpoint. */
  lemma {:induction false} GateLinesCount<D, H>(disk: Disk<D, H>, artifact: Artifact<D>, s: Submission,
                                                tries: seq<Try>, env: Env<D, H>)
    requires FixesDecision(env) && Awaiting(disk, artifact) && WellFormed(s) && Approval(s.request)
    requires Editable(artifact.brief, s.request, s.actor, env.rules)
    ensures Counted(disk, Tried(disk, s, tries, env), s, tries)
  {
    if tries != [] {
      var front, last := tries[..|tries| - 1], tries[|tries| - 1];
      GateLinesCount(disk, artifact, s, front, env);
      EditsApplyOnce(disk, artifact, s, front, env);
      TryCounts(Tried(disk, s, front, env), artifact, s, front, last, disk, env);
    }
  }

  function Again(k: nat, n: nat): seq<Try> { seq(n, _ => Try("now", k)) }

  lemma {:induction false} AgainCounts(s: Submission, n: nat)
    requires LinesOf(s, "now") == []
    ensures !Checkpointed(s, Again(4, n)) && GateTries(s, Again(4, n)) == n
  {
    if n > 0 {
      AgainCounts(s, n - 1);
      assert Again(4, n)[..n - 1] == Again(4, n - 1);
    }
  }

  /** An approval killed n times between its gate line and its checkpoint leaves n gate lines, not one
      duplicate. */
  lemma KilledAtTheGateLine<D, H>(disk: Disk<D, H>, artifact: Artifact<D>, s: Submission, n: nat, env: Env<D, H>)
    requires FixesDecision(env) && Awaiting(disk, artifact) && WellFormed(s) && Approval(s.request)
    requires Editable(artifact.brief, s.request, s.actor, env.rules) && LinesOf(s, "now") == []
    ensures var after := Tried(disk, s, Again(4, n), env);
            after.gate.None? && GateLines(after.log) == GateLines(disk.log) + n
  {
    AgainCounts(s, n);
    GateLinesCount(disk, artifact, s, Again(4, n), env);
  }
}
