/** The first approval, its resubmissions and the redo door, killed anywhere. */
module Gate0First {
  import opened Durable
  import opened Wrappers
  import opened GateEdits
  import opened Gate0
  import opened Gate0Runs

  /** The same gaps at two clocks: the same gaps are open. */
  predicate SameShape(a: seq<Gap>, b: seq<Gap>) {
    |a| == |b| && forall i | 0 <= i < |a| :: a[i].id == b[i].id && a[i].status == b[i].status
  }

  lemma {:induction false} ShapeFinds(a: seq<Gap>, b: seq<Gap>, id: string)
    requires SameShape(a, b)
    ensures FindGap(a, id).Some? == FindGap(b, id).Some?
    ensures FindGap(a, id).Some? ==> FindGap(a, id).value.status == FindGap(b, id).value.status
  {
    if a != [] { ShapeFinds(a[..|a| - 1], b[..|b| - 1], id); }
  }

  lemma {:induction false} ShapeSet(a: seq<Gap>, b: seq<Gap>, g: Gap, h: Gap)
    requires SameShape(a, b) && g.id == h.id && g.status == h.status
    ensures SameShape(SetGap(a, g), SetGap(b, h))
  {
    if a != [] { ShapeSet(a[..|a| - 1], b[..|b| - 1], g, h); }
  }

  /** Whether the actions are accepted does not depend on the clock. */
  lemma {:induction false} AnyClock(gaps: seq<Gap>, answers: seq<Answer>, skips: seq<string>, actor: string,
                                    at: string, other: string, n: nat)
    requires n <= |answers| + |skips|
    ensures ActTo(gaps, answers, skips, actor, at, n).Ok? == ActTo(gaps, answers, skips, actor, other, n).Ok?
    ensures ActTo(gaps, answers, skips, actor, at, n).Ok? ==>
      SameShape(ActTo(gaps, answers, skips, actor, at, n).value, ActTo(gaps, answers, skips, actor, other, n).value)
  {
    if n > 0 {
      AnyClock(gaps, answers, skips, actor, at, other, n - 1);
      if ActTo(gaps, answers, skips, actor, at, n - 1).Ok? {
        var a, b := ActTo(gaps, answers, skips, actor, at, n - 1).value,
            ActTo(gaps, answers, skips, actor, other, n - 1).value;
        var id := ActedOn(answers, skips, n - 1);
        ShapeFinds(a, b, id);
        if FindGap(a, id).Some? {
          ShapeSet(a, b, Acted(FindGap(a, id).value, answers, skips, n - 1, actor, at),
                   Acted(FindGap(b, id).value, answers, skips, n - 1, actor, other));
        }
      }
    }
  }

  /** What the first landed write of the brief puts there. */
  function Approved<D, H>(artifact: Artifact<D>, s: Submission, at: string, env: Env<D, H>): Artifact<D>
    requires Edited(artifact.brief, s.request, s.actor, at, env.rules).Ok?
  {
    artifact.(brief := Edited(artifact.brief, s.request, s.actor, at, env.rules).value,
        stamp := Some(StampOf(s, at, env)))
  }

  /** The edits are accepted, whatever the clock. */
  ghost predicate Editable(brief: Brief, request: Request, actor: string, rules: Rules) {
    forall at :: Edited(brief, request, actor, at, rules).Ok?
  }

  /** One clock decides for all. */
  lemma EditableAtOneClock(brief: Brief, request: Request, actor: string, at: string, rules: Rules)
    ensures Editable(brief, request, actor, rules) <==> Edited(brief, request, actor, at, rules).Ok?
  {
    var corrected := CorrectTo(brief, request.corrections, actor, rules.parse, |request.corrections|);
    if corrected.Ok? {
      forall other
        ensures Edited(brief, request, actor, other, rules).Ok? == Edited(brief, request, actor, at, rules).Ok?
      {
        AnyClock(corrected.value.gaps, request.answers, request.skips, actor, at, other,
                 |request.answers| + |request.skips|);
      }
    }
  }

  /** The brief is unstamped and the gate undecided. */
  predicate Awaiting<D(==), H(==)>(disk: Disk<D, H>, artifact: Artifact<D>) {
    disk.artifact == Some(artifact) && artifact.stamp.None? && disk.gate.None?
  }

  lemma KilledEarly<D, H>(disk: Disk<D, H>, writes: seq<Write<D, H>>, k: nat)
    requires k < 2 <= |writes| && writes[0] == Emit(StageStart)
    ensures Land(Apply, disk, Cut(writes, k)) == if k == 0 then disk else disk.(log := disk.log + [StageStart])
  {
    if k == 1 {
      assert Cut(writes, k) == [Emit(StageStart)];
      assert Cut(writes, k)[..0] == [];
    }
  }

  lemma FirstTwo<D, H>(disk: Disk<D, H>, writes: seq<Write<D, H>>)
    requires |writes| >= 2
    ensures Land(Apply, disk, writes) == Land(Apply, Apply(Apply(disk, writes[0]), writes[1]), writes[2..])
  {
    var two := writes[..2];
    assert two[..1] == [writes[0]] && two[..1][..0] == [];
    assert Land(Apply, disk, two[..1]) == Apply(disk, writes[0]);
    assert Land(Apply, disk, two) == Apply(Land(Apply, disk, two[..1]), writes[1]);
    LandSplit(Apply, disk, two, writes[2..]);
    assert writes == two + writes[2..];
  }

  lemma ApprovingKeeps<D, H>(artifact: Artifact<D>, lines: seq<GapLine>, s: Submission, at: string, env: Env<D, H>)
    ensures forall w | w in Approving(artifact, lines, s, at, env) ::
              Keeps(w, artifact, Agreed(artifact, s.request.decision, s.actor, at, env.digest(s.request), env))
  {
  }

  function LinesOf(s: Submission, at: string): seq<GapLine> {
    LinesTo(s.request.answers, s.request.skips, at, |s.request.answers| + |s.request.skips|)
  }

  /** The gap lines among the first k writes of an approval: they come after the brief and its line. */
  function Told(s: Submission, at: string, k: nat): seq<GapLine> { if k < 3 then [] else Cut(LinesOf(s, at), k - 3) }

  lemma {:induction false} GapsOfLines<D, H>(lines: seq<GapLine>)
    ensures GapsIn(GapWrites<D, H>(lines)) == lines
  {
    if lines != [] {
      var front := lines[..|lines| - 1];
      GapsOfLines<D, H>(front);
      assert GapWrites<D, H>(lines)[..|lines| - 1] == GapWrites(front);
    }
  }

  lemma {:induction false} GapsSplit<D, H>(a: seq<Write<D, H>>, b: seq<Write<D, H>>)
    ensures GapsIn(a + b) == GapsIn(a) + GapsIn(b)
  {
    if b == [] {
      assert a + b == a;
    } else {
      GapsSplit(a, b[..|b| - 1]);
      assert (a + b)[..|a + b| - 1] == a + b[..|b| - 1];
    }
  }

  lemma CutThree<T>(head: seq<T>, middle: seq<T>, tail: seq<T>, k: nat)
    requires k >= |head|
    ensures var j := k - |head|;
            Cut(head + middle + tail, k) == head + Cut(middle, j) + (if j > |middle| then Cut(tail, j - |middle|)
                else [])
  {
  }

  lemma CutHead<T>(head: seq<T>, rest: seq<T>, k: nat)
    requires k <= |head|
    ensures Cut(head + rest, k) == head[..k]
  {
  }

  lemma CutGapWrites<D, H>(lines: seq<GapLine>, j: nat)
    ensures Cut(GapWrites<D, H>(lines), j) == GapWrites<D, H>(Cut(lines, j))
  {
  }

  lemma GapsOfCut<D, H>(artifact: Artifact<D>, lines: seq<GapLine>, s: Submission, at: string, env: Env<D, H>, k: nat)
    ensures GapsIn(Cut(Approving(artifact, lines, s, at, env), k)) == if k < 3 then [] else Cut(lines, k - 3)
  {
    var head: seq<Write<D, H>> := [Emit(StageStart), WriteBrief(artifact), Emit(BriefWritten)];
    var middle: seq<Write<D, H>> := GapWrites(lines);
    var tail: seq<Write<D, H>> :=
      [Emit(GateLogged(s.request.decision, s.actor, Said(s.request.notes))),
       CheckpointGate(Agreed(artifact, s.request.decision, s.actor, at, env.digest(s.request), env)), Emit(StageEnd)];
    assert Approving(artifact, lines, s, at, env) == head + middle + tail;
    if k < 3 {
      Assoc(head, middle, tail);
      CutHead(head, middle + tail, k);
      NoGapsIn(head[..k]);
    } else {
      var j := k - 3;
      var rest := if j > |middle| then Cut(tail, j - |middle|) else [];
      CutThree(head, middle, tail, k);
      CutGapWrites<D, H>(lines, j);
      GapsOfLines<D, H>(Cut(lines, j));
      NoGapsIn(head);
      NoGapsIn(rest);
      GapsSplit(head, Cut(middle, j));
      GapsSplit(head + Cut(middle, j), rest);
    }
  }

  /** An approval of an unstamped brief: nothing moves until the brief is written, and then the
      stamp and every edit are there together, with the gap lines whose writes landed. */
  lemma FirstApproval<D, H>(disk: Disk<D, H>, artifact: Artifact<D>, s: Submission, k: nat, env: Env<D, H>)
    requires Awaiting(disk, artifact) && WellFormed(s) && Approval(s.request)
    requires Edited(artifact.brief, s.request, s.actor, s.at.value, env.rules).Ok?
    ensures var after := Step(disk, Submit(s, k), env);
            && (k < 2 ==> Awaiting(after, artifact))
            && (k >= 2 ==> LandedAt(after, artifact, s, s.at.value, env))
            && GapLines(after.log) == GapLines(disk.log) + Told(s, s.at.value, k)
  {
    var approved := Approved(artifact, s, s.at.value, env);
    var writes := AttemptOf(disk, s, env).writes;
    assert writes == Approving(approved, LinesOf(s, s.at.value), s, s.at.value, env);
    LandGaps(disk, Cut(writes, k));
    GapsOfCut(approved, LinesOf(s, s.at.value), s, s.at.value, env, k);
    if k < 2 {
      KilledEarly(disk, writes, k);
    } else {
      LateKill(disk, artifact, s, k, env);
    }
  }

  /** The approval stands at this clock, and a checkpoint, if there, is the one it calls for. */
  predicate LandedAt<D(==), H(==)>(disk: Disk<D, H>, artifact: Artifact<D>, s: Submission, at: string, env: Env<D, H>) {
    && Edited(artifact.brief, s.request, s.actor, at, env.rules).Ok?
    && disk.artifact == Some(Approved(artifact, s, at, env))
    && (disk.gate.Some? ==>
          disk.gate.value
              == Agreed(Approved(artifact, s, at, env), s.request.decision, s.actor, at, env.digest(s.request), env))
  }

  lemma LateKill<D, H>(disk: Disk<D, H>, artifact: Artifact<D>, s: Submission, k: nat, env: Env<D, H>)
    requires Awaiting(disk, artifact) && WellFormed(s) && Approval(s.request) && k >= 2
    requires Edited(artifact.brief, s.request, s.actor, s.at.value, env.rules).Ok?
    ensures LandedAt(Step(disk, Submit(s, k), env), artifact, s, s.at.value, env)
  {
    var approved, at := Approved(artifact, s, s.at.value, env), s.at.value;
    var writes := AttemptOf(disk, s, env).writes;
    assert writes == Approving(approved, LinesOf(s, at), s, at, env);
    var landed := Cut(writes, k);
    FirstTwo(disk, landed);
    ApprovingKeeps(approved, LinesOf(s, at), s, at, env);
    LandKeeps(Apply(Apply(disk, writes[0]), writes[1]), landed[2..], approved,
              Agreed(approved, s.request.decision, s.actor, at, env.digest(s.request), env));
  }

  // ---------------------------------------------------------------- the redo door

  predicate NeitherStampNorGate<D, H>(write: Write<D, H>) { !write.WriteBrief? && !write.CheckpointGate? }

  lemma {:induction false} LandNeither<D, H>(disk: Disk<D, H>, writes: seq<Write<D, H>>)
    requires forall w | w in writes :: NeitherStampNorGate(w)
    ensures Land(Apply, disk, writes).artifact == disk.artifact && Land(Apply, disk, writes).gate == disk.gate
  {
    if writes != [] {
      var front, last := writes[..|writes| - 1], writes[|writes| - 1];
      assert writes == front + [last] && NeitherStampNorGate(last);
      LandNeither(disk, front);
    }
  }

  lemma ClearedByThree<D, H>(disk: Disk<D, H>, s: Submission, at: string, k: nat)
    requires k >= 3
    ensures !Land(Apply, disk, Cut(Rejecting<D, H>(s, at), k)).bidBrief
  {
    var landed: seq<Write<D, H>> := Cut(Rejecting(s, at), k);
    var clearing, rest := landed[..3], landed[3..];
    assert landed == clearing + rest;
    assert clearing[2] == ClearBidBrief;
    LandSplit(Apply, disk, clearing, rest);
    LastTwo(disk, clearing);
    TailKeepsBidBrief(Land(Apply, disk, clearing), rest);
  }

  lemma {:induction false} TailKeepsBidBrief<D, H>(disk: Disk<D, H>, writes: seq<Write<D, H>>)
    requires forall w | w in writes :: w.Emit? || w.CheckpointRejection?
    ensures Land(Apply, disk, writes).bidBrief == disk.bidBrief
  {
    if writes != [] {
      var front := writes[..|writes| - 1];
      assert writes == front + [writes[|writes| - 1]];
      TailKeepsBidBrief(disk, front);
    }
  }

  lemma LastTwo<D, H>(disk: Disk<D, H>, writes: seq<Write<D, H>>)
    requires |writes| >= 2
    ensures Land(Apply, disk, writes)
         == Apply(Apply(Land(Apply, disk, writes[..|writes| - 2]), writes[|writes| - 2]), writes[|writes| - 1])
  {
    var n := |writes|;
    assert writes[..n - 1][..n - 2] == writes[..n - 2];
  }

  /** A rejection of an unstamped brief never stamps it or records the gate, wherever it is killed;
      once the second clearing landed, the next advance reads the package again. */
  lemma RejectionReopensIntake<D, H>(disk: Disk<D, H>, artifact: Artifact<D>, s: Submission, k: nat, env: Env<D, H>)
    requires Awaiting(disk, artifact) && WellFormed(s) && s.request.decision == "rejected"
    ensures Awaiting(Step(disk, Submit(s, k), env), artifact)
    ensures k >= 3 ==> !Step(disk, Submit(s, k), env).bidBrief
  {
    var writes: seq<Write<D, H>> := Rejecting(s, s.at.value);
    assert AttemptOf(disk, s, env).writes == writes;
    LandNeither(disk, Cut(writes, k));
    if k >= 3 { ClearedByThree(disk, s, s.at.value, k); }
  }

  // ------------------------------------------------------- resubmitted until done

  /** A resubmission of one request: its clock, and how many of its writes land. */
  datatype Try = Try(at: string, k: nat)

  function Tried<D(==), H>(disk: Disk<D, H>, s: Submission, tries: seq<Try>, env: Env<D, H>): Disk<D, H> {
    if tries == [] then disk
    else
      var last := tries[|tries| - 1];
      Step(Tried(disk, s, tries[..|tries| - 1], env), Submit(s.(at := Some(last.at)), last.k), env)
  }

  /** The first try whose brief landed. */
  function Landing(tries: seq<Try>): (t: Option<Try>)
    ensures t.Some? ==> t.value in tries && t.value.k >= 2
  {
    if tries == [] then None
    else
      var before, last := Landing(tries[..|tries| - 1]), tries[|tries| - 1];
      if before.Some? then before else if last.k >= 2 then Some(last) else None
  }

  /** Where the tries leave the disk: untouched but for the log, or with the first landed try's brief
      and just its gap lines. */
  predicate AtTries<D(==), H(==)>(disk: Disk<D, H>, after: Disk<D, H>, artifact: Artifact<D>, s: Submission,
                                  landing: Option<Try>, env: Env<D, H>) {
    match landing
    case None => Awaiting(after, artifact) && GapLines(after.log) == GapLines(disk.log)
    case Some(t) =>
      && LandedAt(after, artifact, s, t.at, env)
      && GapLines(after.log) == GapLines(disk.log) + Told(s, t.at, t.k)
  }

  lemma TryAfterLanding<D, H>(disk: Disk<D, H>, before: Disk<D, H>, artifact: Artifact<D>, s: Submission, t: Try,
                              last: Try, env: Env<D, H>)
    requires FixesDecision(env) && Approval(s.request) && AtTries(disk, before, artifact, s, Some(t), env)
    ensures AtTries(disk, Step(before, Submit(s.(at := Some(last.at)), last.k), env), artifact, s, Some(t), env)
  {
    SubmitKeeps(before, s.(at := Some(last.at)), last.k, s.request, env);
  }

  lemma OtherClock<D, H>(disk: Disk<D, H>, artifact: Artifact<D>, s: Submission, other: string, at: string,
                         env: Env<D, H>)
    ensures LandedAt(disk, artifact, s.(at := Some(other)), at, env) <==> LandedAt(disk, artifact, s, at, env)
  {
  }

  /** What the first landed write leaves speaks of the request, not of the submission's own clock. */
  lemma Retold<D, H>(after: Disk<D, H>, artifact: Artifact<D>, s: Submission, last: Try, env: Env<D, H>)
    ensures var again := s.(at := Some(last.at));
            && (LandedAt(after, artifact, again, last.at, env) ==> LandedAt(after, artifact, s, last.at, env))
            && Told(again, last.at, last.k) == Told(s, last.at, last.k)
  {
    OtherClock(after, artifact, s, last.at, last.at, env);
  }

  lemma AtFirstTry<D, H>(disk: Disk<D, H>, before: Disk<D, H>, after: Disk<D, H>, artifact: Artifact<D>, s: Submission,
                         last: Try, env: Env<D, H>)
    requires GapLines(before.log) == GapLines(disk.log)
    requires last.k < 2 ==> Awaiting(after, artifact)
    requires last.k >= 2 ==> LandedAt(after, artifact, s, last.at, env)
    requires GapLines(after.log) == GapLines(before.log) + Told(s, last.at, last.k)
    ensures AtTries(disk, after, artifact, s, if last.k >= 2 then Some(last) else None, env)
  {
    if last.k < 2 { assert Told(s, last.at, last.k) == []; }
  }

  lemma TryBeforeLanding<D, H>(disk: Disk<D, H>, before: Disk<D, H>, artifact: Artifact<D>, s: Submission, last: Try,
                               env: Env<D, H>)
    requires WellFormed(s) && Approval(s.request) && AtTries(disk, before, artifact, s, None, env)
    requires Editable(artifact.brief, s.request, s.actor, env.rules)
    ensures AtTries(disk, Step(before, Submit(s.(at := Some(last.at)), last.k), env), artifact, s,
                    if last.k >= 2 then Some(last) else None, env)
  {
    assert Edited(artifact.brief, s.request, s.actor, last.at, env.rules).Ok?;
    FirstApproval(before, artifact, s.(at := Some(last.at)), last.k, env);
    var after := Step(before, Submit(s.(at := Some(last.at)), last.k), env);
    Retold(after, artifact, s, last, env);
    AtFirstTry(disk, before, after, artifact, s, last, env);
  }

  /** Killed anywhere and resubmitted under any clocks, the edits apply once, at the first landed
      clock, and of the gap lines exactly those that landed with that try are ever logged. */
  lemma {:induction false} EditsApplyOnce<D, H>(disk: Disk<D, H>, artifact: Artifact<D>, s: Submission,
                                                tries: seq<Try>, env: Env<D, H>)
    requires FixesDecision(env) && Awaiting(disk, artifact) && WellFormed(s) && Approval(s.request)
    requires Editable(artifact.brief, s.request, s.actor, env.rules)
    ensures AtTries(disk, Tried(disk, s, tries, env), artifact, s, Landing(tries), env)
  {
    if tries != [] {
      var front, last := tries[..|tries| - 1], tries[|tries| - 1];
      EditsApplyOnce(disk, artifact, s, front, env);
      var before := Tried(disk, s, front, env);
      if Landing(front).Some? {
        TryAfterLanding(disk, before, artifact, s, Landing(front).value, last, env);
      } else {
        TryBeforeLanding(disk, before, artifact, s, last, env);
      }
    }
  }

  /** Every gap line of the request reaches the log exactly when the try that landed the brief also
      landed them: a resumed approval logs none. */
  lemma GapLinesCompleteIff<D, H>(disk: Disk<D, H>, artifact: Artifact<D>, s: Submission, tries: seq<Try>,
                                  env: Env<D, H>)
    requires FixesDecision(env) && Awaiting(disk, artifact) && WellFormed(s) && Approval(s.request)
    requires Editable(artifact.brief, s.request, s.actor, env.rules) && Landing(tries).Some?
    ensures GapLines(Tried(disk, s, tries, env).log) == GapLines(disk.log) + LinesOf(s, Landing(tries).value.at)
       <==> || LinesOf(s, Landing(tries).value.at) == []
            || Landing(tries).value.k >= 3 + |LinesOf(s, Landing(tries).value.at)|
  {
    EditsApplyOnce(disk, artifact, s, tries, env);
    var landing := Landing(tries).value;
    var lines, told := LinesOf(s, landing.at), Told(s, landing.at, landing.k);
    assert |told| == |lines| <==> lines == [] || landing.k >= 3 + |lines|;
    if |told| == |lines| { assert told == lines; }
  }

  lemma FullApproval<D, H>(disk: Disk<D, H>, artifact: Artifact<D>, s: Submission, env: Env<D, H>)
    requires Awaiting(disk, artifact) && WellFormed(s) && Approval(s.request)
    requires Edited(artifact.brief, s.request, s.actor, s.at.value, env.rules).Ok?
    ensures var attempt := AttemptOf(disk, s, env);
            !attempt.raised && |attempt.writes| >= 2 && Land(Apply, disk, attempt.writes).gate.Some?
            && Step(disk, Submit(s, |attempt.writes|), env) == Land(Apply, disk, attempt.writes)
  {
    var approved := Approved(artifact, s, s.at.value, env);
    var writes := AttemptOf(disk, s, env).writes;
    assert writes == Approving(approved, LinesOf(s, s.at.value), s, s.at.value, env);
    LastTwo(disk, writes);
  }

  /** One uninterrupted resubmission after any number of killed ones ends with the edited brief
      under one stamp, and a checkpoint of that stamp's actor, clock and digest. */
  lemma ResubmissionConverges<D, H>(disk: Disk<D, H>, artifact: Artifact<D>, s: Submission, tries: seq<Try>,
                                    last: string, env: Env<D, H>)
    requires FixesDecision(env) && Awaiting(disk, artifact) && WellFormed(s) && Approval(s.request)
    requires Editable(artifact.brief, s.request, s.actor, env.rules)
    ensures var before := Tried(disk, s, tries, env);
            var attempt := AttemptOf(before, s.(at := Some(last)), env);
            var after := Land(Apply, before, attempt.writes);
            var at := if Landing(tries).Some? then Landing(tries).value.at else last;
            !attempt.raised && after.gate.Some? && LandedAt(after, artifact, s, at, env)
  {
    EditsApplyOnce(disk, artifact, s, tries, env);
    var before, again := Tried(disk, s, tries, env), s.(at := Some(last));
    if Landing(tries).Some? {
      SameRequestCompletes(before, again, s.request, env);
    } else {
      FullApproval(before, artifact, again, env);
      FirstApproval(before, artifact, again, |AttemptOf(before, again, env).writes|, env);
    }
  }

  // ------------------------------------------------- edits the schema or the gate refuses

  lemma RefusedTry<D, H>(disk: Disk<D, H>, artifact: Artifact<D>, s: Submission, k: nat, env: Env<D, H>)
    requires Awaiting(disk, artifact) && WellFormed(s) && Approval(s.request)
    requires Edited(artifact.brief, s.request, s.actor, s.at.value, env.rules).Raised?
    ensures AttemptOf(disk, s, env) == Attempt([Emit(StageStart)], true)
    ensures Step(disk, Submit(s, k), env) == if k == 0 then disk else disk.(log := disk.log + [StageStart])
  {
    var writes := AttemptOf(disk, s, env).writes;
    assert writes[..0] == [] && Cut(writes, k) == if k == 0 then [] else writes;
    LandOne(disk, Emit(StageStart));
  }

  /** Refused edits are refused on every try: each leaves a line that the stage began, and nothing else. */
  lemma {:induction false} RefusedStaysOpen<D, H>(disk: Disk<D, H>, artifact: Artifact<D>, s: Submission,
                                                  tries: seq<Try>, env: Env<D, H>)
    requires Awaiting(disk, artifact) && WellFormed(s) && Approval(s.request)
    requires !Editable(artifact.brief, s.request, s.actor, env.rules)
    ensures var after := Tried(disk, s, tries, env);
            Awaiting(after, artifact) && GapLines(after.log) == GapLines(disk.log)
  {
    if tries != [] {
      var front, last := tries[..|tries| - 1], tries[|tries| - 1];
      RefusedStaysOpen(disk, artifact, s, front, env);
      EditableAtOneClock(artifact.brief, s.request, s.actor, last.at, env.rules);
      var before := Tried(disk, s, front, env);
      RefusedTry(before, artifact, s.(at := Some(last.at)), last.k, env);
      GapLinesPush(before.log, StageStart);
    }
  }

  /** After any tries, one uninterrupted submission records the gate exactly when its edits are
      accepted and leave a brief its schema takes; otherwise it raises, as every later one will. */
  lemma ApprovalCompletesIff<D, H>(disk: Disk<D, H>, artifact: Artifact<D>, s: Submission, tries: seq<Try>,
                                   last: string, env: Env<D, H>)
    requires FixesDecision(env) && Awaiting(disk, artifact) && WellFormed(s) && Approval(s.request)
    ensures var before := Tried(disk, s, tries, env);
            var attempt := AttemptOf(before, s.(at := Some(last)), env);
            && (attempt.raised <==> !Editable(artifact.brief, s.request, s.actor, env.rules))
            && (Land(Apply, before, attempt.writes).gate.Some? <==> !attempt.raised)
  {
    if Editable(artifact.brief, s.request, s.actor, env.rules) {
      ResubmissionConverges(disk, artifact, s, tries, last, env);
    } else {
      RefusedStaysOpen(disk, artifact, s, tries, env);
      EditableAtOneClock(artifact.brief, s.request, s.actor, last, env.rules);
      var before, again := Tried(disk, s, tries, env), s.(at := Some(last));
      RefusedTry(before, artifact, again, 1, env);
      assert AttemptOf(before, again, env).writes == Cut(AttemptOf(before, again, env).writes, 1);
    }
  }

  const NAME := Path("buyer", "name")

  /** An unconfirmed name, and an approval that corrects it to a number. */
  function Named(): Brief {
    Brief({"buyer"}, map[NAME := Text("x")], [Entry(NAME, false, Text("x"), Unconfirmed, None, None)], [])
  }

  function Renumbering(): Request {
    Request("approved_with_edits", None, [Correction(NAME, Some(Number(5.0)))], [], [])
  }

  /** The correction is accepted, and a schema that wants text there refuses the brief at the write. */
  lemma NumberForNameIsRefused(actor: string, rules: Rules)
    requires forall b :: rules.fits(b) && NAME in b.values ==> b.values[NAME].Text?
    ensures CorrectTo(Named(), Renumbering().corrections, actor, rules.parse, 1).Ok?
    ensures !Editable(Named(), Renumbering(), actor, rules)
  {
    var brief, item := Named(), Renumbering().corrections[0];
    assert "name" != "weight_text" by { assert |"name"| != |"weight_text"|; }
    assert !Indexed("name") by { assert "name"[3] != ']'; }
    assert brief.register[..0] == [];
    assert Register(brief.register) == map[NAME := brief.register[0]];
    assert CorrectTo(brief, Renumbering().corrections, actor, rules.parse, 0) == Ok(brief);
    var fixed := Fixed(brief, item, actor);
    assert CorrectTo(brief, Renumbering().corrections, actor, rules.parse, 1) == Ok(fixed);
    assert fixed.values[NAME] == Number(5.0);
    EditableAtOneClock(brief, Renumbering(), actor, "now", rules);
  }
}
