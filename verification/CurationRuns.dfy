/** Batch merges over whole histories: what a call accepts, decides, logs and carries forward. */
module CurationRuns {
  import opened Wrappers
  import opened Curation

  // ------------------------------------------------------------- what pass 1 admits

  predicate Distinct(ids: seq<Pid>, n: nat)
    requires n <= |ids|
  {
    forall i, j | 0 <= i < j < n :: ids[i] != ids[j]
  }

  lemma RepeatsIff(ids: seq<Pid>, n: nat)
    requires 0 < n <= |ids|
    ensures Distinct(ids, n) <==> Distinct(ids, n - 1) && ids[n - 1] !in ids[..n - 1]
  {
    assert ids[n - 1] in ids[..n - 1] <==> exists i :: 0 <= i < n - 1 && ids[i] == ids[n - 1];
  }

  /** A batch is admitted exactly when no id repeats and each would be admitted alone. */
  lemma {:induction false} AdmittedIff(kb: Kb, batch: Batch, env: Env, n: nat)
    requires n <= |batch.ids|
    ensures StageTo(kb, batch, env, n).Ok?
       <==> Distinct(batch.ids, n) && forall i | 0 <= i < n :: StageOne(kb, batch.ids[i], batch, env).Ok?
  {
    if n > 0 {
      AdmittedIff(kb, batch, env, n - 1);
      RepeatsIff(batch.ids, n);
    }
  }

  lemma {:induction false} StagedAre(kb: Kb, batch: Batch, env: Env, n: nat)
    requires n <= |batch.ids| && StageTo(kb, batch, env, n).Ok?
    ensures var staged := StageTo(kb, batch, env, n).value;
            |staged| == n && forall i | 0 <= i < n :: staged[i].pid == batch.ids[i]
  {
    if n > 0 {
      StagedAre(kb, batch, env, n - 1);
    }
  }

  lemma PidsAreIds(kb: Kb, batch: Batch, env: Env)
    requires StageTo(kb, batch, env, |batch.ids|).Ok?
    ensures Pids(StageTo(kb, batch, env, |batch.ids|).value) == batch.ids
    ensures Distinct(batch.ids, |batch.ids|)
  {
    AdmittedIff(kb, batch, env, |batch.ids|);
    StagedAre(kb, batch, env, |batch.ids|);
  }

  // --------------------------------------------------------------- what pass 2 does

  lemma OneDecides(kb: Kb, op: Op, env: Env, pid: Pid)
    requires ApplyOp(kb, op, env).Ok?
    ensures var after := ApplyOp(kb, op, env).value;
            && after.log == kb.log && after.proposals.Keys == kb.proposals.Keys
            && (op.Accept? && op.pid == pid ==> pid in kb.proposals && kb.proposals[pid].status == Proposed
                                                && after.proposals[pid].status == Accepted)
            && (pid in kb.proposals && !(op.Accept? && op.pid == pid) ==> after.proposals[pid] == kb.proposals[pid])
  {
  }

  /** Operations decide exactly the accepted ids, each of which was proposed; they write no log. */
  lemma {:induction false} OnlyAcceptedDecided(kb: Kb, ops: seq<Op>, env: Env, n: nat, pid: Pid)
    requires n <= |ops| && Performed(kb, ops, env, n).Ok?
    ensures var after := Performed(kb, ops, env, n).value;
            && after.log == kb.log && after.proposals.Keys == kb.proposals.Keys
            && (pid in AcceptedIn(ops, n) ==> pid in kb.proposals && kb.proposals[pid].status == Proposed
                                              && after.proposals[pid].status == Accepted)
            && (pid in kb.proposals && pid !in AcceptedIn(ops, n) ==> after.proposals[pid] == kb.proposals[pid])
  {
    if n > 0 {
      OnlyAcceptedDecided(kb, ops, env, n - 1, pid);
      OneDecides(Performed(kb, ops, env, n - 1).value, ops[n - 1], env, pid);
    }
  }

  lemma PidsTake(staged: seq<Staged>, m: nat)
    requires m <= |staged|
    ensures Pids(staged[..m]) == Pids(staged)[..m]
  {
  }

  /** Where an admitted batch halts: the accepted ids are its first m, the rest of it untouched
      but for operations of proposal m alone. */
  lemma AcceptsPrefix(kb: Kb, batch: Batch, env: Env, fault: Fault) returns (m: nat)
    requires StageTo(kb, batch, env, |batch.ids|).Ok?
    ensures var staged := StageTo(kb, batch, env, |batch.ids|).value;
            var ops := AllOps(staged, batch);
            var n := Halt(kb, ops, env, fault, 0);
            Within(staged, batch, m, n) && m <= |batch.ids| && AcceptedIn(ops, n) == batch.ids[..m]
  {
    var staged := StageTo(kb, batch, env, |batch.ids|).value;
    m := HaltsWithin(staged, batch, Halt(kb, AllOps(staged, batch), env, fault, 0));
    PidsAreIds(kb, batch, env);
    PidsTake(staged, m);
  }

  /** The ids a call accepts; none when the batch is refused. */
  function Accepts(kb: Kb, batch: Batch, env: Env, fault: Fault): seq<Pid> {
    match StageTo(kb, batch, env, |batch.ids|)
    case Raised(_) => []
    case Ok(staged) => AcceptedIn(AllOps(staged, batch), Halt(kb, AllOps(staged, batch), env, fault, 0))
  }

  predicate Unlogged(kb: Kb, batch: Batch, env: Env, fault: Fault) {
    match StageTo(kb, batch, env, |batch.ids|)
    case Raised(_) => true
    case Ok(staged) => Killed(fault, Halt(kb, AllOps(staged, batch), env, fault, 0))
  }

  lemma AcceptsDistinct(kb: Kb, batch: Batch, env: Env, fault: Fault)
    ensures Distinct(Accepts(kb, batch, env, fault), |Accepts(kb, batch, env, fault)|)
  {
    if StageTo(kb, batch, env, |batch.ids|).Ok? {
      var m := AcceptsPrefix(kb, batch, env, fault);
      PidsAreIds(kb, batch, env);
    }
  }

  /** A call decides exactly the ids it accepts, each of which was proposed. */
  lemma MergeDecides(kb: Kb, batch: Batch, env: Env, fault: Fault, pid: Pid)
    ensures var after, accepted := Merged(kb, batch, env, fault), Accepts(kb, batch, env, fault);
            && after.proposals.Keys == kb.proposals.Keys
            && (pid in accepted ==> pid in kb.proposals && kb.proposals[pid].status == Proposed
                                    && after.proposals[pid].status == Accepted)
            && (pid in kb.proposals && pid !in accepted ==> after.proposals[pid] == kb.proposals[pid])
  {
    if StageTo(kb, batch, env, |batch.ids|).Ok? {
      var ops := AllOps(StageTo(kb, batch, env, |batch.ids|).value, batch);
      OnlyAcceptedDecided(kb, ops, env, Halt(kb, ops, env, fault, 0), pid);
    }
  }

  /** A call that is neither refused nor killed writes one line, naming what it accepted. */
  lemma MergeLogs(kb: Kb, batch: Batch, env: Env, fault: Fault)
    ensures var after, accepted := Merged(kb, batch, env, fault), Accepts(kb, batch, env, fault);
            if Unlogged(kb, batch, env, fault) then after.log == kb.log
            else |after.log| == |kb.log| + 1 && after.log[..|kb.log|] == kb.log
                 && after.log[|kb.log|].accepted == accepted
                 && after.log[|kb.log|].before == kb.cards && after.log[|kb.log|].after == after.cards
  {
    if StageTo(kb, batch, env, |batch.ids|).Ok? {
      var ops := AllOps(StageTo(kb, batch, env, |batch.ids|).value, batch);
      OnlyAcceptedDecided(kb, ops, env, Halt(kb, ops, env, fault, 0), "");
    }
  }

  // -------------------------------------------------------------------- histories

  datatype Event =
    | Open(pid: Pid, proposal: Proposal)
    | Reject(pid: Pid, decided: Decided)
    | Void(pid: Pid, decided: Decided, killed: bool)
    | Merge(batch: Batch, fault: Fault)

  function Step(kb: Kb, event: Event, env: Env): Kb {
    match event
    case Open(pid, p) =>
      if pid in kb.proposals then kb
      else kb.(proposals := kb.proposals[pid := p.(status := Proposed, decided := None)])
    case Reject(pid, decided) =>
      (match Decide(kb, pid, Rejected, decided)
       case Raised(_) => kb
       case Ok(after) => after)
    case Void(pid, decided, killed) =>
      (match Decide(kb, pid, Voided, decided)
       case Raised(_) => kb
       case Ok(after) =>
         if killed then after
         else after.(log := after.log + [LogLine(decided.at, decided.from, [], [pid], kb.cards, kb.cards, false)]))
    case Merge(batch, fault) => Merged(kb, batch, env, fault)
  }

  function After(kb: Kb, events: seq<Event>, env: Env): Kb {
    if events == [] then kb else Step(After(kb, events[..|events| - 1], env), events[|events| - 1], env)
  }

  /** A decision is made once: over any history a decided proposal is the record it was. */
  lemma {:induction false} DecidedOnce(kb: Kb, events: seq<Event>, env: Env, pid: Pid)
    requires pid in kb.proposals && kb.proposals[pid].status != Proposed
    ensures var after := After(kb, events, env);
            pid in after.proposals && after.proposals[pid] == kb.proposals[pid]
  {
    if events != [] {
      var before := After(kb, events[..|events| - 1], env);
      DecidedOnce(kb, events[..|events| - 1], env, pid);
      var last := events[|events| - 1];
      if last.Merge? { MergeDecides(before, last.batch, env, last.fault, pid); }
    }
  }

  /** How often the log names a proposal as accepted. */
  function Times(log: seq<LogLine>, pid: Pid): nat {
    if log == [] then 0 else Times(log[..|log| - 1], pid) + multiset(log[|log| - 1].accepted)[pid]
  }

  lemma {:induction false} TimesPush(log: seq<LogLine>, next: seq<LogLine>, pid: Pid)
    requires |next| == |log| + 1 && next[..|log|] == log
    ensures Times(next, pid) == Times(log, pid) + multiset(next[|log|].accepted)[pid]
  {
  }

  lemma {:induction false} OnceInDistinct(ids: seq<Pid>, pid: Pid)
    requires Distinct(ids, |ids|)
    ensures multiset(ids)[pid] == if pid in ids then 1 else 0
  {
    if ids != [] {
      var front, last := ids[..|ids| - 1], ids[|ids| - 1];
      assert ids == front + [last];
      OnceInDistinct(front, pid);
    }
  }

  /** The log names the proposal at most once, and only if it is accepted. */
  predicate NamedOnce(kb: Kb, pid: Pid) {
    && Times(kb.log, pid) <= 1
    && (Times(kb.log, pid) == 1 ==> pid in kb.proposals && kb.proposals[pid].status == Accepted)
  }

  predicate Recorded(kb: Kb, pid: Pid) {
    pid in kb.proposals && kb.proposals[pid].status == Accepted ==> Times(kb.log, pid) == 1
  }

  lemma MergeNames(kb: Kb, batch: Batch, env: Env, fault: Fault, pid: Pid)
    ensures Times(Merged(kb, batch, env, fault).log, pid)
         == Times(kb.log, pid) + if pid in Accepts(kb, batch, env, fault) && !Unlogged(kb, batch, env, fault) then 1
             else 0
  {
    MergeLogs(kb, batch, env, fault);
    AcceptsDistinct(kb, batch, env, fault);
    OnceInDistinct(Accepts(kb, batch, env, fault), pid);
    if !Unlogged(kb, batch, env, fault) { TimesPush(kb.log, Merged(kb, batch, env, fault).log, pid); }
  }

  lemma StepNames(kb: Kb, event: Event, env: Env, pid: Pid)
    requires NamedOnce(kb, pid)
    ensures NamedOnce(Step(kb, event, env), pid)
  {
    match event
    case Merge(batch, fault) => MergeNamesOnce(kb, batch, env, fault, pid);
    case Void(_, _, _) => VoidNamesOnce(kb, event, env, pid);
    case _ => OtherNamesOnce(kb, event, env, pid);
  }

  /** A decision touches no accepted record and no log line. */
  lemma DecideNamesOnce(kb: Kb, id: Pid, status: Status, decided: Decided, pid: Pid)
    requires NamedOnce(kb, pid) && Decide(kb, id, status, decided).Ok?
    ensures NamedOnce(Decide(kb, id, status, decided).value, pid)
  {
  }

  lemma VoidNamesOnce(kb: Kb, event: Event, env: Env, pid: Pid)
    requires NamedOnce(kb, pid) && event.Void?
    ensures NamedOnce(Step(kb, event, env), pid)
  {
    var r := Decide(kb, event.pid, Voided, event.decided);
    if r.Ok? {
      DecideNamesOnce(kb, event.pid, Voided, event.decided, pid);
      if !event.killed { TimesPush(kb.log, Step(kb, event, env).log, pid); }
    }
  }

  lemma OtherNamesOnce(kb: Kb, event: Event, env: Env, pid: Pid)
    requires NamedOnce(kb, pid) && (event.Open? || event.Reject?)
    ensures NamedOnce(Step(kb, event, env), pid)
  {
    if event.Reject? && Decide(kb, event.pid, Rejected, event.decided).Ok? {
      DecideNamesOnce(kb, event.pid, Rejected, event.decided, pid);
    }
  }

  lemma MergeNamesOnce(kb: Kb, batch: Batch, env: Env, fault: Fault, pid: Pid)
    requires NamedOnce(kb, pid)
    ensures NamedOnce(Merged(kb, batch, env, fault), pid)
  {
    MergeDecides(kb, batch, env, fault, pid);
    MergeNames(kb, batch, env, fault, pid);
  }

  /** Over every history, kills included, no proposal is named as accepted by two log lines. */
  lemma {:induction false} LogNamesAtMostOnce(kb: Kb, events: seq<Event>, env: Env, pid: Pid)
    requires NamedOnce(kb, pid)
    ensures NamedOnce(After(kb, events, env), pid)
  {
    if events != [] {
      LogNamesAtMostOnce(kb, events[..|events| - 1], env, pid);
      StepNames(After(kb, events[..|events| - 1], env), events[|events| - 1], env, pid);
    }
  }

  /** A merge leaves an accepted proposal without its line exactly when it is killed after the decision. */
  lemma MergeRecordsIff(kb: Kb, batch: Batch, env: Env, fault: Fault, pid: Pid)
    requires NamedOnce(kb, pid) && Recorded(kb, pid)
    ensures Recorded(Merged(kb, batch, env, fault), pid)
       <==> !(pid in Accepts(kb, batch, env, fault) && Unlogged(kb, batch, env, fault))
  {
    MergeDecides(kb, batch, env, fault, pid);
    MergeNames(kb, batch, env, fault, pid);
  }

  /** Without a kill in a merge, every accepted proposal is named by exactly one log line. */
  lemma {:induction false} LogNamesExactlyOnce(kb: Kb, events: seq<Event>, env: Env, pid: Pid)
    requires NamedOnce(kb, pid) && Recorded(kb, pid)
    requires forall e | e in events && e.Merge? :: !e.fault.Dies?
    ensures Recorded(After(kb, events, env), pid)
  {
    if events != [] {
      var front, last := events[..|events| - 1], events[|events| - 1];
      var before := After(kb, front, env);
      assert last in events;
      assert forall e | e in front :: e in events;
      LogNamesAtMostOnce(kb, front, env, pid);
      LogNamesExactlyOnce(kb, front, env, pid);
      match last
      case Merge(batch, fault) =>
        MergeRecordsIff(before, batch, env, fault, pid);
        RefusedAcceptsNone(before, batch, env, fault);
      case Void(id, decided, killed) =>
        if !killed && Decide(before, id, Voided, decided).Ok? {
          TimesPush(before.log, Step(before, last, env).log, pid);
        }
      case _ =>
    }
  }

  lemma RefusedAcceptsNone(kb: Kb, batch: Batch, env: Env, fault: Fault)
    requires !fault.Dies?
    ensures Unlogged(kb, batch, env, fault) ==> Accepts(kb, batch, env, fault) == []
  {
  }

  // ------------------------------------------------------ what acceptance carries

  /** What an operation writes over the keys of a card that are no lists. */
  function TextOf(op: Op, id: KbId, key: string): Option<string> {
    if op.Front? && op.kbId == id && key in op.update.fields then Some(op.update.fields[key]) else None
  }

  function MarkOf(op: Op, id: KbId): Option<Mark> {
    match op
    case Front(kbId, update) => if kbId == id then update.deprecated else None
    case Withdraw(kbId, mark) => if kbId == id then Some(mark) else None
    case _ => None
  }

  function HoldOf(op: Op, id: KbId): Option<bool> {
    if op.Front? && op.kbId == id then op.update.hold else None
  }

  /** The last of the operations after k, up to n, that writes the key writes what k wrote. */
  predicate TextStands(ops: seq<Op>, k: nat, n: nat, key: string)
    requires k < n <= |ops| && ops[k].Front? && key in ops[k].update.fields
  {
    n == k + 1
    || (var later := TextOf(ops[n - 1], ops[k].kbId, key);
        if later.Some? then later.value == ops[k].update.fields[key] else TextStands(ops, k, n - 1, key))
  }

  predicate MarkStands(ops: seq<Op>, k: nat, n: nat, mark: Mark)
    requires k < n <= |ops| && (ops[k].Front? || ops[k].Withdraw?)
  {
    n == k + 1
    || (var later := MarkOf(ops[n - 1], ops[k].kbId);
        if later.Some? then later.value == mark else MarkStands(ops, k, n - 1, mark))
  }

  predicate HoldStands(ops: seq<Op>, k: nat, n: nat, hold: bool)
    requires k < n <= |ops| && ops[k].Front?
  {
    n == k + 1
    || (var later := HoldOf(ops[n - 1], ops[k].kbId);
        if later.Some? then later.value == hold else HoldStands(ops, k, n - 1, hold))
  }

  /** The lessons an update wrote at k, as the operations up to n replace and append to them. */
  function LessonsSince(ops: seq<Op>, k: nat, n: nat): seq<Lesson>
    requires k < n <= |ops| && ops[k].Front? && ops[k].update.lessons.Some?
  {
    if n == k + 1 then ops[k].update.lessons.value
    else
      var last, before := ops[n - 1], LessonsSince(ops, k, n - 1);
      if last.Front? && last.kbId == ops[k].kbId && last.update.lessons.Some? then last.update.lessons.value
      else if last.AddLesson? && last.kbId == ops[k].kbId &&
              !(exists l :: l in before && l.proposal == last.lesson.proposal)
      then before + [last.lesson]
      else before
  }

  /** The lesson of operation k is still there after n: since the last update of the card that
      wrote its lessons, if any did, the lesson was in it or was appended again. */
  predicate LessonStands(ops: seq<Op>, k: nat, n: nat)
    requires k < n <= |ops| && ops[k].AddLesson?
  {
    n == k + 1
    || (var last := ops[n - 1];
        if last.Front? && last.kbId == ops[k].kbId && last.update.lessons.Some?
        then exists l :: l in last.update.lessons.value && l.proposal == ops[k].lesson.proposal
        else (last.AddLesson? && last.kbId == ops[k].kbId && last.lesson.proposal == ops[k].lesson.proposal)
             || LessonStands(ops, k, n - 1))
  }

  /** No operation after k leaves another value where k wrote; told by the operations alone. */
  predicate Stands(ops: seq<Op>, k: nat, n: nat)
    requires k < n <= |ops|
  {
    match ops[k]
    case Front(_, u) =>
      && (forall key | key in u.fields :: TextStands(ops, k, n, key))
      && (u.lessons.Some? ==> LessonsSince(ops, k, n) == u.lessons.value)
      && (u.deprecated.Some? ==> MarkStands(ops, k, n, u.deprecated.value))
      && (u.hold.Some? ==> HoldStands(ops, k, n, u.hold.value))
    case AddLesson(_, _) => LessonStands(ops, k, n)
    case Withdraw(_, mark) => MarkStands(ops, k, n, mark)
    case _ => true
  }

  predicate Reads(card: Card, key: string, text: string) { key in card.fields && card.fields[key] == text }

  /** Everything the operation put on a card reads back from it. */
  predicate Carried(kb: Kb, op: Op, env: Env) {
    match op
    case Front(id, u) =>
      && id in kb.cards
      && (forall key | key in u.fields :: Reads(kb.cards[id], key, u.fields[key]))
      && (u.lessons.Some? ==> kb.cards[id].lessons == u.lessons.value)
      && (u.deprecated.Some? ==> kb.cards[id].deprecated == u.deprecated)
      && (u.hold.Some? ==> kb.cards[id].hold == u.hold.value)
    case AddLesson(id, lesson) => id in kb.cards && Taught(kb.cards[id], lesson.proposal)
    case Withdraw(id, mark) => id in kb.cards && kb.cards[id].deprecated == Some(mark)
    case MintCard(p, _) =>
      var body := Get(p.diff.texts, "body", "");
      env.mint(body) in kb.cards && kb.cards[env.mint(body)].body == body
    case Accept(pid, decided) => pid in kb.proposals && kb.proposals[pid].status == Accepted
                                 && kb.proposals[pid].decided == Some(decided)
  }

  lemma TaughtAfterLesson(card: Card, lesson: Lesson)
    ensures Taught(card.(lessons := card.lessons + [lesson]), lesson.proposal)
  {
    assert lesson in card.lessons + [lesson];
  }

  lemma StillTaught(card: Card, lesson: Lesson, pid: Pid)
    ensures Taught(card.(lessons := card.lessons + [lesson]), pid) <==> Taught(card, pid) || lesson.proposal == pid
  {
    if lesson.proposal == pid { TaughtAfterLesson(card, lesson); }
    if Taught(card, pid) {
      var l :| l in card.lessons && l.proposal == pid;
      assert l in card.lessons + [lesson];
    }
  }

  lemma CarriedNow(kb: Kb, op: Op, env: Env)
    requires ApplyOp(kb, op, env).Ok?
    ensures Carried(ApplyOp(kb, op, env).value, op, env)
  {
    if op.AddLesson? { TaughtAfterLesson(kb.cards[op.kbId], op.lesson); }
  }

  /** One more operation, key by key: what it writes is read back, what it does not write stays. */
  lemma StepReads(kb: Kb, op: Op, env: Env, id: KbId, key: string, text: string)
    requires ApplyOp(kb, op, env).Ok? && id in kb.cards
    ensures var after := ApplyOp(kb, op, env).value;
            id in after.cards
            && (Reads(after.cards[id], key, text)
                <==> if TextOf(op, id, key).Some? then TextOf(op, id, key).value == text
                    else Reads(kb.cards[id], key, text))
  {
  }

  lemma StepMarks(kb: Kb, op: Op, env: Env, id: KbId)
    requires ApplyOp(kb, op, env).Ok? && id in kb.cards
    ensures var after := ApplyOp(kb, op, env).value;
            && id in after.cards
            && after.cards[id].deprecated == (if MarkOf(op, id).Some? then MarkOf(op, id) else kb.cards[id].deprecated)
            && after.cards[id].hold == (if HoldOf(op, id).Some? then HoldOf(op, id).value else kb.cards[id].hold)
            && after.cards[id].body == kb.cards[id].body
  {
  }

  lemma StepLessons(kb: Kb, op: Op, env: Env, id: KbId)
    requires ApplyOp(kb, op, env).Ok? && id in kb.cards
    ensures var after, lessons := ApplyOp(kb, op, env).value, kb.cards[id].lessons;
            && id in after.cards
            && after.cards[id].lessons
               == if op.Front? && op.kbId == id && op.update.lessons.Some? then op.update.lessons.value
                  else if op.AddLesson? && op.kbId == id && !Taught(kb.cards[id], op.lesson.proposal)
                      then lessons + [op.lesson]
                  else lessons
  {
  }

  lemma {:induction false} TextCarriedIff(kb: Kb, ops: seq<Op>, env: Env, k: nat, n: nat, key: string)
    requires k < n <= |ops| && Performed(kb, ops, env, n).Ok? && ops[k].Front? && key in ops[k].update.fields
    ensures ops[k].kbId in Performed(kb, ops, env, n).value.cards
    ensures Reads(Performed(kb, ops, env, n).value.cards[ops[k].kbId], key, ops[k].update.fields[key])
       <==> TextStands(ops, k, n, key)
  {
    var before := Performed(kb, ops, env, n - 1).value;
    if k < n - 1 { TextCarriedIff(kb, ops, env, k, n - 1, key); }
    StepReads(before, ops[n - 1], env, ops[k].kbId, key, ops[k].update.fields[key]);
  }

  lemma {:induction false} MarkCarriedIff(kb: Kb, ops: seq<Op>, env: Env, k: nat, n: nat, mark: Mark)
    requires k < n <= |ops| && Performed(kb, ops, env, n).Ok? && (ops[k].Front? || ops[k].Withdraw?)
    requires MarkOf(ops[k], ops[k].kbId) == Some(mark)
    ensures ops[k].kbId in Performed(kb, ops, env, n).value.cards
    ensures Performed(kb, ops, env, n).value.cards[ops[k].kbId].deprecated == Some(mark)
        <==> MarkStands(ops, k, n, mark)
  {
    if k < n - 1 { MarkCarriedIff(kb, ops, env, k, n - 1, mark); }
    StepMarks(Performed(kb, ops, env, n - 1).value, ops[n - 1], env, ops[k].kbId);
  }

  lemma {:induction false} HoldCarriedIff(kb: Kb, ops: seq<Op>, env: Env, k: nat, n: nat, hold: bool)
    requires k < n <= |ops| && Performed(kb, ops, env, n).Ok? && ops[k].Front? && ops[k].update.hold == Some(hold)
    ensures ops[k].kbId in Performed(kb, ops, env, n).value.cards
    ensures Performed(kb, ops, env, n).value.cards[ops[k].kbId].hold == hold <==> HoldStands(ops, k, n, hold)
  {
    if k < n - 1 { HoldCarriedIff(kb, ops, env, k, n - 1, hold); }
    StepMarks(Performed(kb, ops, env, n - 1).value, ops[n - 1], env, ops[k].kbId);
  }

  lemma {:induction false} LessonsAre(kb: Kb, ops: seq<Op>, env: Env, k: nat, n: nat)
    requires k < n <= |ops| && Performed(kb, ops, env, n).Ok? && ops[k].Front? && ops[k].update.lessons.Some?
    ensures ops[k].kbId in Performed(kb, ops, env, n).value.cards
    ensures Performed(kb, ops, env, n).value.cards[ops[k].kbId].lessons == LessonsSince(ops, k, n)
  {
    if k < n - 1 { LessonsAre(kb, ops, env, k, n - 1); }
    StepLessons(Performed(kb, ops, env, n - 1).value, ops[n - 1], env, ops[k].kbId);
  }

  lemma {:induction false} LessonCarriedIff(kb: Kb, ops: seq<Op>, env: Env, k: nat, n: nat)
    requires k < n <= |ops| && Performed(kb, ops, env, n).Ok? && ops[k].AddLesson?
    ensures ops[k].kbId in Performed(kb, ops, env, n).value.cards
    ensures Carried(Performed(kb, ops, env, n).value, ops[k], env) <==> LessonStands(ops, k, n)
  {
    var before, last := Performed(kb, ops, env, n - 1).value, ops[n - 1];
    if k == n - 1 {
      CarriedNow(before, last, env);
    } else {
      LessonCarriedIff(kb, ops, env, k, n - 1);
      if last.AddLesson? { StillTaught(before.cards[last.kbId], last.lesson, ops[k].lesson.proposal); }
    }
  }

  lemma FrontCarriedIff(kb: Kb, ops: seq<Op>, env: Env, k: nat, n: nat)
    requires k < n <= |ops| && Performed(kb, ops, env, n).Ok? && ops[k].Front?
    ensures Carried(Performed(kb, ops, env, n).value, ops[k], env) <==> Stands(ops, k, n)
  {
    var u := ops[k].update;
    FrontStays(kb, ops, env, k, n);
    forall key | key in u.fields
      ensures Reads(Performed(kb, ops, env, n).value.cards[ops[k].kbId], key, u.fields[key])
          <==> TextStands(ops, k, n, key)
    {
      TextCarriedIff(kb, ops, env, k, n, key);
    }
    if u.lessons.Some? { LessonsAre(kb, ops, env, k, n); }
    if u.deprecated.Some? { MarkCarriedIff(kb, ops, env, k, n, u.deprecated.value); }
    if u.hold.Some? { HoldCarriedIff(kb, ops, env, k, n, u.hold.value); }
  }

  lemma {:induction false} FrontStays(kb: Kb, ops: seq<Op>, env: Env, k: nat, n: nat)
    requires k < n <= |ops| && Performed(kb, ops, env, n).Ok? && ops[k].Front?
    ensures ops[k].kbId in Performed(kb, ops, env, n).value.cards
  {
    if k < n - 1 { FrontStays(kb, ops, env, k, n - 1); }
    StepMarks(Performed(kb, ops, env, n - 1).value, ops[n - 1], env, ops[k].kbId);
  }

  /** A new card's body and a decision outlive any later operation. */
  lemma CarriedStays(kb: Kb, op: Op, held: Op, env: Env)
    requires ApplyOp(kb, op, env).Ok? && Carried(kb, held, env) && (held.MintCard? || held.Accept?)
    ensures Carried(ApplyOp(kb, op, env).value, held, env)
  {
    if held.MintCard? && !op.MintCard? { StepMarks(kb, op, env, env.mint(Get(held.proposal.diff.texts, "body", ""))); }
  }

  /** What an operation put on the cards is still there when pass 2 halts exactly when no later one
      wrote over it: each key's last writer wrote the same, and a lesson was not dropped from its
      list or came back.  A new card's body and a decision always stand. */
  lemma {:induction false} CarriedIff(kb: Kb, ops: seq<Op>, env: Env, k: nat, n: nat)
    requires k < n <= |ops| && Performed(kb, ops, env, n).Ok?
    ensures Carried(Performed(kb, ops, env, n).value, ops[k], env) <==> Stands(ops, k, n)
  {
    var before := Performed(kb, ops, env, n - 1).value;
    match ops[k]
    case Front(_, _) => FrontCarriedIff(kb, ops, env, k, n);
    case AddLesson(_, _) => LessonCarriedIff(kb, ops, env, k, n);
    case Withdraw(_, mark) => MarkCarriedIff(kb, ops, env, k, n, mark);
    case _ =>
      if k == n - 1 {
        CarriedNow(before, ops[k], env);
      } else {
        CarriedIff(kb, ops, env, k, n - 1);
        CarriedStays(before, ops[n - 1], ops[k], env);
      }
  }

  predicate WritesLessons(op: Op, id: KbId) {
    (op.Front? && op.kbId == id && op.update.lessons.Some?) || (op.AddLesson? && op.kbId == id)
  }

  /** A later operation that writes a key the first one wrote. */
  predicate WritesOver(op: Op, first: Op) {
    match first
    case Front(id, u) =>
      || (op.Front? && op.kbId == id && exists key :: key in u.fields && key in op.update.fields)
      || (u.lessons.Some? && WritesLessons(op, id))
      || (u.deprecated.Some? && MarkOf(op, id).Some?)
      || (u.hold.Some? && HoldOf(op, id).Some?)
    case AddLesson(id, _) => op.Front? && WritesLessons(op, id)
    case Withdraw(id, _) => MarkOf(op, id).Some?
    case _ => false
  }

  /** In particular it stands when no later operation of the batch writes one of its keys. */
  lemma {:induction false} UnwrittenStands(ops: seq<Op>, k: nat, n: nat)
    requires k < n <= |ops| && forall j | k < j < n :: !WritesOver(ops[j], ops[k])
    ensures Stands(ops, k, n)
  {
    if n > k + 1 { UnwrittenStands(ops, k, n - 1); }
  }

  // ------------------------------------------------------------------ legal hold

  /** The last value the first n operations write to a card's hold and deprecation. */
  function LastHold(ops: seq<Op>, n: nat, id: KbId): Option<bool>
    requires n <= |ops|
  {
    if n == 0 then None
    else if ops[n - 1].Front? && ops[n - 1].kbId == id && ops[n - 1].update.hold.Some? then ops[n - 1].update.hold
    else LastHold(ops, n - 1, id)
  }

  function LastMark(ops: seq<Op>, n: nat, id: KbId): Option<Mark>
    requires n <= |ops|
  {
    if n == 0 then None
    else if ops[n - 1].Front? && ops[n - 1].kbId == id && ops[n - 1].update.deprecated.Some?
        then ops[n - 1].update.deprecated
    else LastMark(ops, n - 1, id)
  }

  /** Every withdrawal names a card that was there and not held when the batch was validated. */
  predicate SparesHeld(kb: Kb, ops: seq<Op>) {
    forall op | op in ops && op.Withdraw? :: op.kbId in kb.cards && !kb.cards[op.kbId].hold
  }

  lemma HomeSparesHeld(kb: Kb, batch: Batch, env: Env, pid: Pid)
    requires StageOne(kb, pid, batch, env).Ok?
    ensures SparesHeld(kb, HomeOps(StageOne(kb, pid, batch, env).value, batch))
  {
  }

  lemma OneSparesHeld(kb: Kb, batch: Batch, env: Env, pid: Pid)
    requires StageOne(kb, pid, batch, env).Ok?
    ensures SparesHeld(kb, OpsOf(StageOne(kb, pid, batch, env).value, batch))
  {
    var s := StageOne(kb, pid, batch, env).value;
    var front, lesson, home, decision := FrontOps(s), LessonOps(s), HomeOps(s, batch), [Accept(s.pid, Decision(batch))];
    HomeSparesHeld(kb, batch, env, pid);
    SparesSplit(kb, front, lesson);
    SparesSplit(kb, front + lesson, home);
    SparesSplit(kb, front + lesson + home, decision);
  }

  lemma {:induction false} StagedSparesHeld(kb: Kb, batch: Batch, env: Env, n: nat)
    requires n <= |batch.ids| && StageTo(kb, batch, env, n).Ok?
    ensures SparesHeld(kb, AllOps(StageTo(kb, batch, env, n).value, batch))
  {
    if n > 0 {
      StagedSparesHeld(kb, batch, env, n - 1);
      OneSparesHeld(kb, batch, env, batch.ids[n - 1]);
      var before, one := StageTo(kb, batch, env, n - 1).value, StageOne(kb, batch.ids[n - 1], batch, env).value;
      assert (before + [one])[..|before|] == before;
      SparesSplit(kb, AllOps(before, batch), OpsOf(one, batch));
    }
  }

  lemma SparesSplit(kb: Kb, a: seq<Op>, b: seq<Op>)
    requires SparesHeld(kb, a) && SparesHeld(kb, b)
    ensures SparesHeld(kb, a + b)
  {
  }

  /** A held card after n operations: its hold and deprecation are what updates wrote last. */
  lemma {:induction false} HeldAfter(kb: Kb, ops: seq<Op>, env: Env, n: nat, id: KbId)
    requires n <= |ops| && Performed(kb, ops, env, n).Ok? && SparesHeld(kb, ops)
    requires id in kb.cards && kb.cards[id].hold
    ensures var after := Performed(kb, ops, env, n).value;
            && id in after.cards
            && after.cards[id].hold == (LastHold(ops, n, id) != Some(false))
            && after.cards[id].deprecated
                 == if LastMark(ops, n, id).Some? then LastMark(ops, n, id) else kb.cards[id].deprecated
  {
    if n > 0 {
      HeldAfter(kb, ops, env, n - 1, id);
      assert ops[n - 1] in ops;
    }
  }

  /** Still held, and deprecated exactly as before. */
  predicate HoldKept(before: Kb, after: Kb, id: KbId)
    requires id in before.cards
  {
    id in after.cards && after.cards[id].hold && after.cards[id].deprecated == before.cards[id].deprecated
  }

  /** No performed update of the card lifts the hold or leaves another deprecation on it. */
  predicate UpdatesSpare(kb: Kb, batch: Batch, env: Env, fault: Fault, id: KbId)
    requires id in kb.cards
  {
    match StageTo(kb, batch, env, |batch.ids|)
    case Raised(_) => true
    case Ok(staged) =>
      var ops := AllOps(staged, batch);
      var n := Halt(kb, ops, env, fault, 0);
      LastHold(ops, n, id) != Some(false)
      && (LastMark(ops, n, id).Some? ==> LastMark(ops, n, id) == kb.cards[id].deprecated)
  }

  /** The hold is checked for a deprecate_card only.  A merge keeps a held card's hold and
      deprecation exactly when no performed update_card writes those keys with another value. */
  lemma MergeKeepsHoldIff(kb: Kb, batch: Batch, env: Env, fault: Fault, id: KbId)
    requires id in kb.cards && kb.cards[id].hold
    ensures HoldKept(kb, Merged(kb, batch, env, fault), id) <==> UpdatesSpare(kb, batch, env, fault, id)
  {
    if StageTo(kb, batch, env, |batch.ids|).Ok? {
      StagedSparesHeld(kb, batch, env, |batch.ids|);
      var ops := AllOps(StageTo(kb, batch, env, |batch.ids|).value, batch);
      HeldAfter(kb, ops, env, Halt(kb, ops, env, fault, 0), id);
    }
  }

  predicate Keyed(op: Op, id: KbId) {
    op.Front? && op.kbId == id && (op.update.hold.Some? || op.update.deprecated.Some?)
  }

  lemma {:induction false} UnkeyedWritesNeither(ops: seq<Op>, n: nat, id: KbId)
    requires n <= |ops| && forall op | op in ops :: !Keyed(op, id)
    ensures LastHold(ops, n, id).None? && LastMark(ops, n, id).None?
  {
    if n > 0 {
      assert ops[n - 1] in ops;
      UnkeyedWritesNeither(ops, n - 1, id);
    }
  }

  lemma OneUnkeyed(kb: Kb, batch: Batch, env: Env, pid: Pid, id: KbId)
    requires StageOne(kb, pid, batch, env).Ok?
    requires kb.proposals[pid].kbId == Some(id)
        ==> kb.proposals[pid].diff.hold.None? && kb.proposals[pid].diff.deprecated.None?
    ensures forall op | op in OpsOf(StageOne(kb, pid, batch, env).value, batch) :: !Keyed(op, id)
  {
    var s := StageOne(kb, pid, batch, env).value;
    OpsAt(s, batch);
    forall op | op in OpsOf(s, batch) && op.Front? ensures op in FrontOps(s) {
      assert op !in LessonOps(s) && op !in HomeOps(s, batch);
    }
  }

  lemma {:induction false} BatchUnkeyed(kb: Kb, batch: Batch, env: Env, n: nat, id: KbId)
    requires n <= |batch.ids| && StageTo(kb, batch, env, n).Ok?
    requires forall pid | pid in batch.ids && pid in kb.proposals && kb.proposals[pid].kbId == Some(id) ::
               kb.proposals[pid].diff.hold.None? && kb.proposals[pid].diff.deprecated.None?
    ensures forall op | op in AllOps(StageTo(kb, batch, env, n).value, batch) :: !Keyed(op, id)
  {
    if n > 0 {
      BatchUnkeyed(kb, batch, env, n - 1, id);
      OneUnkeyed(kb, batch, env, batch.ids[n - 1], id);
      var before, one := StageTo(kb, batch, env, n - 1).value, StageOne(kb, batch.ids[n - 1], batch, env).value;
      assert (before + [one])[..|before|] == before;
    }
  }

  /** Read off the inbox before the call: a batch whose proposals name neither key spares every held card. */
  lemma UnkeyedBatchSpares(kb: Kb, batch: Batch, env: Env, fault: Fault, id: KbId)
    requires id in kb.cards && kb.cards[id].hold
    requires forall pid | pid in batch.ids && pid in kb.proposals && kb.proposals[pid].kbId == Some(id) ::
               kb.proposals[pid].diff.hold.None? && kb.proposals[pid].diff.deprecated.None?
    ensures HoldKept(kb, Merged(kb, batch, env, fault), id)
  {
    if StageTo(kb, batch, env, |batch.ids|).Ok? {
      var ops := AllOps(StageTo(kb, batch, env, |batch.ids|).value, batch);
      BatchUnkeyed(kb, batch, env, |batch.ids|, id);
      UnkeyedWritesNeither(ops, Halt(kb, ops, env, fault, 0), id);
    }
    MergeKeepsHoldIff(kb, batch, env, fault, id);
  }

  /** The card is held, and deprecated as at first, after every event of the history. */
  predicate KeptThroughout(kb: Kb, events: seq<Event>, env: Env, id: KbId)
    requires id in kb.cards
  {
    events == []
    || (KeptThroughout(kb, events[..|events| - 1], env, id) && HoldKept(kb, After(kb, events, env), id))
  }

  /** Every merge of the history spares it. */
  predicate SparedThroughout(kb: Kb, events: seq<Event>, env: Env, id: KbId) {
    events == []
    || (var before, last := After(kb, events[..|events| - 1], env), events[|events| - 1];
        && SparedThroughout(kb, events[..|events| - 1], env, id)
        && (last.Merge? && id in before.cards ==> UpdatesSpare(before, last.batch, env, last.fault, id)))
  }

  /** Over any history a card under legal hold stays held and as deprecated as it was exactly when
      every merge spares it. */
  lemma {:induction false} HeldThroughoutIff(kb: Kb, events: seq<Event>, env: Env, id: KbId)
    requires id in kb.cards && kb.cards[id].hold
    ensures KeptThroughout(kb, events, env, id) <==> SparedThroughout(kb, events, env, id)
    ensures KeptThroughout(kb, events, env, id) ==> HoldKept(kb, After(kb, events, env), id)
  {
    if events != [] {
      var front, last := events[..|events| - 1], events[|events| - 1];
      HeldThroughoutIff(kb, front, env, id);
      if last.Merge? && KeptThroughout(kb, front, env, id) {
        MergeKeepsHoldIff(After(kb, front, env), last.batch, env, last.fault, id);
      }
    }
  }
}
