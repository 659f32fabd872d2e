/**
  The steward's batch merge (engine/kb/curation.py, merge_batch) over the proposal store
  (engine/flywheel/proposals.py): validate the whole batch, then apply it operation by operation.
 */
module Curation {
  import opened Wrappers

  type KbId = string
  type Pid = string

  datatype Lesson = Lesson(proposal: Pid, at: string, from: string, after: string)

  datatype Mark = Mark(at: string, from: string, proposal: Pid)

  /** `fields` is the front matter but for the three keys named beside it. */
  datatype Card = Card(fields: map<string, string>, lessons: seq<Lesson>, deprecated: Option<Mark>, hold: bool,
                       body: string)

  datatype Status = Proposed | Accepted | Rejected | Voided

  datatype Decided = Decided(from: string, at: string)

  /** The after-values of a proposal's diff: `texts` by key, and the keys whose values are no
      text: derived_from, lessons, deprecated and legal_hold. */
  datatype Diff = Diff(texts: map<string, string>, derived: Option<seq<KbId>>, lessons: Option<seq<Lesson>>,
                       deprecated: Option<Mark>, hold: Option<bool>)

  datatype Proposal = Proposal(kind: string, kbId: Option<KbId>, diff: Diff, status: Status, decided: Option<Decided>)

  /** What an update writes over a card's front matter: any of its keys. */
  datatype Update = Update(fields: map<string, string>, lessons: Option<seq<Lesson>>, deprecated: Option<Mark>,
                           hold: Option<bool>)

  const NOTHING := Update(map[], None, None, None)

  /** `before` and `after` are the snapshots of the cards. */
  datatype LogLine = LogLine(at: string, from: string, accepted: seq<Pid>, voided: seq<Pid>,
                             before: map<KbId, Card>, after: map<KbId, Card>, aborted: bool)

  datatype Kb = Kb(cards: map<KbId, Card>, proposals: map<Pid, Proposal>, log: seq<LogLine>)

  /** The card schema, the residue scan and the content-anchored id. */
  datatype Env = Env(fits: Card -> bool, residue: (string, string) -> bool, mint: string -> KbId)

  datatype Batch = Batch(ids: seq<Pid>, from: string, at: string, fills: map<Pid, map<string, string>>)

  // ------------------------------------------------------------------ the homes

  datatype Home = CardField(kbId: KbId) | CardLesson(kbId: KbId) | Note | Deprecate(kbId: KbId) | NewCard | NoHome

  const NOTE_KINDS := {"voice_spec_change", "playbook_note", "validation_tuning_note"}

  function Changes(p: Proposal): Update {
    Update(p.diff.texts - {"text"}, p.diff.lessons, p.diff.deprecated, p.diff.hold)
  }

  function Overlaid(card: Card, update: Update): Card {
    Card(card.fields + update.fields,
         if update.lessons.Some? then update.lessons.value else card.lessons,
         if update.deprecated.Some? then update.deprecated else card.deprecated,
         if update.hold.Some? then update.hold.value else card.hold,
         card.body)
  }

  /** Where an accepted proposal lands, named before the decision. */
  function HomeOf(cards: map<KbId, Card>, p: Proposal): Home {
    if p.kind == "update_card" && p.kbId.Some? then
      if p.kbId.value !in cards then NoHome
      else if Changes(p) != NOTHING || p.diff.derived.Some? then CardField(p.kbId.value)
      else if "text" in p.diff.texts then CardLesson(p.kbId.value)
      else NoHome
    else if p.kind == "update_card" || p.kind in NOTE_KINDS then Note
    else if p.kind == "deprecate_card" then
      if p.kbId.None? || p.kbId.value !in cards then NoHome else Deprecate(p.kbId.value)
    else if p.kind == "new_card" then NewCard
    else NoHome
  }

  function Get(m: map<string, string>, key: string, default: string): string { if key in m then m[key] else default }

  function FirstLine(body: string): string {
    if body == "" || body[0] == '\n' then "" else [body[0]] + FirstLine(body[1..])
  }

  function Title(p: Proposal): string {
    var line := FirstLine(Get(p.diff.texts, "body", ""));
    Get(p.diff.texts, "title", if |line| > 80 then line[..80] else line)
  }

  function With(fields: map<string, string>, fill: map<string, string>, key: string): map<string, string> {
    if key in fill then fields[key := fill[key]] else fields
  }

  function Drafted(p: Proposal, fill: map<string, string>): Card {
    var fields := map["layer" := Get(p.diff.texts, "layer", "fact_sheet"),
        "doc_kind" := Get(p.diff.texts, "doc_kind", "fact"),
                      "title" := Title(p), "summary" := Title(p), "grain" := Get(p.diff.texts, "grain", "atom"),
                      "content_origin" := Get(p.diff.texts, "content_origin", "source_text")];
    Card(With(With(With(fields, fill, "owner"), fill, "verified_date"), fill, "review_due"), [], None, false,
         Get(p.diff.texts, "body", ""))
  }

  /** Every refusal a new card's acceptance can raise. */
  function CheckNewCard(cards: map<KbId, Card>, p: Proposal, fill: map<string, string>, env: Env)
    : Result<Card, string>
  {
    var body, card := Get(p.diff.texts, "body", ""), Drafted(p, fill);
    if body == "" then Raised("without a body")
    else if p.diff.derived.Some? && exists id :: id in p.diff.derived.value && id !in cards
        then Raised("derived from a missing card")
    else if env.residue(Title(p), body) then Raised("identifier residue")
    else if card.fields["layer"] == "fact_sheet"
        && (Get(card.fields, "owner", "") == "" || Get(card.fields, "verified_date", "") == "")
    then Raised("a fact card needs owner and verified_date")
    else if env.mint(body) in cards then Raised("already exists")
    else Ok(card)
  }

  // ------------------------------------------------------------------ operations

  datatype Op =
    | Front(kbId: KbId, update: Update)
    | AddLesson(kbId: KbId, lesson: Lesson)
    | Withdraw(kbId: KbId, mark: Mark)
    | MintCard(proposal: Proposal, fill: map<string, string>)
    | Accept(pid: Pid, decided: Decided)

  /** `render_card`: provenance is restricted and never enters a card file. */
  predicate Renders(card: Card) { "provenance" !in card.fields }

  /** `update_card_front(kb_id, **fields)`: a key named kb_id would be a second value for its first
      argument. */
  predicate Callable(update: Update) { "kb_id" !in update.fields }

  /** A write validates, as the first pass does, and then renders, which the first pass does not. */
  predicate Lands(card: Card, env: Env) { env.fits(card) && Renders(card) }

  function Rewritten(kb: Kb, id: KbId, card: Card, env: Env): Result<Kb, string> {
    if !env.fits(card) then Raised("does not validate")
    else if !Renders(card) then Raised("provenance never enters a card file")
    else Ok(kb.(cards := kb.cards[id := card]))
  }

  /** A decision is made once. */
  function Decide(kb: Kb, pid: Pid, status: Status, decided: Decided): Result<Kb, string> {
    if pid !in kb.proposals then Raised("no such proposal")
    else if kb.proposals[pid].status != Proposed then Raised("already decided")
    else Ok(kb.(proposals := kb.proposals[pid := kb.proposals[pid].(status := status, decided := Some(decided))]))
  }

  /** The card carries the lesson of a proposal. */
  predicate Taught(card: Card, pid: Pid) { exists l :: l in card.lessons && l.proposal == pid }

  function ApplyOp(kb: Kb, op: Op, env: Env): Result<Kb, string> {
    match op
    case Front(id, update) =>
      if !Callable(update) then Raised("two values for kb_id")
      else if id !in kb.cards then Raised("no such card")
      else Rewritten(kb, id, Overlaid(kb.cards[id], update), env)
    case AddLesson(id, lesson) =>
      if id !in kb.cards then Raised("no such card")
      else if Taught(kb.cards[id], lesson.proposal) then Ok(kb)
      else Rewritten(kb, id, kb.cards[id].(lessons := kb.cards[id].lessons + [lesson]), env)
    case Withdraw(id, mark) =>
      if id !in kb.cards then Raised("no such card")
      else Rewritten(kb, id, kb.cards[id].(deprecated := Some(mark)), env)
    case MintCard(p, fill) =>
      (match CheckNewCard(kb.cards, p, fill, env)
       case Raised(why) => Raised(why)
       case Ok(card) => Rewritten(kb, env.mint(card.body), card, env))
    case Accept(pid, decided) => Decide(kb, pid, Accepted, decided)
  }

  /** The first n operations, each on what the one before it left. */
  function Performed(kb: Kb, ops: seq<Op>, env: Env, n: nat): Result<Kb, string>
    requires n <= |ops|
  {
    if n == 0 then Ok(kb)
    else
      match Performed(kb, ops, env, n - 1)
      case Raised(why) => Raised(why)
      case Ok(before) => ApplyOp(before, ops[n - 1], env)
  }

  // ----------------------------------------------------- pass 1: the whole batch

  datatype Staged = Staged(pid: Pid, proposal: Proposal, home: Home, changes: Update, lesson: Option<Lesson>)

  function FillOf(batch: Batch, pid: Pid): map<string, string> {
    if pid in batch.fills then batch.fills[pid] else map[]
  }

  function LessonOf(pid: Pid, p: Proposal, batch: Batch): Option<Lesson> {
    if "text" in p.diff.texts then Some(Lesson(pid, batch.at, batch.from, p.diff.texts["text"])) else None
  }

  /** The card as the change would leave it, without writing it. */
  function Dry(card: Card, p: Proposal, lesson: Option<Lesson>): Card {
    var changed := Overlaid(card, Changes(p));
    if lesson.Some? then changed.(lessons := card.lessons + [lesson.value]) else changed
  }

  function StageOne(kb: Kb, pid: Pid, batch: Batch, env: Env): Result<Staged, string> {
    if pid !in kb.proposals then Raised("no such proposal")
    else
      var p := kb.proposals[pid];
      var home := HomeOf(kb.cards, p);
      if p.status != Proposed then Raised("already decided")
      else
        match home
        case NoHome => Raised("no home")
        case Note => Ok(Staged(pid, p, home, NOTHING, None))
        case Deprecate(id) =>
          if kb.cards[id].hold then Raised("under legal hold") else Ok(Staged(pid, p, home, NOTHING, None))
        case NewCard =>
          (match CheckNewCard(kb.cards, p, FillOf(batch, pid), env)
           case Raised(why) => Raised(why)
           case Ok(_) => Ok(Staged(pid, p, home, NOTHING, None)))
        case _ =>
          var lesson := LessonOf(pid, p, batch);
          if lesson.Some? && lesson.value.after == "" then Raised("a lesson needs text")
          else if p.diff.derived.Some? || !env.fits(Dry(kb.cards[home.kbId], p, lesson)) then Raised("does not fit")
          else Ok(Staged(pid, p, home, Changes(p), lesson))
  }

  function StageNext(kb: Kb, batch: Batch, env: Env, k: nat, before: seq<Staged>): Result<seq<Staged>, string>
    requires k < |batch.ids|
  {
    if batch.ids[k] in batch.ids[..k] then Raised("appears more than once")
    else
      match StageOne(kb, batch.ids[k], batch, env)
      case Raised(why) => Raised(why)
      case Ok(staged) => Ok(before + [staged])
  }

  function StageTo(kb: Kb, batch: Batch, env: Env, n: nat): Result<seq<Staged>, string>
    requires n <= |batch.ids|
  {
    if n == 0 then Ok([])
    else
      match StageTo(kb, batch, env, n - 1)
      case Raised(why) => Raised(why)
      case Ok(before) => StageNext(kb, batch, env, n - 1, before)
  }

  // ------------------------------------------------------- pass 2: the operations

  function Decision(batch: Batch): Decided { Decided(batch.from, batch.at) }

  function FrontOps(s: Staged): seq<Op> {
    if s.changes != NOTHING && s.proposal.kbId.Some? then [Front(s.proposal.kbId.value, s.changes)] else []
  }

  function LessonOps(s: Staged): seq<Op> {
    if s.lesson.Some? && s.proposal.kbId.Some? then [AddLesson(s.proposal.kbId.value, s.lesson.value)] else []
  }

  function HomeOps(s: Staged, batch: Batch): seq<Op> {
    match s.home
    case Deprecate(id) => [Withdraw(id, Mark(batch.at, batch.from, s.pid))]
    case NewCard => [MintCard(s.proposal, FillOf(batch, s.pid))]
    case _ => []
  }

  /** What one staged proposal writes; the decision is last. */
  function OpsOf(s: Staged, batch: Batch): seq<Op> {
    FrontOps(s) + LessonOps(s) + HomeOps(s, batch) + [Accept(s.pid, Decision(batch))]
  }

  function AllOps(staged: seq<Staged>, batch: Batch): seq<Op> {
    if staged == [] then [] else AllOps(staged[..|staged| - 1], batch) + OpsOf(staged[|staged| - 1], batch)
  }

  /** `Fault(at, killed)`: operation `at` of pass 2 fails from outside, or the process dies there.
      None leaves the failures of the operations themselves. */
  datatype Fault = NoFault | Fails(at: nat) | Dies(at: nat)

  predicate Hits(fault: Fault, n: nat) { (fault.Fails? || fault.Dies?) && fault.at == n }

  /** How many operations pass 2 performs, having performed n. */
  function Halt(kb: Kb, ops: seq<Op>, env: Env, fault: Fault, n: nat): (m: nat)
    requires n <= |ops| && Performed(kb, ops, env, n).Ok?
    ensures n <= m <= |ops| && Performed(kb, ops, env, m).Ok?
    decreases |ops| - n
  {
    if n == |ops| || Hits(fault, n) || Performed(kb, ops, env, n + 1).Raised? then n
    else Halt(kb, ops, env, fault, n + 1)
  }

  /** The decisions among the first n operations. */
  function AcceptedIn(ops: seq<Op>, n: nat): seq<Pid>
    requires n <= |ops|
  {
    if n == 0 then []
    else if ops[n - 1].Accept? then AcceptedIn(ops, n - 1) + [ops[n - 1].pid] else AcceptedIn(ops, n - 1)
  }

  /** Killed at or after the last operation but before the log line. */
  predicate Killed(fault: Fault, n: nat) { fault.Dies? && fault.at == n }

  function Logged(before: Kb, after: Kb, ops: seq<Op>, batch: Batch, n: nat): Kb
    requires n <= |ops|
  {
    after.(log := after.log
        + [LogLine(batch.at, batch.from, AcceptedIn(ops, n), [], before.cards, after.cards, n < |ops|)])
  }

  /** The knowledge base after a call, whatever ended it. */
  function Merged(kb: Kb, batch: Batch, env: Env, fault: Fault): Kb {
    match StageTo(kb, batch, env, |batch.ids|)
    case Raised(_) => kb
    case Ok(staged) =>
      var ops := AllOps(staged, batch);
      var n := Halt(kb, ops, env, fault, 0);
      var after := Performed(kb, ops, env, n).value;
      if Killed(fault, n) then after else Logged(kb, after, ops, batch, n)
  }

  // -------------------------------------------------------- what n operations are

  lemma {:induction false} PerformedEarlier(kb: Kb, ops: seq<Op>, env: Env, k: nat, n: nat)
    requires k <= n <= |ops| && Performed(kb, ops, env, n).Ok?
    ensures Performed(kb, ops, env, k).Ok?
  {
    if k < n { PerformedEarlier(kb, ops, env, k, n - 1); }
  }

  /** Pass 2 halts at the first operation that a fault hits or that fails by itself. */
  lemma HaltIs(kb: Kb, ops: seq<Op>, env: Env, fault: Fault, k: nat, n: nat)
    requires k <= n <= |ops| && Performed(kb, ops, env, n).Ok? && Performed(kb, ops, env, k).Ok?
    requires forall m | k <= m < n :: !Hits(fault, m)
    requires n == |ops| || Hits(fault, n) || Performed(kb, ops, env, n + 1).Raised?
    ensures Halt(kb, ops, env, fault, k) == n
  {
    HaltHere(kb, ops, env, fault, n);
    HaltFrom(kb, ops, env, fault, k, n);
  }

  lemma {:induction false} HaltFrom(kb: Kb, ops: seq<Op>, env: Env, fault: Fault, k: nat, n: nat)
    requires k <= n <= |ops| && Performed(kb, ops, env, n).Ok?
    requires Halt(kb, ops, env, fault, n) == n && forall m | k <= m < n :: !Hits(fault, m)
    ensures Performed(kb, ops, env, k).Ok? && Halt(kb, ops, env, fault, k) == n
    decreases n - k
  {
    if k < n {
      HaltFrom(kb, ops, env, fault, k + 1, n);
      HaltStep(kb, ops, env, fault, k, n);
    }
  }

  lemma HaltHere(kb: Kb, ops: seq<Op>, env: Env, fault: Fault, n: nat)
    requires n <= |ops| && Performed(kb, ops, env, n).Ok?
    requires n == |ops| || Hits(fault, n) || Performed(kb, ops, env, n + 1).Raised?
    ensures Halt(kb, ops, env, fault, n) == n
  {
  }

  lemma HaltStep(kb: Kb, ops: seq<Op>, env: Env, fault: Fault, k: nat, n: nat)
    requires k < |ops| && !Hits(fault, k)
    requires Performed(kb, ops, env, k + 1).Ok? && Halt(kb, ops, env, fault, k + 1) == n
    ensures Performed(kb, ops, env, k).Ok? && Halt(kb, ops, env, fault, k) == n
  {
  }

  function Pids(staged: seq<Staged>): seq<Pid> {
    seq(|staged|, i requires 0 <= i < |staged| => staged[i].pid)
  }

  lemma {:induction false} AcceptedSplit(a: seq<Op>, b: seq<Op>, n: nat)
    requires n <= |b|
    ensures AcceptedIn(a + b, |a| + n) == AcceptedIn(a, |a|) + AcceptedIn(b, n)
  {
    if n == 0 {
      AcceptedPrefix(a, b, |a|);
    } else {
      AcceptedSplit(a, b, n - 1);
    }
  }

  lemma {:induction false} AcceptedPrefix(a: seq<Op>, b: seq<Op>, n: nat)
    requires n <= |a|
    ensures AcceptedIn(a + b, n) == AcceptedIn(a, n)
  {
    if n > 0 { AcceptedPrefix(a, b, n - 1); }
  }

  lemma {:induction false} NoneAccepted(ops: seq<Op>, n: nat)
    requires n <= |ops| && forall i | 0 <= i < n :: !ops[i].Accept?
    ensures AcceptedIn(ops, n) == []
  {
    if n > 0 { NoneAccepted(ops, n - 1); }
  }

  lemma OpsAt(s: Staged, batch: Batch)
    ensures var f, l, h := |FrontOps(s)|, |LessonOps(s)|, |HomeOps(s, batch)|;
            var ops := OpsOf(s, batch);
            && |ops| == f + l + h + 1 && ops[f + l + h] == Accept(s.pid, Decision(batch))
            && (f == 1 ==> ops[0] == FrontOps(s)[0])
            && (l == 1 ==> ops[f] == LessonOps(s)[0])
            && (h == 1 ==> ops[f + l] == HomeOps(s, batch)[0])
  {
  }

  /** The decision is a proposal's last operation. */
  lemma BlockAccepts(s: Staged, batch: Batch, n: nat)
    requires n <= |OpsOf(s, batch)|
    ensures AcceptedIn(OpsOf(s, batch), n) == if n == |OpsOf(s, batch)| then [s.pid] else []
  {
    var ops := OpsOf(s, batch);
    NoneAccepted(ops, |ops| - 1);
    if n < |ops| { NoneAccepted(ops, n); }
  }

  lemma PidsPush(staged: seq<Staged>, m: nat)
    requires m < |staged|
    ensures Pids(staged[..m + 1]) == Pids(staged[..m]) + [staged[m].pid]
  {
  }

  lemma AcceptedPush(a: seq<Op>, block: seq<Op>, pids: seq<Pid>, pid: Pid)
    requires AcceptedIn(a, |a|) == pids && AcceptedIn(block, |block|) == [pid]
    ensures AcceptedIn(a + block, |a + block|) == pids + [pid]
  {
    AcceptedSplit(a, block, |block|);
  }

  lemma {:induction false} AllAccepted(staged: seq<Staged>, batch: Batch)
    ensures AcceptedIn(AllOps(staged, batch), |AllOps(staged, batch)|) == Pids(staged)
  {
    if staged != [] {
      var m := |staged| - 1;
      var block := OpsOf(staged[m], batch);
      AllAccepted(staged[..m], batch);
      BlockAccepts(staged[m], batch, |block|);
      AcceptedPush(AllOps(staged[..m], batch), block, Pids(staged[..m]), staged[m].pid);
      PidsPush(staged, m);
      assert staged[..m + 1] == staged;
    }
  }

  lemma {:induction false} AllOpsSplit(staged: seq<Staged>, batch: Batch, m: nat)
    requires m < |staged|
    ensures AllOps(staged[..m + 1], batch) == AllOps(staged[..m], batch) + OpsOf(staged[m], batch)
    ensures AllOps(staged[..m + 1], batch) <= AllOps(staged, batch)
  {
    assert staged[..m + 1][..m] == staged[..m];
    if m + 1 < |staged| {
      var front := staged[..|staged| - 1];
      AllOpsSplit(front, batch, m);
      assert front[..m + 1] == staged[..m + 1];
    } else {
      assert staged[..m + 1] == staged;
    }
  }

  lemma BlockAt(staged: seq<Staged>, batch: Batch, m: nat)
    requires m < |staged|
    ensures |AllOps(staged[..m], batch)| + |OpsOf(staged[m], batch)| == |AllOps(staged[..m + 1], batch)|
    ensures |AllOps(staged[..m + 1], batch)| <= |AllOps(staged, batch)|
    ensures OpsOf(staged[m], batch) <= AllOps(staged, batch)[|AllOps(staged[..m], batch)|..]
  {
    AllOpsSplit(staged, batch, m);
    var before, block, ops := AllOps(staged[..m], batch), OpsOf(staged[m], batch), AllOps(staged, batch);
    assert ops[..|before + block|] == before + block;
    assert ops[|before|..][..|block|] == block;
  }

  /** n operations are those of m whole proposals and less than one more. */
  predicate Within(staged: seq<Staged>, batch: Batch, m: nat, n: nat) {
    && m <= |staged| && |AllOps(staged[..m], batch)| <= n
    && if m < |staged| then n < |AllOps(staged[..m + 1], batch)| else n == |AllOps(staged, batch)|
  }

  lemma AcceptedMiddle(before: seq<Op>, block: seq<Op>, rest: seq<Op>, n: nat, pids: seq<Pid>)
    requires |before| <= n < |before| + |block|
    requires AcceptedIn(before, |before|) == pids && AcceptedIn(block, n - |before|) == []
    ensures AcceptedIn(before + block + rest, n) == pids
  {
    AcceptedPrefix(before + block, rest, n);
    AcceptedSplit(before, block, n - |before|);
  }

  lemma AllOpsAround(staged: seq<Staged>, batch: Batch, m: nat) returns (rest: seq<Op>)
    requires m < |staged|
    ensures AllOps(staged, batch) == AllOps(staged[..m], batch) + OpsOf(staged[m], batch) + rest
    ensures AllOps(staged[..m + 1], batch) == AllOps(staged[..m], batch) + OpsOf(staged[m], batch)
  {
    AllOpsSplit(staged, batch, m);
    rest := AllOps(staged, batch)[|AllOps(staged[..m + 1], batch)|..];
  }

  lemma AcceptedInBlock(s: Staged, batch: Batch, before: seq<Op>, rest: seq<Op>, n: nat, pids: seq<Pid>)
    requires |before| <= n < |before| + |OpsOf(s, batch)| && AcceptedIn(before, |before|) == pids
    ensures AcceptedIn(before + OpsOf(s, batch) + rest, n) == pids
  {
    BlockAccepts(s, batch, n - |before|);
    AcceptedMiddle(before, OpsOf(s, batch), rest, n, pids);
  }

  lemma AllWithin(staged: seq<Staged>, batch: Batch)
    ensures AcceptedIn(AllOps(staged, batch), |AllOps(staged, batch)|) == Pids(staged[..|staged|])
  {
    assert staged[..|staged|] == staged;
    AllAccepted(staged, batch);
  }

  lemma AcceptedWithin(staged: seq<Staged>, batch: Batch, m: nat, n: nat)
    requires Within(staged, batch, m, n) && n <= |AllOps(staged, batch)|
    ensures AcceptedIn(AllOps(staged, batch), n) == Pids(staged[..m])
  {
    if m == |staged| {
      AllWithin(staged, batch);
    } else {
      AllAccepted(staged[..m], batch);
      var rest := AllOpsAround(staged, batch, m);
      AcceptedInBlock(staged[m], batch, AllOps(staged[..m], batch), rest, n, Pids(staged[..m]));
    }
  }

  /** Wherever pass 2 halts, the accepted ids are a prefix of the batch, and at most one more
      proposal has operations of its own performed. */
  lemma HaltsWithin(staged: seq<Staged>, batch: Batch, n: nat) returns (m: nat)
    requires n <= |AllOps(staged, batch)|
    ensures Within(staged, batch, m, n)
    ensures AcceptedIn(AllOps(staged, batch), n) == Pids(staged[..m])
  {
    m := BlockOf(staged, batch, n, |staged|);
    AcceptedWithin(staged, batch, m, n);
  }

  /** The block the n-th operation lies in, searched from the end. */
  lemma {:induction false} BlockOf(staged: seq<Staged>, batch: Batch, n: nat, k: nat) returns (m: nat)
    requires k <= |staged| && n <= |AllOps(staged, batch)|
    requires if k < |staged| then n < |AllOps(staged[..k + 1], batch)| else true
    ensures Within(staged, batch, m, n)
  {
    if k == |staged| { assert staged[..k] == staged; }
    if |AllOps(staged[..k], batch)| <= n {
      m := k;
    } else {
      m := BlockOf(staged, batch, n, k - 1);
    }
  }

  // ------------------------------------------------------------------ the calls

  datatype End = Refused | Done | Aborted | Dead

  /** The store, the proposals and the log under the root's lock. */
  class Steward {
    var kb: Kb
    const env: Env
    const fault: Fault
    var done: nat
    ghost var start: Kb
    ghost var owed: seq<Op>

    constructor (kb: Kb, env: Env, fault: Fault)
      ensures this.kb == kb && this.env == env && this.fault == fault
    {
      this.kb, this.env, this.fault, done, start, owed := kb, env, fault, 0, kb, [];
    }

    ghost predicate Valid() reads this {
      && done <= |owed| && Performed(start, owed, env, done) == Ok(kb)
      && forall m | 0 <= m < done :: !Hits(fault, m)
    }

    ghost predicate Stuck() reads this requires Valid() {
      done < |owed| && (Hits(fault, done) || Performed(start, owed, env, done + 1).Raised?)
    }

    method Do(op: Op) returns (went: bool)
      requires Valid() && done < |owed| && owed[done] == op
      modifies this`kb, this`done
      ensures Valid()
      ensures if went then done == old(done) + 1 else done == old(done) && Stuck()
    {
      if Hits(fault, done) { return false; }
      var r := ApplyOp(kb, op, env);
      if r.Raised? { return false; }
      kb, done := r.value, done + 1;
      return true;
    }

    method ApplyStaged(s: Staged, batch: Batch) returns (went: bool)
      requires Valid() && OpsOf(s, batch) <= owed[done..]
      modifies this`kb, this`done
      ensures Valid()
      ensures if went then done == old(done) + |OpsOf(s, batch)|
              else Stuck() && old(done) <= done < old(done) + |OpsOf(s, batch)|
    {
      ghost var ops, began := OpsOf(s, batch), done;
      ghost var f, l, h := |FrontOps(s)|, |LessonOps(s)|, |HomeOps(s, batch)|;
      OpsAt(s, batch);
      assert forall i | 0 <= i < |ops| :: owed[done + i] == ops[i];
      if s.changes != NOTHING && s.proposal.kbId.Some? {
        went := Do(Front(s.proposal.kbId.value, s.changes));
        if !went { return; }
      }
      assert done == began + f;
      if s.lesson.Some? && s.proposal.kbId.Some? {
        went := Do(AddLesson(s.proposal.kbId.value, s.lesson.value));
        if !went { return; }
      }
      assert done == began + f + l;
      if s.home.Deprecate? {
        went := Do(Withdraw(s.home.kbId, Mark(batch.at, batch.from, s.pid)));
        if !went { return; }
      } else if s.home.NewCard? {
        went := Do(MintCard(s.proposal, FillOf(batch, s.pid)));
        if !went { return; }
      }
      assert done == began + f + l + h;
      went := Do(Accept(s.pid, Decision(batch)));
    }

    method Stage(batch: Batch) returns (r: Result<seq<Staged>, string>)
      ensures r == StageTo(kb, batch, env, |batch.ids|)
    {
      r := Ok([]);
      var seen: set<Pid> := {};
      for k := 0 to |batch.ids|
        invariant r.Ok? && r == StageTo(kb, batch, env, k)
        invariant forall pid :: pid in seen <==> pid in batch.ids[..k]
      {
        StageTurn(kb, batch, env, k, r.value);
        var pid := batch.ids[k];
        if pid in seen { return Raised("appears more than once"); }
        seen := seen + {pid};
        var one := StageOne(kb, pid, batch, env);
        if one.Raised? { return Raised(one.why); }
        r := Ok(r.value + [one.value]);
      }
    }

    /** Pass 2: the ids accepted, in order. */
    method ApplyAll(staged: seq<Staged>, batch: Batch) returns (accepted: seq<Pid>)
      requires Valid() && done == 0 && owed == AllOps(staged, batch)
      modifies this`kb, this`done
      ensures Valid() && (done == |owed| || Stuck())
      ensures accepted == AcceptedIn(owed, done)
    {
      accepted := [];
      for i := 0 to |staged|
        invariant Valid() && done == |AllOps(staged[..i], batch)|
        invariant accepted == Pids(staged[..i])
      {
        BlockAt(staged, batch, i);
        var went := ApplyStaged(staged[i], batch);
        if !went {
          AcceptedWithin(staged, batch, i, done);
          return;
        }
        PidsPush(staged, i);
        accepted := accepted + [staged[i].pid];
      }
      assert staged[..|staged|] == staged;
      AllAccepted(staged, batch);
    }

    method MergeBatch(batch: Batch) returns (end: End)
      modifies this
      ensures kb == Merged(old(kb), batch, env, fault)
      ensures end == Refused <==> StageTo(old(kb), batch, env, |batch.ids|).Raised?
    {
      var staged := Stage(batch);
      if staged.Raised? { return Refused; }
      var before := kb;
      start, owed, done := kb, AllOps(staged.value, batch), 0;
      var accepted := ApplyAll(staged.value, batch);
      HaltIs(start, owed, env, fault, 0, done);
      ghost var n := done;
      if fault.Dies? && fault.at == done { return Dead; }
      var all := Length(staged.value, batch);
      kb := kb.(log := kb.log + [LogLine(batch.at, batch.from, accepted, [], before.cards, kb.cards, done < all)]);
      return if done < all then Aborted else Done;
    }

    method Length(staged: seq<Staged>, batch: Batch) returns (n: nat)
      ensures n == |AllOps(staged, batch)|
    {
      return |AllOps(staged, batch)|;
    }
  }

  /** One more id, after a prefix that is admitted. */
  lemma StageTurn(kb: Kb, batch: Batch, env: Env, k: nat, before: seq<Staged>)
    requires k < |batch.ids| && StageTo(kb, batch, env, k) == Ok(before)
    ensures StageTo(kb, batch, env, k + 1) == StageNext(kb, batch, env, k, before)
    ensures StageTo(kb, batch, env, k + 1).Raised?
        ==> StageTo(kb, batch, env, |batch.ids|) == StageTo(kb, batch, env, k + 1)
  {
    if StageTo(kb, batch, env, k + 1).Raised? { StageStops(kb, batch, env, k + 1, |batch.ids|); }
  }

  lemma {:induction false} StageStops(kb: Kb, batch: Batch, env: Env, k: nat, n: nat)
    requires k <= n <= |batch.ids| && StageTo(kb, batch, env, k).Raised?
    ensures StageTo(kb, batch, env, n) == StageTo(kb, batch, env, k)
  {
    if k < n { StageStops(kb, batch, env, k, n - 1); }
  }
}
