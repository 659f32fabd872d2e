/** Drafting over whole histories: kills, resumes, and plans frozen anew in between. */
module DraftingRuns {
  import opened Durable
  import opened Wrappers
  import opened Drafting

  /** A run on a frozen plan of which at most k writes land. */
  datatype Event = Run(plan: Plan, k: nat)

  function Step<H(==)>(disk: Disk<H>, event: Event, env: Env<H>): Disk<H> {
    Land(Apply, disk, Cut(Attempt(disk, event.plan, env), event.k))
  }

  function After<H(==)>(disk: Disk<H>, events: seq<Event>, env: Env<H>): Disk<H> {
    if events == [] then disk
    else Step(After(disk, events[..|events| - 1], env), events[|events| - 1], env)
  }

  /** The hash names the plan. */
  ghost predicate Named<H>(env: Env<H>) {
    forall p, q :: env.hash(p) == env.hash(q) ==> p == q
  }

  // --------------------------------------------------------- the uninterrupted result

  /** The first draftable section of an id. */
  function OwnerTo(plan: Plan, id: string, n: nat): (o: Option<Section>)
    requires n <= |plan.sections|
    ensures o.Some? ==> o.value in plan.sections && o.value.lane == Model && o.value.id == id
  {
    if n == 0 then None
    else
      var before, section := OwnerTo(plan, id, n - 1), plan.sections[n - 1];
      if before.Some? then before
      else if section.lane == Model && section.id == id then Some(section) else None
  }

  function Owner(plan: Plan, id: string): Option<Section> { OwnerTo(plan, id, |plan.sections|) }

  /** What the finished envelope holds for a section. */
  function Final<H>(plan: Plan, section: Section, env: Env<H>): Entry {
    var owner := Owner(plan, section.id);
    if owner.Some? then env.draft(plan, owner.value) else env.skeleton(plan, section)
  }

  function Finals<H>(plan: Plan, env: Env<H>): seq<Entry> {
    seq(|plan.sections|, i requires 0 <= i < |plan.sections| => Final(plan, plan.sections[i], env))
  }

  /** The checkpoint's entries are this plan's drafts. */
  predicate Honest<H>(plan: Plan, done: map<string, Entry>, env: Env<H>) {
    forall id | id in done :: Owner(plan, id).Some? && done[id] == env.draft(plan, Owner(plan, id).value)
  }

  predicate Covers(plan: Plan, done: map<string, Entry>, n: nat)
    requires n <= |plan.sections|
  {
    forall i | 0 <= i < n :: plan.sections[i].lane == Model ==> plan.sections[i].id in done
  }

  lemma {:induction false} OwnerIsFirst(plan: Plan, id: string, k: nat, n: nat)
    requires k < n <= |plan.sections| && plan.sections[k].lane == Model && plan.sections[k].id == id
    ensures OwnerTo(plan, id, n).Some?
    ensures OwnerTo(plan, id, k).None? ==> OwnerTo(plan, id, n) == Some(plan.sections[k])
  {
    if k < n - 1 { OwnerIsFirst(plan, id, k, n - 1); }
  }

  lemma {:induction false} OwnerIsModel(plan: Plan, id: string, n: nat)
    requires n <= |plan.sections| && OwnerTo(plan, id, n).Some?
    ensures exists i | 0 <= i < n :: plan.sections[i].lane == Model && plan.sections[i].id == id
  {
    if OwnerTo(plan, id, n - 1).Some? { OwnerIsModel(plan, id, n - 1); }
  }

  /** The loop keeps the checkpoint honest and covers the sections it has passed. */
  lemma {:induction false} LoopIsHonest<H>(plan: Plan, from: Checkpoint<H>, env: Env<H>, n: nat)
    requires n <= |plan.sections| && Honest(plan, from.sections, env)
    ensures var c := CheckpointTo(plan, from, env, n);
            && Honest(plan, c.sections, env) && Covers(plan, c.sections, n) && c.plan == from.plan
            && from.sections.Keys <= c.sections.Keys
  {
    if n > 0 {
      LoopIsHonest(plan, from, env, n - 1);
      var before, section := CheckpointTo(plan, from, env, n - 1), plan.sections[n - 1];
      if Due(before, section) {
        if OwnerTo(plan, section.id, n - 1).Some? {
          OwnerIsModel(plan, section.id, n - 1);
        }
        OwnerIsFirst(plan, section.id, n - 1, |plan.sections|);
      }
    }
  }

  lemma AssembledIsFinal<H>(plan: Plan, done: map<string, Entry>, env: Env<H>)
    requires Honest(plan, done, env) && Covers(plan, done, |plan.sections|)
    ensures Assembled(plan, done, env) == Finals(plan, env)
  {
    forall i | 0 <= i < |plan.sections|
      ensures EntryOf(plan, done, plan.sections[i], env) == Final(plan, plan.sections[i], env)
    {
      var id := plan.sections[i].id;
      if Owner(plan, id).Some? { OwnerIsModel(plan, id, |plan.sections|); }
    }
  }

  // -------------------------------------------------------------- what stays true

  /** An envelope of this plan: its sections in order, each its draft or its skeleton; drafted
      throughout when it says complete. */
  predicate Lists<H(==)>(envelope: Envelope<H>, plan: Plan, env: Env<H>) {
    && envelope.plan == env.hash(plan)
    && |envelope.sections| == |plan.sections|
    && (forall i | 0 <= i < |plan.sections| ::
          || envelope.sections[i] == env.skeleton(plan, plan.sections[i])
          || envelope.sections[i] == Final(plan, plan.sections[i], env))
    && (envelope.complete ==> envelope.sections == Finals(plan, env))
  }

  ghost predicate OfItsPlan<H>(envelope: Envelope<H>, env: Env<H>) { exists plan :: Lists(envelope, plan, env) }

  ghost predicate Bound<H>(checkpoint: Checkpoint<H>, env: Env<H>) {
    forall plan :: checkpoint.plan == Some(env.hash(plan)) ==> Honest(plan, checkpoint.sections, env)
  }

  /** A checkpoint holds drafts of the plan it names only, and so does every envelope written. */
  ghost predicate Sound<H>(disk: Disk<H>, env: Env<H>) {
    && (disk.checkpoint.Some? ==> Bound(disk.checkpoint.value, env))
    && (forall e | e in disk.envelopes :: OfItsPlan(e, env))
  }

  ghost predicate SoundWrite<H>(write: Write<H>, plan: Plan, env: Env<H>) {
    match write
    case SaveEnvelope(envelope) => Lists(envelope, plan, env)
    case SaveCheckpoint(checkpoint) => checkpoint.plan == Some(env.hash(plan)) && Honest(plan, checkpoint.sections, env)
    case _ => true
  }

  lemma {:induction false} LandSound<H>(disk: Disk<H>, writes: seq<Write<H>>, plan: Plan, env: Env<H>)
    requires Named(env) && Sound(disk, env) && forall w | w in writes :: SoundWrite(w, plan, env)
    ensures Sound(Land(Apply, disk, writes), env)
  {
    if writes != [] {
      var front, last := writes[..|writes| - 1], writes[|writes| - 1];
      assert writes == front + [last] && SoundWrite(last, plan, env);
      LandSound(disk, front, plan, env);
    }
  }

  lemma {:induction false} LoopWritesSound<H>(plan: Plan, from: Checkpoint<H>, env: Env<H>, n: nat)
    requires n <= |plan.sections| && Honest(plan, from.sections, env) && from.plan == Some(env.hash(plan))
    ensures forall w | w in WritesTo(plan, from, env, n) :: SoundWrite(w, plan, env)
  {
    if n > 0 {
      LoopWritesSound(plan, from, env, n - 1);
      LoopIsHonest(plan, from, env, n);
    }
  }

  lemma ResumedHonest<H>(disk: Disk<H>, plan: Plan, env: Env<H>)
    requires Sound(disk, env)
    ensures var from := Resumed(disk.checkpoint, plan, env);
            Honest(plan, from.sections, env) && from.plan == Some(env.hash(plan))
  {
  }

  lemma AssembledLists<H>(plan: Plan, done: map<string, Entry>, env: Env<H>)
    requires Honest(plan, done, env)
    ensures Lists(Envelope(env.hash(plan), false, Assembled(plan, done, env)), plan, env)
  {
  }

  lemma AttemptSound<H>(disk: Disk<H>, plan: Plan, env: Env<H>)
    requires Sound(disk, env)
    ensures forall w | w in Attempt(disk, plan, env) :: SoundWrite(w, plan, env)
  {
    var from, n := Resumed(disk.checkpoint, plan, env), |plan.sections|;
    ResumedHonest(disk, plan, env);
    AssembledLists(plan, from.sections, env);
    LoopWritesSound(plan, from, env, n);
    LoopIsHonest(plan, from, env, n);
    AssembledIsFinal(plan, CheckpointTo(plan, from, env, n).sections, env);
  }

  /** Every envelope ever written, over any kills, resumes and re-frozen plans, lists exactly its
      own plan's sections in order, and no entry drafted against another plan. */
  lemma {:induction false} EveryEnvelopeIsOfItsPlan<H>(disk: Disk<H>, events: seq<Event>, env: Env<H>)
    requires Named(env) && Sound(disk, env)
    ensures Sound(After(disk, events, env), env)
  {
    if events != [] {
      var front, last := events[..|events| - 1], events[|events| - 1];
      EveryEnvelopeIsOfItsPlan(disk, front, env);
      var before := After(disk, front, env);
      AttemptSound(before, last.plan, env);
      var writes := Attempt(before, last.plan, env);
      assert forall w | w in Cut(writes, last.k) :: w in writes;
      LandSound(before, Cut(writes, last.k), last.plan, env);
    }
  }

  // --------------------------------------------------------- resume is transparent

  lemma ClosingLands<H>(disk: Disk<H>, plan: Plan, last: Checkpoint<H>, env: Env<H>)
    ensures var after := Land(Apply, disk, Closing(plan, last, env));
            && after.envelopes == disk.envelopes + [Envelope(env.hash(plan), true, Assembled(plan, last.sections, env))]
            && after.status == StatusTo(plan, last.sections, |plan.sections|)
            && after.checkpoint == Some(last.(complete := true)) && after.calls == disk.calls
  {
    var writes := Closing(plan, last, env);
    assert writes[..2][..1] == writes[..1] && writes[..1][..0] == [];
    assert Land(Apply, disk, writes[..1]) == Apply(disk, writes[0]);
    assert Land(Apply, disk, writes[..2]) == Apply(Apply(disk, writes[0]), writes[1]);
  }

  lemma {:induction false} SameStatus<H>(plan: Plan, a: map<string, Entry>, b: map<string, Entry>, env: Env<H>, n: nat)
    requires n <= |plan.sections| && Honest(plan, a, env) && Honest(plan, b, env)
    requires Covers(plan, a, |plan.sections|) && Covers(plan, b, |plan.sections|)
    ensures StatusTo(plan, a, n) == StatusTo(plan, b, n)
  {
    if n > 0 { SameStatus(plan, a, b, env, n - 1); }
  }

  /** From any state the stage can leave behind, one uninterrupted run ends with the envelope and
      the draft status of a run never interrupted. */
  lemma RunCompletes<H>(disk: Disk<H>, plan: Plan, env: Env<H>)
    requires Named(env) && Sound(disk, env)
    ensures var after := Land(Apply, disk, Attempt(disk, plan, env));
            && after.envelopes != []
            && after.envelopes[|after.envelopes| - 1] == Envelope(env.hash(plan), true, Finals(plan, env))
            && after.checkpoint.Some? && after.checkpoint.value.complete
            && after.status == StatusTo(plan, after.checkpoint.value.sections, |plan.sections|)
            && Honest(plan, after.checkpoint.value.sections, env)
            && Covers(plan, after.checkpoint.value.sections, |plan.sections|)
  {
    var from, n := Resumed(disk.checkpoint, plan, env), |plan.sections|;
    var last := CheckpointTo(plan, from, env, n);
    var before := Opening(plan, from, env) + WritesTo(plan, from, env, n);
    ResumedHonest(disk, plan, env);
    LoopIsHonest(plan, from, env, n);
    AssembledIsFinal(plan, last.sections, env);
    LandSplit(Apply, disk, before, Closing(plan, last, env));
    ClosingLands(Land(Apply, disk, before), plan, last, env);
  }

  /** Killed and resumed any number of times, then finished: the uninterrupted envelope. */
  lemma ResumeIsTransparent<H>(disk: Disk<H>, events: seq<Event>, plan: Plan, env: Env<H>)
    requires Named(env) && Sound(disk, env)
    ensures var killed := After(disk, events, env);
            var resumed := Land(Apply, killed, Attempt(killed, plan, env));
            var straight := Land(Apply, disk, Attempt(disk, plan, env));
            && resumed.envelopes != [] && straight.envelopes != []
            && resumed.envelopes[|resumed.envelopes| - 1] == straight.envelopes[|straight.envelopes| - 1]
            && resumed.status == straight.status
  {
    EveryEnvelopeIsOfItsPlan(disk, events, env);
    var killed := After(disk, events, env);
    RunCompletes(killed, plan, env);
    RunCompletes(disk, plan, env);
    SameStatus(plan, Land(Apply, killed, Attempt(killed, plan, env)).checkpoint.value.sections,
               Land(Apply, disk, Attempt(disk, plan, env)).checkpoint.value.sections, env, |plan.sections|);
  }

  // ------------------------------------------------------------- no section twice

  /** Once checkpointed for the plan, an id stays so and is not called for again. */
  predicate Spared<H(==)>(write: Write<H>, plan: Plan, id: string, env: Env<H>) {
    match write
    case Call(section) => section != id
    case SaveCheckpoint(checkpoint) => checkpoint.plan == Some(env.hash(plan)) && id in checkpoint.sections
    case _ => true
  }

  predicate Checkpointed<H(==)>(disk: Disk<H>, plan: Plan, id: string, env: Env<H>) {
    disk.checkpoint.Some? && disk.checkpoint.value.plan == Some(env.hash(plan)) && id in disk.checkpoint.value.sections
  }

  lemma {:induction false} LoopSpares<H>(plan: Plan, from: Checkpoint<H>, env: Env<H>, n: nat, id: string)
    requires n <= |plan.sections| && id in from.sections && from.plan == Some(env.hash(plan))
    ensures id in CheckpointTo(plan, from, env, n).sections && CheckpointTo(plan, from, env, n).plan == from.plan
    ensures forall w | w in WritesTo(plan, from, env, n) :: Spared(w, plan, id, env)
  {
    if n > 0 { LoopSpares(plan, from, env, n - 1, id); }
  }

  lemma {:induction false} LandSpares<H>(disk: Disk<H>, writes: seq<Write<H>>, plan: Plan, id: string, env: Env<H>)
    requires Checkpointed(disk, plan, id, env) && forall w | w in writes :: Spared(w, plan, id, env)
    ensures var after := Land(Apply, disk, writes);
            && Checkpointed(after, plan, id, env)
            && multiset(after.calls)[id] == multiset(disk.calls)[id]
  {
    if writes != [] {
      var front, last := writes[..|writes| - 1], writes[|writes| - 1];
      assert writes == front + [last] && Spared(last, plan, id, env);
      LandSpares(disk, front, plan, id, env);
    }
  }

  /** A checkpointed section is never drafted again, however often the plan's run is killed and resumed. */
  lemma {:induction false} NeverDraftedAgain<H>(disk: Disk<H>, events: seq<Event>, plan: Plan, id: string, env: Env<H>)
    requires Checkpointed(disk, plan, id, env) && forall e | e in events :: e.plan == plan
    ensures var after := After(disk, events, env);
            Checkpointed(after, plan, id, env) && multiset(after.calls)[id] == multiset(disk.calls)[id]
  {
    if events != [] {
      var front, last := events[..|events| - 1], events[|events| - 1];
      NeverDraftedAgain(disk, front, plan, id, env);
      var before := After(disk, front, env);
      assert last in events && last.plan == plan;
      LoopSpares(plan, before.checkpoint.value, env, |plan.sections|, id);
      var writes := Attempt(before, plan, env);
      assert forall w | w in Cut(writes, last.k) :: w in writes;
      LandSpares(before, Cut(writes, last.k), plan, id, env);
    }
  }
}
