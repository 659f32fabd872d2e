/** Drafting when a section's replies end the run (engine/drafting/draft.py, run_drafting). */
module DraftingTrips {
  import opened Durable
  import opened Wrappers
  import opened Drafting
  import opened DraftingRuns

  /** The replies to this section end the run, on every try. */
  type Trips = (Plan, Section) -> bool

  predicate TripsAt<H>(plan: Plan, from: Checkpoint<H>, env: Env<H>, trips: Trips, i: nat)
    requires i < |plan.sections|
  {
    Due(CheckpointTo(plan, from, env, i), plan.sections[i]) && trips(plan, plan.sections[i])
  }

  /** The first of n sections that ends the loop, or n. */
  function StopTo<H>(plan: Plan, from: Checkpoint<H>, env: Env<H>, trips: Trips, n: nat): (s: nat)
    requires n <= |plan.sections|
    ensures s <= n
  {
    if n == 0 then 0
    else
      var s := StopTo(plan, from, env, trips, n - 1);
      if s < n - 1 || TripsAt(plan, from, env, trips, n - 1) then s else n
  }

  function Stop<H>(plan: Plan, from: Checkpoint<H>, env: Env<H>, trips: Trips): (s: nat)
    ensures s <= |plan.sections|
  {
    StopTo(plan, from, env, trips, |plan.sections|)
  }

  /** What a run writes: all of the attempt, or up to the call that raises. */
  function RunWrites<H(==)>(disk: Disk<H>, plan: Plan, env: Env<H>, trips: Trips): seq<Write<H>> {
    var from := Resumed(disk.checkpoint, plan, env);
    var s := Stop(plan, from, env, trips);
    if s == |plan.sections| then Attempt(disk, plan, env)
    else Opening(plan, from, env) + WritesTo(plan, from, env, s) + [Call(plan.sections[s].id)]
  }

  function Next<H(==)>(disk: Disk<H>, event: Event, env: Env<H>, trips: Trips): Disk<H> {
    Land(Apply, disk, Cut(RunWrites(disk, event.plan, env, trips), event.k))
  }

  function Later<H(==)>(disk: Disk<H>, events: seq<Event>, env: Env<H>, trips: Trips): Disk<H> {
    if events == [] then disk
    else Next(Later(disk, events[..|events| - 1], env, trips), events[|events| - 1], env, trips)
  }

  /** The section that would be drafted for this id ends the run. */
  predicate Bad(plan: Plan, id: string, trips: Trips) {
    Owner(plan, id).Some? && trips(plan, Owner(plan, id).value)
  }

  predicate Blocked(plan: Plan, trips: Trips) {
    exists i :: 0 <= i < |plan.sections| && Bad(plan, plan.sections[i].id, trips)
  }

  predicate Clean(plan: Plan, done: map<string, Entry>, trips: Trips) {
    forall id | id in done :: !Bad(plan, id, trips)
  }

  // --------------------------------------------------------------- where a run stops

  lemma {:induction false} StopMeans<H>(plan: Plan, from: Checkpoint<H>, env: Env<H>, trips: Trips, n: nat)
    requires n <= |plan.sections|
    ensures var s := StopTo(plan, from, env, trips, n);
            && (forall i | 0 <= i < s :: !TripsAt(plan, from, env, trips, i))
            && (s < n ==> TripsAt(plan, from, env, trips, s))
  {
    if n > 0 { StopMeans(plan, from, env, trips, n - 1); }
  }

  /** A section that is due is the owner of its id. */
  lemma DueIsOwner<H>(plan: Plan, from: Checkpoint<H>, env: Env<H>, i: nat)
    requires i < |plan.sections| && Honest(plan, from.sections, env)
    requires Due(CheckpointTo(plan, from, env, i), plan.sections[i])
    ensures Owner(plan, plan.sections[i].id) == Some(plan.sections[i])
  {
    LoopIsHonest(plan, from, env, i);
    if OwnerTo(plan, plan.sections[i].id, i).Some? { OwnerIsModel(plan, plan.sections[i].id, i); }
    OwnerIsFirst(plan, plan.sections[i].id, i, |plan.sections|);
  }

  lemma {:induction false} LoopClean<H>(plan: Plan, from: Checkpoint<H>, env: Env<H>, trips: Trips, n: nat)
    requires n <= Stop(plan, from, env, trips) && Honest(plan, from.sections, env) && Clean(plan, from.sections, trips)
    ensures Clean(plan, CheckpointTo(plan, from, env, n).sections, trips)
  {
    if n > 0 {
      LoopClean(plan, from, env, trips, n - 1);
      StopMeans(plan, from, env, trips, |plan.sections|);
      assert !TripsAt(plan, from, env, trips, n - 1);
      if Due(CheckpointTo(plan, from, env, n - 1), plan.sections[n - 1]) { DueIsOwner(plan, from, env, n - 1); }
    }
  }

  lemma {:induction false} OwnerAt(plan: Plan, id: string, n: nat) returns (j: nat)
    requires n <= |plan.sections| && OwnerTo(plan, id, n).Some?
    ensures j < n && plan.sections[j] == OwnerTo(plan, id, n).value && OwnerTo(plan, id, j).None?
  {
    if OwnerTo(plan, id, n - 1).Some? { j := OwnerAt(plan, id, n - 1); } else { j := n - 1; }
  }

  /** An id in the checkpoint after j sections was there at first or is owned by one of them. */
  lemma {:induction false} NotYetDone<H>(plan: Plan, from: Checkpoint<H>, env: Env<H>, id: string, j: nat)
    requires j <= |plan.sections| && id !in from.sections && OwnerTo(plan, id, j).None?
    ensures id !in CheckpointTo(plan, from, env, j).sections
  {
    if j > 0 { NotYetDone(plan, from, env, id, j - 1); }
  }

  /** A resumed run gets through exactly when no section of the plan is bad. */
  lemma StopsIff<H>(plan: Plan, from: Checkpoint<H>, env: Env<H>, trips: Trips)
    requires Honest(plan, from.sections, env) && Clean(plan, from.sections, trips)
    ensures Stop(plan, from, env, trips) < |plan.sections| <==> Blocked(plan, trips)
  {
    var s := Stop(plan, from, env, trips);
    StopMeans(plan, from, env, trips, |plan.sections|);
    if s < |plan.sections| {
      DueIsOwner(plan, from, env, s);
      assert Bad(plan, plan.sections[s].id, trips);
    }
    if i :| 0 <= i < |plan.sections| && Bad(plan, plan.sections[i].id, trips) {
      var id := plan.sections[i].id;
      var j := OwnerAt(plan, id, |plan.sections|);
      NotYetDone(plan, from, env, id, j);
      assert TripsAt(plan, from, env, trips, j);
    }
  }

  // ----------------------------------------------------------------- over histories

  /** What a run of this plan writes is sound, and checkpoints no bad section. */
  ghost predicate CleanWrite<H>(write: Write<H>, plan: Plan, env: Env<H>, trips: Trips) {
    SoundWrite(write, plan, env) && (write.SaveCheckpoint? ==> Clean(plan, write.checkpoint.sections, trips))
  }

  lemma {:induction false} LoopWritesClean<H>(plan: Plan, from: Checkpoint<H>, env: Env<H>, trips: Trips, n: nat)
    requires n <= Stop(plan, from, env, trips) && Honest(plan, from.sections, env) && Clean(plan, from.sections, trips)
    requires from.plan == Some(env.hash(plan))
    ensures forall w | w in WritesTo(plan, from, env, n) :: CleanWrite(w, plan, env, trips)
  {
    LoopWritesSound(plan, from, env, n);
    if n > 0 {
      LoopWritesClean(plan, from, env, trips, n - 1);
      LoopClean(plan, from, env, trips, n);
    }
  }

  predicate CleanDisk<H(==)>(disk: Disk<H>, plan: Plan, env: Env<H>, trips: Trips) {
    disk.checkpoint.Some? && disk.checkpoint.value.plan == Some(env.hash(plan)) ==>
      Clean(plan, disk.checkpoint.value.sections, trips)
  }

  lemma OpeningSound<H>(disk: Disk<H>, plan: Plan, env: Env<H>, trips: Trips)
    requires Sound(disk, env)
    ensures forall w | w in Opening(plan, Resumed(disk.checkpoint, plan, env), env) :: CleanWrite(w, plan, env, trips)
  {
    ResumedHonest(disk, plan, env);
    AssembledLists(plan, Resumed(disk.checkpoint, plan, env).sections, env);
  }

  lemma ClosingClean<H>(plan: Plan, from: Checkpoint<H>, env: Env<H>, trips: Trips)
    requires Honest(plan, from.sections, env) && Clean(plan, from.sections, trips) && from.plan == Some(env.hash(plan))
    requires Stop(plan, from, env, trips) == |plan.sections|
    ensures forall w | w in Closing(plan, CheckpointTo(plan, from, env, |plan.sections|), env) ::
        CleanWrite(w, plan, env, trips)
  {
    LoopIsHonest(plan, from, env, |plan.sections|);
    LoopClean(plan, from, env, trips, |plan.sections|);
    AssembledIsFinal(plan, CheckpointTo(plan, from, env, |plan.sections|).sections, env);
  }

  lemma RunWritesClean<H>(disk: Disk<H>, plan: Plan, env: Env<H>, trips: Trips)
    requires Sound(disk, env) && CleanDisk(disk, plan, env, trips)
    ensures forall w | w in RunWrites(disk, plan, env, trips) :: CleanWrite(w, plan, env, trips)
  {
    var from := Resumed(disk.checkpoint, plan, env);
    ResumedHonest(disk, plan, env);
    OpeningSound(disk, plan, env, trips);
    LoopWritesClean(plan, from, env, trips, Stop(plan, from, env, trips));
    if Stop(plan, from, env, trips) == |plan.sections| { ClosingClean(plan, from, env, trips); }
  }

  lemma {:induction false} LandClean<H>(disk: Disk<H>, writes: seq<Write<H>>, p: Plan, plan: Plan, env: Env<H>,
                                        trips: Trips)
    requires Named(env) && CleanDisk(disk, plan, env, trips) && forall w | w in writes :: CleanWrite(w, p, env, trips)
    ensures CleanDisk(Land(Apply, disk, writes), plan, env, trips)
  {
    if writes != [] {
      var front, last := writes[..|writes| - 1], writes[|writes| - 1];
      assert writes == front + [last] && CleanWrite(last, p, env, trips);
      LandClean(disk, front, p, plan, env, trips);
    }
  }

  ghost predicate AllClean<H>(disk: Disk<H>, env: Env<H>, trips: Trips) {
    Sound(disk, env) && forall plan :: CleanDisk(disk, plan, env, trips)
  }

  lemma NextClean<H>(disk: Disk<H>, event: Event, env: Env<H>, trips: Trips)
    requires Named(env) && AllClean(disk, env, trips)
    ensures AllClean(Next(disk, event, env, trips), env, trips)
  {
    var writes := RunWrites(disk, event.plan, env, trips);
    RunWritesClean(disk, event.plan, env, trips);
    assert forall w | w in Cut(writes, event.k) :: w in writes;
    LandSound(disk, Cut(writes, event.k), event.plan, env);
    forall plan ensures CleanDisk(Next(disk, event, env, trips), plan, env, trips) {
      LandClean(disk, Cut(writes, event.k), event.plan, plan, env, trips);
    }
  }

  lemma {:induction false} LaterClean<H>(disk: Disk<H>, events: seq<Event>, env: Env<H>, trips: Trips)
    requires Named(env) && AllClean(disk, env, trips)
    ensures AllClean(Later(disk, events, env, trips), env, trips)
  {
    if events != [] {
      LaterClean(disk, events[..|events| - 1], env, trips);
      NextClean(Later(disk, events[..|events| - 1], env, trips), events[|events| - 1], env, trips);
    }
  }

  // ------------------------------------------------------------------- the last envelope

  predicate NoEnvelope<H>(write: Write<H>) { !write.SaveEnvelope? }

  lemma {:induction false} LandNoEnvelope<H>(disk: Disk<H>, writes: seq<Write<H>>)
    requires forall w | w in writes :: NoEnvelope(w)
    ensures Land(Apply, disk, writes).envelopes == disk.envelopes
  {
    if writes != [] {
      var front, last := writes[..|writes| - 1], writes[|writes| - 1];
      assert writes == front + [last] && NoEnvelope(last);
      LandNoEnvelope(disk, front);
    }
  }

  lemma {:induction false} LoopNoEnvelope<H>(plan: Plan, from: Checkpoint<H>, env: Env<H>, n: nat)
    requires n <= |plan.sections|
    ensures forall w | w in WritesTo(plan, from, env, n) :: NoEnvelope(w)
  {
    if n > 0 { LoopNoEnvelope(plan, from, env, n - 1); }
  }

  lemma LandFirst<H>(disk: Disk<H>, writes: seq<Write<H>>)
    requires writes != []
    ensures Land(Apply, disk, writes) == Land(Apply, Apply(disk, writes[0]), writes[1..])
  {
    assert writes == [writes[0]] + writes[1..];
    LandSplit(Apply, disk, [writes[0]], writes[1..]);
    assert [writes[0]][..0] == [];
    assert Land(Apply, disk, [writes[0]]) == Apply(disk, writes[0]);
  }

  lemma StoppedEnvelope<H>(disk: Disk<H>, plan: Plan, env: Env<H>, trips: Trips)
    requires Stop(plan, Resumed(disk.checkpoint, plan, env), env, trips) < |plan.sections|
    ensures var after := Land(Apply, disk, RunWrites(disk, plan, env, trips));
            after.envelopes != [] && !after.envelopes[|after.envelopes| - 1].complete
  {
    var from := Resumed(disk.checkpoint, plan, env);
    var s, writes := Stop(plan, from, env, trips), RunWrites(disk, plan, env, trips);
    LoopNoEnvelope(plan, from, env, s);
    assert writes[1..] == Opening(plan, from, env)[1..] + WritesTo(plan, from, env, s) + [Call(plan.sections[s].id)];
    LandFirst(disk, writes);
    LandNoEnvelope(Apply(disk, writes[0]), writes[1..]);
  }

  function LastEnvelope<H>(disk: Disk<H>): Option<Envelope<H>> {
    if disk.envelopes == [] then None else Some(disk.envelopes[|disk.envelopes| - 1])
  }

  lemma RunCompletesIff<H>(disk: Disk<H>, plan: Plan, env: Env<H>, trips: Trips)
    requires Named(env) && Sound(disk, env) && CleanDisk(disk, plan, env, trips)
    ensures var last := LastEnvelope(Land(Apply, disk, RunWrites(disk, plan, env, trips)));
            && last.Some? && (last.value.complete <==> !Blocked(plan, trips))
            && (!Blocked(plan, trips) ==> last.value == Envelope(env.hash(plan), true, Finals(plan, env)))
  {
    var from := Resumed(disk.checkpoint, plan, env);
    ResumedHonest(disk, plan, env);
    assert Clean(plan, from.sections, trips);
    StopsIff(plan, from, env, trips);
    if Blocked(plan, trips) { StoppedEnvelope(disk, plan, env, trips); } else { RunCompletes(disk, plan, env); }
  }

  /** After any runs, kills and re-frozen plans, one more uninterrupted run of a plan ends with the
      finished envelope exactly when no section it would draft ends the run: no number of resumes
      gets past one that does. */
  lemma ResumeCompletesIff<H>(disk: Disk<H>, events: seq<Event>, plan: Plan, env: Env<H>, trips: Trips)
    requires Named(env) && AllClean(disk, env, trips)
    ensures var before := Later(disk, events, env, trips);
            var last := LastEnvelope(Land(Apply, before, RunWrites(before, plan, env, trips)));
            && last.Some? && (last.value.complete <==> !Blocked(plan, trips))
            && (!Blocked(plan, trips) ==> last.value == Envelope(env.hash(plan), true, Finals(plan, env)))
  {
    LaterClean(disk, events, env, trips);
    var before := Later(disk, events, env, trips);
    assert CleanDisk(before, plan, env, trips);
    RunCompletesIff(before, plan, env, trips);
  }
}
