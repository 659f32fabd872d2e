/**
  The drafting stage (engine/drafting/draft.py, run_drafting): an accumulating checkpoint, an
  envelope assembled by the same code at the start and at the close, and a kill allowed between
  any two durable writes.
 */
module Drafting {
  import opened Durable
  import opened Wrappers

  datatype Lane = Model | Omitted | Awaiting | Shape

  /** A section of the frozen plan, with the status the routing prepass gave it. */
  datatype Section = Section(id: string, lane: Lane)

  datatype Plan = Plan(sections: seq<Section>, text: string)

  datatype Entry = Entry(section: string, status: string, text: string)

  /** The plan's file hash, a drafter that answers by plan and section alone, and the entry of a
      section not drafted yet. */
  datatype Env<!H> = Env(hash: Plan -> H, draft: (Plan, Section) -> Entry, skeleton: (Plan, Section) -> Entry)

  datatype Checkpoint<H> = Checkpoint(plan: Option<H>, sections: map<string, Entry>, complete: bool)

  datatype Envelope<H> = Envelope(plan: H, complete: bool, sections: seq<Entry>)

  /** `envelopes` is every envelope ever written, the last one on disk; `calls` is the spend. */
  datatype Disk<H> = Disk(
    checkpoint: Option<Checkpoint<H>>,
    envelopes: seq<Envelope<H>>,
    status: seq<(string, bool)>,
    calls: seq<string>)

  datatype Write<H> =
    | SaveEnvelope(envelope: Envelope<H>)
    | SaveStatus(status: seq<(string, bool)>)
    | Call(section: string)
    | SaveCheckpoint(checkpoint: Checkpoint<H>)

  // ------------------------------------------------------------------ one run

  /** A checkpoint bound to another plan, or to none, is discarded. */
  function Resumed<H(==)>(saved: Option<Checkpoint<H>>, plan: Plan, env: Env<H>): Checkpoint<H> {
    if saved.Some? && saved.value.plan == Some(env.hash(plan)) then saved.value
    else Checkpoint(Some(env.hash(plan)), map[], false)
  }

  function EntryOf<H>(plan: Plan, done: map<string, Entry>, section: Section, env: Env<H>): Entry {
    if section.id in done then done[section.id] else env.skeleton(plan, section)
  }

  function Assembled<H>(plan: Plan, done: map<string, Entry>, env: Env<H>): seq<Entry> {
    seq(|plan.sections|, i requires 0 <= i < |plan.sections| => EntryOf(plan, done, plan.sections[i], env))
  }

  /** The live plan's draft_status: drafted or planned, on the draftable sections only. */
  function StatusTo(plan: Plan, done: map<string, Entry>, n: nat): seq<(string, bool)>
    requires n <= |plan.sections|
  {
    if n == 0 then []
    else
      var rest, section := StatusTo(plan, done, n - 1), plan.sections[n - 1];
      if section.lane != Model then rest
      else rest + [(section.id, section.id in done && done[section.id].status == "drafted")]
  }

  predicate Due<H>(checkpoint: Checkpoint<H>, section: Section) {
    section.lane == Model && section.id !in checkpoint.sections
  }

  /** The checkpoint after the first n sections of the loop. */
  function CheckpointTo<H>(plan: Plan, from: Checkpoint<H>, env: Env<H>, n: nat): Checkpoint<H>
    requires n <= |plan.sections|
  {
    if n == 0 then from
    else
      var before, section := CheckpointTo(plan, from, env, n - 1), plan.sections[n - 1];
      if Due(before, section) then before.(sections := before.sections[section.id := env.draft(plan, section)])
      else before
  }

  function WritesTo<H>(plan: Plan, from: Checkpoint<H>, env: Env<H>, n: nat): seq<Write<H>>
    requires n <= |plan.sections|
  {
    if n == 0 then []
    else
      var before, rest := CheckpointTo(plan, from, env, n - 1), WritesTo(plan, from, env, n - 1);
      if Due(before, plan.sections[n - 1])
      then rest + [Call(plan.sections[n - 1].id), SaveCheckpoint(CheckpointTo(plan, from, env, n))]
      else rest
  }

  function Opening<H>(plan: Plan, from: Checkpoint<H>, env: Env<H>): seq<Write<H>> {
    [SaveEnvelope(Envelope(env.hash(plan), false, Assembled(plan, from.sections, env))),
     SaveStatus(StatusTo(plan, from.sections, |plan.sections|))]
  }

  function Closing<H>(plan: Plan, last: Checkpoint<H>, env: Env<H>): seq<Write<H>> {
    [SaveCheckpoint(last.(complete := true)),
     SaveEnvelope(Envelope(env.hash(plan), true, Assembled(plan, last.sections, env))),
     SaveStatus(StatusTo(plan, last.sections, |plan.sections|))]
  }

  /** Every write of an uninterrupted run, in order. */
  function Attempt<H(==)>(disk: Disk<H>, plan: Plan, env: Env<H>): seq<Write<H>> {
    var from := Resumed(disk.checkpoint, plan, env);
    Opening(plan, from, env) + WritesTo(plan, from, env, |plan.sections|)
    + Closing(plan, CheckpointTo(plan, from, env, |plan.sections|), env)
  }

  function Apply<H>(disk: Disk<H>, write: Write<H>): Disk<H> {
    match write
    case SaveEnvelope(envelope) => disk.(envelopes := disk.envelopes + [envelope])
    case SaveStatus(status) => disk.(status := status)
    case Call(section) => disk.(calls := disk.calls + [section])
    case SaveCheckpoint(checkpoint) => disk.(checkpoint := Some(checkpoint))
  }

  // ------------------------------------------------------------------ the stage

  type Workspace<!H(==)> = Volume<Disk<H>, Write<H>>

  method Assemble<H>(plan: Plan, done: map<string, Entry>, env: Env<H>) returns (sections: seq<Entry>)
    ensures sections == Assembled(plan, done, env)
  {
    sections := [];
    for i := 0 to |plan.sections|
      invariant sections == Assembled(plan, done, env)[..i]
    {
      var section := plan.sections[i];
      if section.id in done {
        sections := sections + [done[section.id]];
      } else {
        sections := sections + [env.skeleton(plan, section)];
      }
    }
  }

  method DraftStatus(plan: Plan, done: map<string, Entry>) returns (status: seq<(string, bool)>)
    ensures status == StatusTo(plan, done, |plan.sections|)
  {
    status := [];
    for i := 0 to |plan.sections|
      invariant status == StatusTo(plan, done, i)
    {
      var section := plan.sections[i];
      if section.lane == Model {
        status := status + [(section.id, section.id in done && done[section.id].status == "drafted")];
      }
    }
  }

  /** The per-section loop: each drafted section is checkpointed before the next is begun. */
  method DraftSections<H(==)>(w: Workspace<H>, plan: Plan, from: Checkpoint<H>, env: Env<H>)
    returns (checkpoint: Checkpoint<H>, alive: bool)
    requires w.Valid() && |w.landed| + |WritesTo(plan, from, env, |plan.sections|)| < |w.owed|
    requires WritesTo(plan, from, env, |plan.sections|) <= w.owed[|w.landed|..]
    modifies w
    ensures w.Valid() && w.owed == old(w.owed)
    ensures if alive then |w.landed| == old(|w.landed|) + |WritesTo(plan, from, env, |plan.sections|)|
        else w.Ended(false)
    ensures alive ==> checkpoint == CheckpointTo(plan, from, env, |plan.sections|)
  {
    checkpoint, alive := from, true;
    for i := 0 to |plan.sections|
      invariant w.Valid() && w.owed == old(w.owed) && alive
      invariant checkpoint == CheckpointTo(plan, from, env, i)
      invariant |w.landed| == old(|w.landed|) + |WritesTo(plan, from, env, i)|
    {
      var section := plan.sections[i];
      WritesGrow(plan, from, env, i + 1, |plan.sections|);
      if section.lane != Model || section.id in checkpoint.sections { continue; }
      ghost var n := |WritesTo(plan, from, env, i)|;
      assert WritesTo(plan, from, env, i + 1)[n] == old(w.owed[|w.landed|..])[n];
      assert WritesTo(plan, from, env, i + 1)[n + 1] == old(w.owed[|w.landed|..])[n + 1];
      alive := w.Do(Call(section.id));
      if !alive { return; }
      checkpoint := checkpoint.(sections := checkpoint.sections[section.id := env.draft(plan, section)]);
      alive := w.Do(SaveCheckpoint(checkpoint));
      if !alive { return; }
    }
  }

  lemma {:induction false} WritesGrow<H>(plan: Plan, from: Checkpoint<H>, env: Env<H>, k: nat, n: nat)
    requires k <= n <= |plan.sections|
    ensures WritesTo(plan, from, env, k) <= WritesTo(plan, from, env, n)
  {
    if k < n { WritesGrow(plan, from, env, k, n - 1); }
  }

  /** Past the refusal gates.  What lands is a prefix of the attempt, all of it unless killed. */
  method RunDrafting<H(==)>(w: Workspace<H>, plan: Plan, env: Env<H>) returns (alive: bool)
    requires w.Valid() && w.landed == [] && w.apply == Apply
    modifies w
    ensures w.Valid() && w.owed == Attempt(old(w.disk), plan, env) && w.Ended(alive)
    ensures w.disk == Land(Apply, old(w.disk), Cut(Attempt(old(w.disk), plan, env), old(w.budget)))
  {
    w.owed := Attempt(w.disk, plan, env);
    alive := Run(w, plan, env);
    CallLands(w, alive);
  }

  method Run<H(==)>(w: Workspace<H>, plan: Plan, env: Env<H>) returns (alive: bool)
    requires w.Valid() && w.landed == [] && w.owed == Attempt(w.disk, plan, env)
    modifies w
    ensures w.Valid() && w.owed == old(w.owed) && w.Ended(alive)
  {
    var from := Checkpoint(None, map[], false);
    if w.disk.checkpoint.Some? { from := w.disk.checkpoint.value; }
    if from.plan != Some(env.hash(plan)) { from := Checkpoint(None, map[], false); }
    from := from.(plan := Some(env.hash(plan)));
    ghost var loop := WritesTo(plan, from, env, |plan.sections|);
    assert w.owed[2..] == loop + Closing(plan, CheckpointTo(plan, from, env, |plan.sections|), env);

    var sections := Assemble(plan, from.sections, env);
    alive := w.Do(SaveEnvelope(Envelope(env.hash(plan), false, sections)));
    if !alive { return; }
    var status := DraftStatus(plan, from.sections);
    alive := w.Do(SaveStatus(status));
    if !alive { return; }
    var checkpoint;
    checkpoint, alive := DraftSections(w, plan, from, env);
    if !alive { return; }
    alive := Close(w, plan, checkpoint, env);
  }

  method Close<H(==)>(w: Workspace<H>, plan: Plan, last: Checkpoint<H>, env: Env<H>) returns (alive: bool)
    requires w.Valid() && |w.landed| + 3 == |w.owed| && w.owed[|w.landed|..] == Closing(plan, last, env)
    modifies w
    ensures w.Valid() && w.owed == old(w.owed) && w.Ended(alive)
  {
    ghost var n := |w.landed|;
    assert forall i | 0 <= i < 3 :: w.owed[n + i] == w.owed[n..][i];
    alive := w.Do(SaveCheckpoint(last.(complete := true)));
    if !alive { return; }
    var sections := Assemble(plan, last.sections, env);
    alive := w.Do(SaveEnvelope(Envelope(env.hash(plan), true, sections)));
    if !alive { return; }
    var status := DraftStatus(plan, last.sections);
    alive := w.Do(SaveStatus(status));
  }
}
