/**
  Draft-time routing (engine/drafting/route.py) and the gating cascade it uses
  (engine/planning/sections.py): which slots the model drafts, which pend, which are skipped.
 */
module Routing {
  import opened Wrappers

  datatype Status = OmitApproved | Open | Pinged | Answered | Reframed | DraftFlagged | Unknown(name: string)

  /** A plan gap; `slot` is None when it is section-scoped. */
  datatype Gap = Gap(status: Status, slot: Option<string>, text: string)

  datatype Slot = Slot(answerable: bool, gates: seq<string>)

  datatype Section = Section(slotIds: seq<string>, gaps: seq<Gap>)

  datatype Kind = MODEL | OMITTED | GATED | SHAPE | AWAITING

  datatype Lane = Lane(kind: Kind, flagged: bool)

  datatype Steering = Steering(status: Status, text: string)

  datatype Warning = NotASlot(gap: Gap) | NonModel(gap: Gap) | UnknownStatus(gap: Gap) | SectionScope(gap: Gap)

  /** An additive disposition; every other gap keeps its content out of drafting. */
  predicate Soft(status: Status) { status.Answered? || status.Reframed? || status.DraftFlagged? }

  // ------------------------------------------------------------ gating cascade

  function Children(gates: map<string, seq<string>>, id: string): seq<string> {
    if id in gates then gates[id] else []
  }

  /** Holds the children of every gapped slot and of every member. */
  predicate Closed(gates: map<string, seq<string>>, gapped: set<string>, s: set<string>) {
    forall id | id in gapped + s :: forall child | child in Children(gates, id) :: child in s
  }

  /** The least closed set: exactly the slots below a gapped gater. */
  ghost predicate IsCascade(gates: map<string, seq<string>>, gapped: set<string>, skipped: set<string>) {
    && Closed(gates, gapped, skipped)
    && forall s: set<string> | Closed(gates, gapped, s) :: skipped <= s
  }

  lemma CascadeIsUnique(gates: map<string, seq<string>>, gapped: set<string>, a: set<string>, b: set<string>)
    requires IsCascade(gates, gapped, a) && IsCascade(gates, gapped, b)
    ensures a == b
  {
  }

  ghost function Named(gates: map<string, seq<string>>): (all: set<string>) {
    set id, child | id in gates && child in gates[id] :: child
  }

  /** One gater's children join the skipped set, and the frontier if they are new. */
  method Visit(children: seq<string>, before: set<string>, pending: seq<string>)
    returns (skipped: set<string>, frontier: seq<string>)
    ensures skipped == before + (set child | child in children)
    ensures forall id :: id in frontier <==> id in pending || id in skipped - before
    ensures skipped == before ==> frontier == pending
  {
    skipped, frontier := before, pending;
    for k := 0 to |children|
      invariant skipped == before + (set child | child in children[..k])
      invariant forall id :: id in frontier <==> id in pending || id in skipped - before
      invariant skipped == before ==> frontier == pending
    {
      if children[k] !in skipped {
        skipped := skipped + {children[k]};
        frontier := frontier + [children[k]];
      }
    }
  }

  predicate Handled(gates: map<string, seq<string>>, id: string, skipped: set<string>) {
    forall child | child in Children(gates, id) :: child in skipped
  }

  /** Everything reached is handled or waits on the frontier, and nothing else was reached. */
  ghost predicate Walk(gates: map<string, seq<string>>, roots: set<string>, skipped: set<string>,
                       frontier: seq<string>) {
    && skipped <= Named(gates)
    && (forall id | id in frontier :: id in roots + skipped)
    && (forall id | id in roots + skipped :: id in frontier || Handled(gates, id, skipped))
    && (forall s: set<string> | Closed(gates, roots, s) :: skipped <= s)
  }

  lemma WalkStep(gates: map<string, seq<string>>, roots: set<string>, before: set<string>, rest: seq<string>,
                 gater: string, after: set<string>, frontier: seq<string>)
    requires Walk(gates, roots, before, rest + [gater])
    requires after == before + (set child | child in Children(gates, gater))
    requires forall id :: id in frontier <==> id in rest || id in after - before
    ensures Walk(gates, roots, after, frontier)
  {
    assert gater in rest + [gater];
    forall id | id in roots + after ensures id in frontier || Handled(gates, id, after) {
      if id in roots + before && id != gater {
        assert id in rest + [gater] <==> id in rest;
      }
    }
    forall s: set<string> | Closed(gates, roots, s) ensures after <= s {
      assert before <= s && gater in roots + s;
    }
    forall id | id in frontier ensures id in roots + after {
      if id in rest { assert id in rest + [gater]; }
    }
  }

  lemma WalkEnds(gates: map<string, seq<string>>, roots: set<string>, skipped: set<string>)
    requires Walk(gates, roots, skipped, [])
    ensures IsCascade(gates, roots, skipped)
  {
    assert forall id | id in roots + skipped :: Handled(gates, id, skipped);
  }

  /** The gapped gaters that have children. */
  method Gaters(gates: map<string, seq<string>>, gapped: seq<string>) returns (frontier: seq<string>)
    ensures Walk(gates, (set id | id in gapped), {}, frontier)
  {
    frontier := [];
    for k := 0 to |gapped|
      invariant forall id | id in frontier :: id in gapped[..k]
      invariant forall id | id in gapped[..k] :: id in frontier || Children(gates, id) == []
    {
      if Children(gates, gapped[k]) != [] { frontier := frontier + [gapped[k]]; }
    }
  }

  /** The depth-first walk from the gapped gaters, whatever order their set is iterated in. */
  method CascadeGating(gates: map<string, seq<string>>, gapped: seq<string>) returns (skipped: set<string>)
    ensures IsCascade(gates, (set id | id in gapped), skipped)
  {
    ghost var roots := set id | id in gapped;
    skipped := {};
    var frontier := Gaters(gates, gapped);
    while frontier != []
      invariant Walk(gates, roots, skipped, frontier)
      decreases |Named(gates) - skipped|, |frontier|
    {
      var gater := frontier[|frontier| - 1];
      var rest := frontier[..|frontier| - 1];
      assert frontier == rest + [gater];
      ghost var before := skipped;
      skipped, frontier := Visit(Children(gates, gater), skipped, rest);
      WalkStep(gates, roots, before, rest, gater, skipped, frontier);
      Shrinks(Named(gates), before, skipped);
    }
    WalkEnds(gates, roots, skipped);
  }

  lemma Shrinks(all: set<string>, before: set<string>, after: set<string>)
    requires before <= after <= all
    ensures before == after || |all - after| < |all - before|
  {
    if before != after {
      assert all - after < all - before;
      SmallerSet(all - after, all - before);
    }
  }

  lemma SmallerSet(a: set<string>, b: set<string>)
    requires a < b
    ensures |a| < |b|
  {
    assert b == a + (b - a);
  }

  // ---------------------------------------------------------------- designated path

  datatype State = State(
    lanes: map<string, Lane>,
    steering: seq<Steering>,
    flagSection: bool,
    pend: bool,
    matched: set<string>,
    warnings: seq<Warning>)

  datatype Plan = Plan(status: Kind, lanes: seq<Lane>, steering: seq<Steering>, flagSection: bool,
                       warnings: seq<Warning>)

  /** Every slot the section names is known. */
  predicate Known(section: Section, slots: map<string, Slot>) { forall id | id in section.slotIds :: id in slots }

  function LanesTo(slotIds: seq<string>, slots: map<string, Slot>, n: nat): map<string, Lane>
    requires n <= |slotIds| && forall id | id in slotIds :: id in slots
  {
    if n == 0 then map[]
    else LanesTo(slotIds, slots, n - 1)
           [slotIds[n - 1] := Lane(if slots[slotIds[n - 1]].answerable then MODEL else SHAPE, false)]
  }

  function Steered(st: State, gap: Gap): State { st.(steering := st.steering + [Steering(gap.status, gap.text)]) }

  /** A gap that names a slot of the section. */
  function Targeted(st: State, id: string, gap: Gap): State
    requires id in st.lanes
  {
    var seen := st.(matched := st.matched + {id});
    if st.lanes[id].kind != MODEL then seen.(warnings := seen.warnings + [NonModel(gap)])
    else
      match gap.status
      case OmitApproved => seen.(lanes := seen.lanes[id := seen.lanes[id].(kind := OMITTED)])
      case Open => seen.(lanes := seen.lanes[id := seen.lanes[id].(kind := AWAITING)])
      case Pinged => seen.(lanes := seen.lanes[id := seen.lanes[id].(kind := AWAITING)])
      case DraftFlagged => seen.(lanes := seen.lanes[id := seen.lanes[id].(flagged := true)])
      case Unknown(_) => seen.(
        lanes := seen.lanes[id := seen.lanes[id].(kind := AWAITING)],
        warnings := seen.warnings + [UnknownStatus(gap)])
      case _ => Steered(seen, gap)
  }

  /** A gap without a slot of the section: additive ones degrade, the rest pend the section. */
  function Untargeted(st: State, gap: Gap): State {
    var lost := if gap.slot.Some? then st.warnings + [NotASlot(gap)] else st.warnings;
    var seen := st.(warnings := lost + [SectionScope(gap)]);
    match gap.status
    case Answered => Steered(seen, gap)
    case Reframed => Steered(seen, gap)
    case DraftFlagged => seen.(flagSection := true)
    case _ => seen.(pend := true)
  }

  predicate Targets(st: State, gap: Gap) { gap.slot.Some? && gap.slot.value in st.lanes }

  function GapStep(st: State, gap: Gap): State {
    if Targets(st, gap) then Targeted(st, gap.slot.value, gap) else Untargeted(st, gap)
  }

  function GapsTo(section: Section, slots: map<string, Slot>, n: nat): State
    requires Known(section, slots) && n <= |section.gaps|
  {
    if n == 0 then State(LanesTo(section.slotIds, slots, |section.slotIds|), [], false, false, {}, [])
    else GapStep(GapsTo(section, slots, n - 1), section.gaps[n - 1])
  }

  function GatesTo(slotIds: seq<string>, slots: map<string, Slot>, n: nat): map<string, seq<string>>
    requires n <= |slotIds| && forall id | id in slotIds :: id in slots
  {
    if n == 0 then map[] else GatesTo(slotIds, slots, n - 1)[slotIds[n - 1] := slots[slotIds[n - 1]].gates]
  }

  function Gates(section: Section, slots: map<string, Slot>): map<string, seq<string>>
    requires Known(section, slots)
  {
    GatesTo(section.slotIds, slots, |section.slotIds|)
  }

  function Gated(lane: Lane, id: string, skipped: set<string>): Lane {
    if id in skipped && lane.kind == MODEL then lane.(kind := GATED) else lane
  }

  function LaneList(section: Section, lanes: map<string, Lane>, skipped: set<string>): seq<Lane>
    requires forall id | id in section.slotIds :: id in lanes
  {
    seq(|section.slotIds|, i requires 0 <= i < |section.slotIds| =>
      Gated(lanes[section.slotIds[i]], section.slotIds[i], skipped))
  }

  function StatusOf(pend: bool, lanes: seq<Lane>): Kind {
    if pend then AWAITING
    else if forall lane | lane in lanes :: lane.kind == SHAPE then SHAPE
    else if exists lane :: lane in lanes && lane.kind == MODEL then MODEL
    else if forall lane | lane in lanes && lane.kind != SHAPE :: lane.kind == OMITTED then OMITTED
    else AWAITING
  }

  lemma {:induction false} LanesNamed(slotIds: seq<string>, slots: map<string, Slot>, n: nat)
    requires n <= |slotIds| && forall id | id in slotIds :: id in slots
    ensures forall id :: id in LanesTo(slotIds, slots, n) <==> id in slotIds[..n]
    ensures forall id | id in slotIds[..n] ::
      LanesTo(slotIds, slots, n)[id] == Lane(if slots[id].answerable then MODEL else SHAPE, false)
  {
    if n > 0 {
      LanesNamed(slotIds, slots, n - 1);
      assert slotIds[..n] == slotIds[..n - 1] + [slotIds[n - 1]];
    }
  }

  function HardKind(status: Status): Kind { if status.OmitApproved? then OMITTED else AWAITING }

  function KindAfter(kind: Kind, gap: Gap, id: string): Kind {
    if gap.slot == Some(id) && kind == MODEL && !Soft(gap.status) then HardKind(gap.status) else kind
  }

  /** What one gap changes, slot by slot. */
  lemma GapStepMeans(st: State, gap: Gap, id: string)
    ensures var next := GapStep(st, gap);
            && next.lanes.Keys == st.lanes.Keys
            && next.pend == (st.pend || (!Targets(st, gap) && !Soft(gap.status)))
            && (id in next.matched <==> id in st.matched || (Targets(st, gap) && gap.slot.value == id))
            && (id in st.lanes ==> next.lanes[id].kind == KindAfter(st.lanes[id].kind, gap, id))
  {
  }

  lemma {:induction false} LanesStay(section: Section, slots: map<string, Slot>, n: nat)
    requires Known(section, slots) && n <= |section.gaps|
    ensures forall id :: id in GapsTo(section, slots, n).lanes <==> id in section.slotIds
  {
    if n == 0 {
      LanesNamed(section.slotIds, slots, |section.slotIds|);
      assert section.slotIds[..|section.slotIds|] == section.slotIds;
    } else {
      LanesStay(section, slots, n - 1);
      GapStepMeans(GapsTo(section, slots, n - 1), section.gaps[n - 1], "");
    }
  }

  ghost function PlanOf(section: Section, slots: map<string, Slot>, skipped: set<string>): Plan
    requires Known(section, slots)
  {
    LanesStay(section, slots, |section.gaps|);
    var st := GapsTo(section, slots, |section.gaps|);
    var lanes := LaneList(section, st.lanes, skipped);
    Plan(StatusOf(st.pend, lanes), lanes, st.steering, st.flagSection, st.warnings)
  }

  /** The slots below a gapped gater, by the section's own gates. */
  ghost predicate SkippedBy(section: Section, slots: map<string, Slot>, skipped: set<string>)
    requires Known(section, slots)
  {
    IsCascade(Gates(section, slots), GapsTo(section, slots, |section.gaps|).matched, skipped)
  }

  // -------------------------------------------------------------- the prepass loops

  method Enumerate(s: set<string>) returns (ids: seq<string>)
    ensures (set id | id in ids) == s
  {
    ids := [];
    var rest := s;
    while rest != {}
      invariant rest <= s && forall id :: id in ids <==> id in s && id !in rest
      decreases |rest|
    {
      var id :| id in rest;
      ids, rest := ids + [id], rest - {id};
    }
  }

  /** The section's slots: their first lanes and their gates. */
  method Lanes(section: Section, slots: map<string, Slot>)
    returns (lanes: map<string, Lane>, gates: map<string, seq<string>>)
    requires Known(section, slots)
    ensures lanes == LanesTo(section.slotIds, slots, |section.slotIds|) && gates == Gates(section, slots)
  {
    lanes, gates := map[], map[];
    for i := 0 to |section.slotIds|
      invariant lanes == LanesTo(section.slotIds, slots, i) && gates == GatesTo(section.slotIds, slots, i)
    {
      var id := section.slotIds[i];
      lanes := lanes[id := Lane(if slots[id].answerable then MODEL else SHAPE, false)];
      gates := gates[id := slots[id].gates];
    }
  }

  /** Children of a gap-carrying gater leave the model's lane. */
  method GateLanes(section: Section, before: map<string, Lane>, skipped: set<string>) returns (list: seq<Lane>)
    requires forall id | id in section.slotIds :: id in before
    ensures list == LaneList(section, before, skipped)
  {
    var lanes, order := before, [];
    order := Enumerate(skipped);
    for k := 0 to |order|
      invariant lanes.Keys == before.Keys
      invariant forall id | id in lanes :: lanes[id] == if id in order[..k] then Gated(before[id], id, {id})
          else before[id]
    {
      if order[k] in lanes && lanes[order[k]].kind == MODEL {
        lanes := lanes[order[k] := lanes[order[k]].(kind := GATED)];
      }
    }
    assert order[..|order|] == order;
    list := [];
    for i := 0 to |section.slotIds|
      invariant list == LaneList(section, before, skipped)[..i]
    {
      assert section.slotIds[i] in skipped <==> section.slotIds[i] in order;
      list := list + [lanes[section.slotIds[i]]];
    }
  }

  method SectionPlan(section: Section, slots: map<string, Slot>) returns (plan: Plan)
    requires Known(section, slots)
    ensures exists skipped :: SkippedBy(section, slots, skipped) && plan == PlanOf(section, slots, skipped)
  {
    var lanes, gates := Lanes(section, slots);
    var st := State(lanes, [], false, false, {}, []);
    for k := 0 to |section.gaps|
      invariant st == GapsTo(section, slots, k)
    {
      st := GapStep(st, section.gaps[k]);
    }
    var gapped := Enumerate(st.matched);
    var skipped := CascadeGating(gates, gapped);
    LanesStay(section, slots, |section.gaps|);
    var list := GateLanes(section, st.lanes, skipped);
    plan := Plan(StatusOf(st.pend, list), list, st.steering, st.flagSection, st.warnings);
    assert SkippedBy(section, slots, skipped) && plan == PlanOf(section, slots, skipped);
  }

  // ------------------------------------------------------------- what is drafted

  predicate Aims(section: Section, gap: Gap, id: string) { gap.slot == Some(id) && id in section.slotIds }

  predicate Untargetable(section: Section, gap: Gap) { gap.slot.None? || gap.slot.value !in section.slotIds }

  /** The first hard gap of a slot decides its lane. */
  function FirstHard(gaps: seq<Gap>, id: string, n: nat): Option<Status>
    requires n <= |gaps|
  {
    if n == 0 then None
    else if FirstHard(gaps, id, n - 1).Some? then FirstHard(gaps, id, n - 1)
    else if gaps[n - 1].slot == Some(id) && !Soft(gaps[n - 1].status) then Some(gaps[n - 1].status)
    else None
  }

  lemma {:induction false} LaneIs(section: Section, slots: map<string, Slot>, n: nat, id: string)
    requires Known(section, slots) && n <= |section.gaps| && id in section.slotIds
    ensures id in GapsTo(section, slots, n).lanes
    ensures GapsTo(section, slots, n).lanes[id].kind
         == if !slots[id].answerable then SHAPE
            else if FirstHard(section.gaps, id, n).Some? then HardKind(FirstHard(section.gaps, id, n).value) else MODEL
  {
    LanesStay(section, slots, n);
    if n == 0 {
      LanesNamed(section.slotIds, slots, |section.slotIds|);
      assert section.slotIds[..|section.slotIds|] == section.slotIds;
    } else {
      LanesStay(section, slots, n - 1);
      LaneIs(section, slots, n - 1, id);
      GapStepMeans(GapsTo(section, slots, n - 1), section.gaps[n - 1], id);
    }
  }

  lemma {:induction false} NoHardIff(gaps: seq<Gap>, id: string, n: nat)
    requires n <= |gaps|
    ensures FirstHard(gaps, id, n).None? <==> forall k | 0 <= k < n :: gaps[k].slot == Some(id) ==> Soft(gaps[k].status)
  {
    if n > 0 { NoHardIff(gaps, id, n - 1); }
  }

  lemma {:induction false} PendsIff(section: Section, slots: map<string, Slot>, n: nat)
    requires Known(section, slots) && n <= |section.gaps|
    ensures GapsTo(section, slots, n).pend
       <==> exists k :: 0 <= k < n && Untargetable(section, section.gaps[k]) && !Soft(section.gaps[k].status)
  {
    if n > 0 {
      PendsIff(section, slots, n - 1);
      LanesStay(section, slots, n - 1);
      GapStepMeans(GapsTo(section, slots, n - 1), section.gaps[n - 1], "");
      var last := section.gaps[n - 1];
      assert GapsTo(section, slots, n).pend
        <==> GapsTo(section, slots, n - 1).pend || (Untargetable(section, last) && !Soft(last.status));
      assert Untargetable(section, last) && !Soft(last.status)
        ==> exists k :: 0 <= k < n && Untargetable(section, section.gaps[k]) && !Soft(section.gaps[k].status);
    }
  }

  lemma {:induction false} MatchedIff(section: Section, slots: map<string, Slot>, n: nat, id: string)
    requires Known(section, slots) && n <= |section.gaps|
    ensures id in GapsTo(section, slots, n).matched <==> exists k :: 0 <= k < n && Aims(section, section.gaps[k], id)
  {
    if n > 0 {
      MatchedIff(section, slots, n - 1, id);
      LanesStay(section, slots, n - 1);
      GapStepMeans(GapsTo(section, slots, n - 1), section.gaps[n - 1], id);
      assert id in GapsTo(section, slots, n).matched
        <==> id in GapsTo(section, slots, n - 1).matched || Aims(section, section.gaps[n - 1], id);
    }
  }

  /** Answerable, every gap on it additive, and below no gap-carrying slot. */
  predicate Draftable(section: Section, slots: map<string, Slot>, skipped: set<string>, id: string)
    requires id in slots
  {
    && slots[id].answerable && id !in skipped
    && forall g | g in section.gaps && g.slot == Some(id) :: Soft(g.status)
  }

  predicate Barred(section: Section) {
    exists g :: g in section.gaps && Untargetable(section, g) && !Soft(g.status)
  }

  /** A slot is in the model's lane exactly when it is draftable. */
  lemma DraftedLaneIff(section: Section, slots: map<string, Slot>, skipped: set<string>, i: nat)
    requires Known(section, slots) && i < |section.slotIds|
    ensures PlanOf(section, slots, skipped).lanes[i].kind == MODEL
       <==> Draftable(section, slots, skipped, section.slotIds[i])
  {
    var id := section.slotIds[i];
    LaneIs(section, slots, |section.gaps|, id);
    NoHardIff(section.gaps, id, |section.gaps|);
    assert (forall k | 0 <= k < |section.gaps| :: section.gaps[k].slot == Some(id) ==> Soft(section.gaps[k].status))
      <==> (forall g | g in section.gaps && g.slot == Some(id) :: Soft(g.status));
  }

  /** A section is drafted exactly when some slot is draftable and no untargetable gap bars it. */
  lemma DraftedSectionIff(section: Section, slots: map<string, Slot>, skipped: set<string>)
    requires Known(section, slots)
    ensures PlanOf(section, slots, skipped).status == MODEL
       <==> !Barred(section) && exists id :: id in section.slotIds && Draftable(section, slots, skipped, id)
  {
    PendsIff(section, slots, |section.gaps|);
    var plan := PlanOf(section, slots, skipped);
    forall i | 0 <= i < |section.slotIds|
      ensures plan.lanes[i].kind == MODEL <==> Draftable(section, slots, skipped, section.slotIds[i])
    {
      DraftedLaneIff(section, slots, skipped, i);
    }
    if exists id :: id in section.slotIds && Draftable(section, slots, skipped, id) {
      var id :| id in section.slotIds && Draftable(section, slots, skipped, id);
      var i :| 0 <= i < |section.slotIds| && section.slotIds[i] == id;
      assert plan.lanes[i] in plan.lanes;
    }
    assert plan.status == MODEL ==> exists lane :: lane in plan.lanes && lane.kind == MODEL;
  }

  /** What is drafted does not depend on the order the gaps are listed in. */
  lemma OrderIrrelevant(section: Section, other: Section, slots: map<string, Slot>, skipped: set<string>,
                        skipped': set<string>)
    requires Known(section, slots) && other.slotIds == section.slotIds
    requires forall g :: g in section.gaps <==> g in other.gaps
    requires SkippedBy(section, slots, skipped) && SkippedBy(other, slots, skipped')
    ensures skipped == skipped'
    ensures forall id | id in section.slotIds ::
              Draftable(section, slots, skipped, id) <==> Draftable(other, slots, skipped', id)
    ensures PlanOf(section, slots, skipped).status == MODEL <==> PlanOf(other, slots, skipped').status == MODEL
  {
    SameMatched(section, other, slots);
    CascadeIsUnique(Gates(section, slots), GapsTo(section, slots, |section.gaps|).matched, skipped, skipped');
    DraftedSectionIff(section, slots, skipped);
    DraftedSectionIff(other, slots, skipped');
    assert Barred(section) <==> Barred(other) by {
      assert forall g | g in section.gaps :: Untargetable(section, g) == Untargetable(other, g);
    }
  }

  lemma SameMatched(section: Section, other: Section, slots: map<string, Slot>)
    requires Known(section, slots) && other.slotIds == section.slotIds
    requires forall g :: g in section.gaps <==> g in other.gaps
    ensures GapsTo(section, slots, |section.gaps|).matched == GapsTo(other, slots, |other.gaps|).matched
  {
    forall id ensures id in GapsTo(section, slots, |section.gaps|).matched
        <==> id in GapsTo(other, slots, |other.gaps|).matched
    {
      MatchedIff(section, slots, |section.gaps|, id);
      MatchedIff(other, slots, |other.gaps|, id);
      assert forall g | g in section.gaps && Aims(section, g, id) :: g in other.gaps && Aims(other, g, id);
    }
  }

  // ----------------------------------------------------------------- free-form path

  /** Path B: gaps are the section's; the status of the last hard one stays. */
  method SectionPlanB(section: Section) returns (plan: Plan)
    ensures plan == PlanB(section.gaps, |section.gaps|)
  {
    plan := Plan(MODEL, [], [], false, []);
    for k := 0 to |section.gaps|
      invariant plan == PlanB(section.gaps, k)
    {
      var gap := section.gaps[k];
      match gap.status
      case OmitApproved => plan := plan.(status := OMITTED);
      case Open => plan := plan.(status := AWAITING);
      case Pinged => plan := plan.(status := AWAITING);
      case Answered => plan := plan.(steering := plan.steering + [Steering(gap.status, gap.text)]);
      case Reframed => plan := plan.(steering := plan.steering + [Steering(gap.status, gap.text)]);
      case DraftFlagged => plan := plan.(flagSection := true);
      case Unknown(_) => plan := plan.(status := AWAITING, warnings := plan.warnings + [UnknownStatus(gap)]);
    }
  }

  function PlanB(gaps: seq<Gap>, n: nat): Plan
    requires n <= |gaps|
  {
    if n == 0 then Plan(MODEL, [], [], false, [])
    else
      var before, gap := PlanB(gaps, n - 1), gaps[n - 1];
      match gap.status
      case DraftFlagged => before.(flagSection := true)
      case Unknown(_) => before.(status := AWAITING, warnings := before.warnings + [UnknownStatus(gap)])
      case _ =>
        if Soft(gap.status) then before.(steering := before.steering + [Steering(gap.status, gap.text)])
        else before.(status := HardKind(gap.status))
  }

  /** Drafted exactly when every gap is additive; flagged exactly when one says so. */
  lemma {:induction false} DraftedBIff(gaps: seq<Gap>, n: nat)
    requires n <= |gaps|
    ensures PlanB(gaps, n).status == MODEL <==> forall g | g in gaps[..n] :: Soft(g.status)
    ensures PlanB(gaps, n).flagSection <==> exists g :: g in gaps[..n] && g.status.DraftFlagged?
  {
    if n > 0 {
      DraftedBIff(gaps, n - 1);
      assert gaps[..n] == gaps[..n - 1] + [gaps[n - 1]];
    }
  }

  /** Which of the other two statuses it gets does depend on the order: the last hard gap wins. */
  lemma {:induction false} LastHardWins(gaps: seq<Gap>, k: nat, n: nat)
    requires k < n <= |gaps| && !Soft(gaps[k].status)
    requires forall j | k < j < n :: Soft(gaps[j].status)
    ensures PlanB(gaps, n).status == HardKind(gaps[k].status)
  {
    if k < n - 1 { LastHardWins(gaps, k, n - 1); }
  }

  lemma {:induction false} FirstHardIs(gaps: seq<Gap>, id: string, k: nat, n: nat)
    requires k < n <= |gaps| && gaps[k].slot == Some(id) && !Soft(gaps[k].status)
    requires forall j | 0 <= j < k && gaps[j].slot == Some(id) :: Soft(gaps[j].status)
    ensures FirstHard(gaps, id, n) == Some(gaps[k].status)
  {
    if k < n - 1 {
      FirstHardIs(gaps, id, k, n - 1);
    } else {
      NoHardIff(gaps, id, k);
    }
  }

  /** On the designated path the first one wins instead: it fixes the lane of its answerable slot. */
  lemma FirstHardWins(section: Section, slots: map<string, Slot>, skipped: set<string>, i: nat, k: nat)
    requires Known(section, slots) && i < |section.slotIds| && slots[section.slotIds[i]].answerable
    requires k < |section.gaps| && section.gaps[k].slot == Some(section.slotIds[i]) && !Soft(section.gaps[k].status)
    requires forall j | 0 <= j < k && section.gaps[j].slot == Some(section.slotIds[i]) :: Soft(section.gaps[j].status)
    ensures PlanOf(section, slots, skipped).lanes[i].kind == HardKind(section.gaps[k].status)
  {
    LaneIs(section, slots, |section.gaps|, section.slotIds[i]);
    FirstHardIs(section.gaps, section.slotIds[i], k, |section.gaps|);
  }
}
