/**
  One section's guarded draft (engine/drafting/draft.py, _draft_section and _entry): the cards the
  plan selected are opened, the model replies twice with anything, and code writes the entry.
 */
module SectionDraft {
  import opened Wrappers
  import opened Routing
  import opened Wire

  datatype AnswerStatus = Written | Pending | StatedOmission | GatedOff | Awaits

  datatype EntryAnswer = EntryAnswer(slot: string, status: AnswerStatus, prose: string, ids: seq<string>)

  datatype Entry = Entry(drafted: bool, answers: seq<EntryAnswer>, prose: string, cited: seq<string>)

  /** The plan's cards that were not withheld, in plan order. */
  function OpenedTo(planned: seq<string>, withheld: set<string>, n: nat): seq<string>
    requires n <= |planned|
  {
    if n == 0 then []
    else
      var rest := OpenedTo(planned, withheld, n - 1);
      if planned[n - 1] in withheld then rest else rest + [planned[n - 1]]
  }

  function OpenSet(planned: seq<string>, withheld: set<string>): set<string> {
    set s | s in OpenedTo(planned, withheld, |planned|)
  }

  lemma {:induction false} OpenedMeans(planned: seq<string>, withheld: set<string>, n: nat)
    requires n <= |planned|
    ensures forall s :: s in OpenedTo(planned, withheld, n) <==> s in planned[..n] && s !in withheld
  {
    if n > 0 {
      OpenedMeans(planned, withheld, n - 1);
      assert planned[..n] == planned[..n - 1] + [planned[n - 1]];
    }
  }

  /** The slots the model is asked for. */
  function RequestedTo(section: Section, lanes: seq<Lane>, n: nat): seq<string>
    requires n <= |lanes| == |section.slotIds|
  {
    if n == 0 then []
    else
      var rest := RequestedTo(section, lanes, n - 1);
      if lanes[n - 1].kind == MODEL then rest + [section.slotIds[n - 1]] else rest
  }

  function Requested(section: Section, lanes: seq<Lane>): set<string>
    requires |lanes| == |section.slotIds|
  {
    set s | s in RequestedTo(section, lanes, |lanes|)
  }

  function AnswerFor(id: string, lane: Lane, drafted: map<string, Answer>): EntryAnswer {
    match lane.kind
    case MODEL => if id in drafted then EntryAnswer(id, Written, drafted[id].prose, drafted[id].ids)
                  else EntryAnswer(id, Pending, "", [])
    case OMITTED => EntryAnswer(id, StatedOmission, "", [])
    case GATED => EntryAnswer(id, GatedOff, "", [])
    case _ => EntryAnswer(id, Awaits, "", [])
  }

  /** No lane owns a slot that takes no prose. */
  function AnswersTo(section: Section, lanes: seq<Lane>, drafted: map<string, Answer>, n: nat): seq<EntryAnswer>
    requires n <= |lanes| == |section.slotIds|
  {
    if n == 0 then []
    else
      var rest := AnswersTo(section, lanes, drafted, n - 1);
      if lanes[n - 1].kind == SHAPE then rest else rest + [AnswerFor(section.slotIds[n - 1], lanes[n - 1], drafted)]
  }

  predicate CitedBy(answers: seq<EntryAnswer>, id: string) { exists a :: a in answers && id in a.ids }

  /** The union of the answers' citations, in plan order. */
  function CitedTo(planned: seq<string>, answers: seq<EntryAnswer>, n: nat): seq<string>
    requires n <= |planned|
  {
    if n == 0 then []
    else
      var rest := CitedTo(planned, answers, n - 1);
      if CitedBy(answers, planned[n - 1]) then rest + [planned[n - 1]] else rest
  }

  function EntryA(section: Section, lanes: seq<Lane>, planned: seq<string>, drafted: Option<map<string, Answer>>): Entry
    requires |lanes| == |section.slotIds|
  {
    var answers := AnswersTo(section, lanes, if drafted.Some? then drafted.value else map[], |lanes|);
    Entry(drafted.Some?, answers, "", if drafted.Some? then CitedTo(planned, answers, |planned|) else [])
  }

  function EntryB(drafted: Option<Answer>): Entry {
    if drafted.Some? then Entry(true, [], drafted.value.prose, drafted.value.ids) else Entry(false, [], "", [])
  }

  /** The drafted content that stands after the check: None when the draft wire was unusable. */
  function Standing<T>(draft: Result<T, Fail>, check: Reply, checked: Result<T, Fail>): Result<Option<T>, Fail> {
    match draft
    case Raised(WireError) => Ok(None)
    case Raised(why) => Raised(why)
    case Ok(first) =>
      match Check(check, checked)
      case Raised(why) => Raised(why)
      case Ok(Pass) => Ok(Some(first))
      case Ok(Fixed(second)) => Ok(Some(second))
  }

  /** Designated path. */
  function DraftedA(section: Section, lanes: seq<Lane>, planned: seq<string>, withheld: set<string>,
                    draft: Reply, check: Reply, bad: string -> bool): Result<Entry, Fail>
    requires |lanes| == |section.slotIds|
  {
    var asked, open := Requested(section, lanes), OpenSet(planned, withheld);
    match Standing(Answers(draft, asked, open, bad), check, Answers(check, asked, open, bad))
    case Raised(why) => Raised(why)
    case Ok(standing) => Ok(EntryA(section, lanes, planned, standing))
  }

  /** Free-form path. */
  function DraftedB(planned: seq<string>, withheld: set<string>, draft: Reply, check: Reply, bad: string -> bool)
    : Result<Entry, Fail>
  {
    var open := OpenSet(planned, withheld);
    match Standing(ProseOf(draft, open, bad), check, ProseOf(check, open, bad))
    case Raised(why) => Raised(why)
    case Ok(standing) => Ok(EntryB(standing))
  }

  // ------------------------------------------------------------------ the loops

  method Open(planned: seq<string>, withheld: set<string>) returns (cards: seq<string>)
    ensures cards == OpenedTo(planned, withheld, |planned|)
  {
    cards := [];
    for k := 0 to |planned|
      invariant cards == OpenedTo(planned, withheld, k)
    {
      if planned[k] in withheld { continue; }
      cards := cards + [planned[k]];
    }
  }

  method Ask(section: Section, lanes: seq<Lane>) returns (requested: seq<string>)
    requires |lanes| == |section.slotIds|
    ensures requested == RequestedTo(section, lanes, |lanes|)
  {
    requested := [];
    for k := 0 to |lanes|
      invariant requested == RequestedTo(section, lanes, k)
    {
      if lanes[k].kind == MODEL { requested := requested + [section.slotIds[k]]; }
    }
  }

  /** The entry's composer: answers lane by lane, citations collected on the way. */
  method Compose(section: Section, lanes: seq<Lane>, planned: seq<string>, drafted: Option<map<string, Answer>>)
    returns (entry: Entry)
    requires |lanes| == |section.slotIds|
    ensures entry == EntryA(section, lanes, planned, drafted)
  {
    var got := if drafted.Some? then drafted.value else map[];
    var answers: seq<EntryAnswer> := [];
    var cited: set<string> := {};
    for k := 0 to |lanes|
      invariant answers == AnswersTo(section, lanes, got, k)
      invariant forall id :: id in cited <==> CitedBy(answers, id)
    {
      if lanes[k].kind == SHAPE { continue; }
      var answer := AnswerFor(section.slotIds[k], lanes[k], got);
      ghost var before := answers;
      answers := answers + [answer];
      cited := cited + set id | id in answer.ids;
      forall id ensures id in cited <==> CitedBy(answers, id) {
        assert CitedBy(answers, id) <==> CitedBy(before, id) || id in answer.ids;
      }
    }
    var cards: seq<string> := [];
    if drafted.Some? {
      for k := 0 to |planned|
        invariant cards == CitedTo(planned, answers, k)
      {
        if planned[k] in cited { cards := cards + [planned[k]]; }
      }
    }
    return Entry(drafted.Some?, answers, "", cards);
  }

  method DraftSection(section: Section, lanes: seq<Lane>, planned: seq<string>, withheld: set<string>,
                      draft: Reply, check: Reply, bad: string -> bool) returns (r: Result<Entry, Fail>)
    requires |lanes| == |section.slotIds|
    ensures r == DraftedA(section, lanes, planned, withheld, draft, check, bad)
  {
    var cards := Open(planned, withheld);
    var requested := Ask(section, lanes);
    var openIds := set s | s in cards;
    var first := ParseWireAnswers(draft, requested, openIds, bad);
    if first.Raised? {
      if !first.why.WireError? { return Raised(first.why); }
      var pended := Compose(section, lanes, planned, None);
      return Ok(pended);
    }
    var drafted := first.value;
    if check.Unloadable? { return Raised(LoadError); }
    if check.Reply? && check.verdict.FixedVerdict? {
      var fix := ParseWireAnswers(check, requested, openIds, bad);
      if fix.Raised? {
        if !fix.why.WireError? { return Raised(fix.why); }
      } else {
        drafted := fix.value;
      }
    }
    var entry := Compose(section, lanes, planned, Some(drafted));
    return Ok(entry);
  }

  /** The reply's own prose, which the exit door takes, citing what it named of the opened cards;
      no usable prose is a wire error, a compound citation of usable prose a type error, and text
      the loader cannot take what the loader raises. */
  ghost predicate ProseMeans(reply: Reply, openIds: set<string>, bad: string -> bool, r: Result<Answer, Fail>) {
    var usable := reply.Reply? && reply.prose.Some? && !bad(reply.prose.value);
    match r
    case Raised(LoadError) => reply.Unloadable?
    case Raised(WireError) => !usable && !reply.Unloadable?
    case Raised(TypeError) => Stumbles(reply, bad)
    case Ok(answer) =>
      && usable && answer.prose == reply.prose.value && Distinct(answer.ids)
      && forall s :: s in answer.ids <==> s in openIds && reply.ids.Ids? && Name(s) in reply.ids.items
  }

  lemma ProseOfMeans(reply: Reply, openIds: set<string>, bad: string -> bool)
    ensures ProseMeans(reply, openIds, bad, ProseOf(reply, openIds, bad))
  {
    StumblesIff(reply, openIds, bad);
    if reply.Reply? && reply.ids.Ids? { CleanRaisesIff(reply.ids.items, openIds, |reply.ids.items|); }
    if ProseOf(reply, openIds, bad).Ok? && reply.ids.Ids? {
      CleanMeans(reply.ids.items, openIds, |reply.ids.items|);
      assert reply.ids.items[..|reply.ids.items|] == reply.ids.items;
    }
  }

  method ParseWireProse(reply: Reply, openIds: set<string>, bad: string -> bool) returns (r: Result<Answer, Fail>)
    ensures r == ProseOf(reply, openIds, bad) && ProseMeans(reply, openIds, bad, r)
  {
    ProseOfMeans(reply, openIds, bad);
    if reply.Unloadable? { return Raised(LoadError); }
    if !reply.Reply? || reply.prose.None? || bad(reply.prose.value) { return Raised(WireError); }
    var ids := CleanKbIds(reply.ids, openIds);
    if ids.Raised? { return Raised(ids.why); }
    return Ok(Answer(reply.prose.value, ids.value));
  }

  method DraftProse(planned: seq<string>, withheld: set<string>, draft: Reply, check: Reply, bad: string -> bool)
    returns (r: Result<Entry, Fail>)
    ensures r == DraftedB(planned, withheld, draft, check, bad)
  {
    var cards := Open(planned, withheld);
    var openIds := set s | s in cards;
    var drafted := ParseWireProse(draft, openIds, bad);
    if drafted.Raised? {
      return if drafted.why.WireError? then Ok(Entry(false, [], "", [])) else Raised(drafted.why);
    }
    if check.Unloadable? { return Raised(LoadError); }
    if check.Reply? && check.verdict.FixedVerdict? {
      var fix := ParseWireProse(check, openIds, bad);
      if fix.Raised? && !fix.why.WireError? { return Raised(fix.why); }
      if fix.Ok? { drafted := fix; }
    }
    return Ok(Entry(true, [], drafted.value.prose, drafted.value.ids));
  }

  // ------------------------------------------------------------------ what is safe

  lemma AnswersAreSafe(reply: Reply, asked: set<string>, open: set<string>, bad: string -> bool, slot: string)
    requires Answers(reply, asked, open, bad).Ok?
    ensures var out := Answers(reply, asked, open, bad).value;
            slot in out ==> slot in asked && Cited(out[slot].ids, open)
  {
    AnswersMean(reply.answers.value, asked, open, bad, |reply.answers.value|, slot);
  }

  lemma {:induction false} EntryAnswersAre(section: Section, lanes: seq<Lane>, drafted: map<string, Answer>, n: nat,
                                           a: EntryAnswer)
    requires n <= |lanes| == |section.slotIds| && a in AnswersTo(section, lanes, drafted, n)
    ensures exists i :: 0 <= i < n && a == AnswerFor(section.slotIds[i], lanes[i], drafted)
  {
    if a in AnswersTo(section, lanes, drafted, n - 1) { EntryAnswersAre(section, lanes, drafted, n - 1, a); }
  }

  lemma {:induction false} CitedMeans(planned: seq<string>, answers: seq<EntryAnswer>, n: nat)
    requires n <= |planned|
    ensures forall s :: s in CitedTo(planned, answers, n) <==> s in planned[..n] && CitedBy(answers, s)
  {
    if n > 0 {
      CitedMeans(planned, answers, n - 1);
      assert planned[..n] == planned[..n - 1] + [planned[n - 1]];
    }
  }

  /** Whatever the model replies, and however the gaps are listed: a written answer belongs to a
      draftable slot and cites opened cards only. */
  lemma WrittenAnswersAreSafe(section: Section, slots: map<string, Slot>, skipped: set<string>, planned: seq<string>,
                              withheld: set<string>, draft: Reply, check: Reply, bad: string -> bool, a: EntryAnswer)
    requires Known(section, slots)
    requires var r := DraftedA(section, PlanOf(section, slots, skipped).lanes, planned, withheld, draft, check, bad);
             r.Ok? && a in r.value.answers && a.status == Written
    ensures a.slot in section.slotIds && Draftable(section, slots, skipped, a.slot)
    ensures Cited(a.ids, OpenSet(planned, withheld))
  {
    var lanes := PlanOf(section, slots, skipped).lanes;
    var asked, open := Requested(section, lanes), OpenSet(planned, withheld);
    var standing := Standing(Answers(draft, asked, open, bad), check, Answers(check, asked, open, bad)).value;
    var drafted := if standing.Some? then standing.value else map[];
    EntryAnswersAre(section, lanes, drafted, |lanes|, a);
    var i :| 0 <= i < |lanes| && a == AnswerFor(section.slotIds[i], lanes[i], drafted);
    DraftedLaneIff(section, slots, skipped, i);
    if Answers(draft, asked, open, bad).Ok? { AnswersAreSafe(draft, asked, open, bad, a.slot); }
    if Answers(check, asked, open, bad).Ok? { AnswersAreSafe(check, asked, open, bad, a.slot); }
  }

  /** The section's cited cards are exactly its answers' citations, all opened for it. */
  lemma CitedCardsWereOpened(section: Section, slots: map<string, Slot>, skipped: set<string>, planned: seq<string>,
                             withheld: set<string>, draft: Reply, check: Reply, bad: string -> bool)
    requires Known(section, slots)
    requires DraftedA(section, PlanOf(section, slots, skipped).lanes, planned, withheld, draft, check, bad).Ok?
    ensures var entry := DraftedA(section, PlanOf(section, slots, skipped).lanes, planned, withheld, draft, check,
        bad).value;
            && (forall s | s in entry.cited :: s in planned && s !in withheld && CitedBy(entry.answers, s))
            && (entry.drafted ==> forall s :: CitedBy(entry.answers, s) ==> s in entry.cited)
  {
    var entry := DraftedA(section, PlanOf(section, slots, skipped).lanes, planned, withheld, draft, check, bad).value;
    OpenedMeans(planned, withheld, |planned|);
    CitedMeans(planned, entry.answers, |planned|);
    assert planned[..|planned|] == planned;
    forall s | CitedBy(entry.answers, s) ensures s in OpenSet(planned, withheld) {
      var a :| a in entry.answers && s in a.ids;
      CitesOnlyWhenWritten(section, slots, skipped, planned, withheld, draft, check, bad, a);
      WrittenAnswersAreSafe(section, slots, skipped, planned, withheld, draft, check, bad, a);
    }
  }

  lemma CitesOnlyWhenWritten(section: Section, slots: map<string, Slot>, skipped: set<string>, planned: seq<string>,
                             withheld: set<string>, draft: Reply, check: Reply, bad: string -> bool, a: EntryAnswer)
    requires Known(section, slots)
    requires var r := DraftedA(section, PlanOf(section, slots, skipped).lanes, planned, withheld, draft, check, bad);
             r.Ok? && a in r.value.answers && a.ids != []
    ensures a.status == Written
  {
    var lanes := PlanOf(section, slots, skipped).lanes;
    var asked, open := Requested(section, lanes), OpenSet(planned, withheld);
    var standing := Standing(Answers(draft, asked, open, bad), check, Answers(check, asked, open, bad)).value;
    EntryAnswersAre(section, lanes, if standing.Some? then standing.value else map[], |lanes|, a);
  }

  /** Free-form: the same for the section's one prose. */
  lemma FreeFormCitesOpened(planned: seq<string>, withheld: set<string>, draft: Reply, check: Reply,
                            bad: string -> bool)
    requires DraftedB(planned, withheld, draft, check, bad).Ok?
    ensures Cited(DraftedB(planned, withheld, draft, check, bad).value.cited, OpenSet(planned, withheld))
  {
    var open := OpenSet(planned, withheld);
    if draft.Reply? { CleanIsCited(draft.ids, open); }
    if check.Reply? { CleanIsCited(check.ids, open); }
  }

  // -------------------------------------------------------- replies that end the run

  /** A check that says "fixed" and cites a list where an id belongs. */
  function Rambling(): Reply { Reply(Some([]), Some("text"), Ids([Compound]), FixedVerdict) }

  /** A free-form reply that is a type error: usable prose with a compound citation. */
  predicate Stumbles(reply: Reply, bad: string -> bool) {
    reply.Reply? && reply.prose.Some? && !bad(reply.prose.value) && reply.ids.Ids? && Compound in reply.ids.items
  }

  predicate SaysFixed(check: Reply) { check.Reply? && check.verdict.FixedVerdict? }

  /** A free-form section ends the run, instead of pending or keeping its draft, exactly when the
      draft cannot be loaded or stumbles, or is usable and its check cannot be loaded or says
      "fixed" and stumbles. */
  lemma FreeFormRaisesIff(planned: seq<string>, withheld: set<string>, draft: Reply, check: Reply, bad: string -> bool)
    ensures DraftedB(planned, withheld, draft, check, bad).Raised?
       <==> || draft.Unloadable? || Stumbles(draft, bad)
            || (ProseOf(draft, OpenSet(planned, withheld), bad).Ok?
                && (check.Unloadable? || (SaysFixed(check) && Stumbles(check, bad))))
  {
    var open := OpenSet(planned, withheld);
    StumblesIff(draft, open, bad);
    StumblesIff(check, open, bad);
    ProseOfMeans(draft, open, bad);
    ProseOfMeans(check, open, bad);
  }

  lemma StumblesIff(reply: Reply, open: set<string>, bad: string -> bool)
    ensures ProseOf(reply, open, bad) == Raised(TypeError) <==> Stumbles(reply, bad)
  {
    if reply.Reply? && reply.ids.Ids? {
      CleanRaisesIff(reply.ids.items, open, |reply.ids.items|);
      assert reply.ids.items[..|reply.ids.items|] == reply.ids.items;
    }
  }

  /** The check does not always fail open: a good draft is lost to this one. */
  lemma RamblingCheckEndsTheRun(planned: seq<string>, withheld: set<string>, draft: Reply, bad: string -> bool)
    requires ProseOf(draft, OpenSet(planned, withheld), bad).Ok? && !bad("text")
    ensures DraftedB(planned, withheld, draft, Rambling(), bad) == Raised(TypeError)
  {
    StumblesIff(Rambling(), OpenSet(planned, withheld), bad);
  }

  /** A designated-path reply that is a type error: some entry trips before any pends. */
  predicate Trip(reply: Reply, asked: set<string>, bad: string -> bool) {
    reply.Reply? && reply.answers.Some?
    && exists k :: 0 <= k < |reply.answers.value| && Trips(reply.answers.value, asked, bad, k)
        && Quiet(reply.answers.value, asked, bad, k)
  }

  /** A designated-path reply that is usable: nothing in it trips or pends. */
  predicate Usable(reply: Reply, asked: set<string>, bad: string -> bool) {
    reply.Reply? && reply.answers.Some? && Quiet(reply.answers.value, asked, bad, |reply.answers.value|)
  }

  lemma ReplyOutcome(reply: Reply, asked: set<string>, open: set<string>, bad: string -> bool)
    ensures Answers(reply, asked, open, bad).Ok? <==> Usable(reply, asked, bad)
    ensures Answers(reply, asked, open, bad) == Raised(TypeError) <==> Trip(reply, asked, bad)
    ensures Answers(reply, asked, open, bad) == Raised(LoadError) <==> reply.Unloadable?
  {
    if reply.Reply? && reply.answers.Some? {
      AnswersRaiseIff(reply.answers.value, asked, open, bad, |reply.answers.value|);
    }
  }

  /** A check that ends the run of a section whose draft is usable. */
  predicate CheckRaises(check: Reply, asked: set<string>, bad: string -> bool) {
    check.Unloadable? || (SaysFixed(check) && Trip(check, asked, bad))
  }

  /** A designated-path section ends the run exactly when the draft cannot be loaded or trips, or
      is usable and its check cannot be loaded or says "fixed" and trips. */
  lemma DesignatedRaisesIff(section: Section, lanes: seq<Lane>, planned: seq<string>, withheld: set<string>,
                            draft: Reply, check: Reply, bad: string -> bool)
    requires |lanes| == |section.slotIds|
    ensures DraftedA(section, lanes, planned, withheld, draft, check, bad).Raised?
       <==> || draft.Unloadable? || Trip(draft, Requested(section, lanes), bad)
            || (Usable(draft, Requested(section, lanes), bad) && CheckRaises(check, Requested(section, lanes), bad))
  {
    var asked, open := Requested(section, lanes), OpenSet(planned, withheld);
    ReplyOutcome(draft, asked, open, bad);
    ReplyOutcome(check, asked, open, bad);
  }

  /** The loader takes or refuses the reply, and no slot or citation in it is a list or an object. */
  predicate Plain(reply: Reply) {
    !reply.Unloadable? && (reply.Reply? && reply.answers.Some? ==>
      forall e | e in reply.answers.value && e.RawAnswer? ::
        e.slot != Some(Compound) && (e.ids.Ids? ==> Compound !in e.ids.items))
  }

  /** In particular plain replies never end the run: the section is drafted or pends. */
  lemma PlainRepliesNeverRaise(section: Section, lanes: seq<Lane>, planned: seq<string>, withheld: set<string>,
                               draft: Reply, check: Reply, bad: string -> bool)
    requires |lanes| == |section.slotIds| && Plain(draft) && Plain(check)
    ensures DraftedA(section, lanes, planned, withheld, draft, check, bad).Ok?
  {
    DesignatedRaisesIff(section, lanes, planned, withheld, draft, check, bad);
  }

  /** A check that says "fixed" and names a list as its slot. */
  function RamblingAnswers(): Reply {
    Reply(Some([RawAnswer(Some(Compound), Some("text"), Absent)]), None, Absent, FixedVerdict)
  }

  /** A usable draft of any section is lost to it. */
  lemma RamblingAnswersEndTheRun(section: Section, lanes: seq<Lane>, planned: seq<string>, withheld: set<string>,
                                 draft: Reply, bad: string -> bool)
    requires |lanes| == |section.slotIds| && Usable(draft, Requested(section, lanes), bad)
    ensures DraftedA(section, lanes, planned, withheld, draft, RamblingAnswers(), bad) == Raised(TypeError)
  {
    var asked := Requested(section, lanes);
    assert Trips(RamblingAnswers().answers.value, asked, bad, 0)
        && Quiet(RamblingAnswers().answers.value, asked, bad, 0);
    DesignatedRaisesIff(section, lanes, planned, withheld, draft, RamblingAnswers(), bad);
  }

  /** A check the loader chokes on destroys any usable draft, on either path: nothing in it has to
      be a replacement. */
  lemma UnloadableCheckEndsTheRun(section: Section, lanes: seq<Lane>, planned: seq<string>, withheld: set<string>,
                                  draft: Reply, bad: string -> bool)
    requires |lanes| == |section.slotIds|
    ensures Usable(draft, Requested(section, lanes), bad) ==>
              DraftedA(section, lanes, planned, withheld, draft, Unloadable, bad) == Raised(LoadError)
    ensures ProseOf(draft, OpenSet(planned, withheld), bad).Ok? ==>
              DraftedB(planned, withheld, draft, Unloadable, bad) == Raised(LoadError)
  {
    ReplyOutcome(draft, Requested(section, lanes), OpenSet(planned, withheld), bad);
  }

  // ------------------------------------------------------------- what a check loses

  /** Some entry of the reply answers the slot. */
  predicate AnswersSlot(reply: Reply, slot: string)
    requires reply.Reply? && reply.answers.Some?
  {
    exists k :: 0 <= k < |reply.answers.value| && !Malformed(reply.answers.value[k])
        && reply.answers.value[k].slot == Some(Name(slot))
  }

  /** What stands of a usable draft after the check. */
  function After(draft: Reply, check: Reply, asked: set<string>, open: set<string>, bad: string -> bool)
    : map<string, Answer>
    requires Usable(draft, asked, bad) && !CheckRaises(check, asked, bad)
  {
    ReplyOutcome(draft, asked, open, bad);
    ReplyOutcome(check, asked, open, bad);
    Standing(Answers(draft, asked, open, bad), check, Answers(check, asked, open, bad)).value.value
  }

  lemma SlotAnsweredIff(reply: Reply, asked: set<string>, open: set<string>, bad: string -> bool, slot: string)
    requires Usable(reply, asked, bad) && slot in asked
    ensures Answers(reply, asked, open, bad).Ok?
    ensures slot in Answers(reply, asked, open, bad).value <==> AnswersSlot(reply, slot)
  {
    ReplyOutcome(reply, asked, open, bad);
    AnswersMean(reply.answers.value, asked, open, bad, |reply.answers.value|, slot);
  }

  /** A slot the draft answered is lost exactly when a check that says "fixed" is usable and has no
      entry for it: the replacement is whole, not slot by slot. */
  lemma CheckLosesSlotIff(draft: Reply, check: Reply, asked: set<string>, open: set<string>, bad: string -> bool,
                          slot: string)
    requires Usable(draft, asked, bad) && !CheckRaises(check, asked, bad)
    requires slot in asked && AnswersSlot(draft, slot)
    ensures slot !in After(draft, check, asked, open, bad)
       <==> SaysFixed(check) && Usable(check, asked, bad) && !AnswersSlot(check, slot)
  {
    ReplyOutcome(draft, asked, open, bad);
    ReplyOutcome(check, asked, open, bad);
    SlotAnsweredIff(draft, asked, open, bad, slot);
    if Usable(check, asked, bad) { SlotAnsweredIff(check, asked, open, bad, slot); }
  }

  /** A check of verdict "fixed" with no answers at all leaves every slot pending. */
  lemma EmptyFixLosesAll(draft: Reply, prose: Option<string>, ids: RawIds, asked: set<string>, open: set<string>,
                         bad: string -> bool)
    requires Usable(draft, asked, bad)
    ensures After(draft, Reply(Some([]), prose, ids, FixedVerdict), asked, open, bad) == map[]
  {
    var check := Reply(Some([]), prose, ids, FixedVerdict);
    ReplyOutcome(draft, asked, open, bad);
    assert Answers(check, asked, open, bad) == Ok(map[]);
  }
}
