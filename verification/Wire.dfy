/**
  The whitelist parsers of the drafter's replies (engine/drafting/wire.py).  A reply is arbitrary
  JSON; what matters of it is below.  A compound value has no hash, so a set lookup of it raises.
 */
module Wire {
  import opened Wrappers

  datatype Atom = Name(s: string) | Scalar | Compound

  /** The value under "kb_ids". */
  datatype RawIds = Absent | NotList | Ids(items: seq<Atom>)

  /** An item of "answers"; `slot` is None when missing or empty, `prose` when it is no string. */
  datatype RawAnswer = NotObject | RawAnswer(slot: Option<Atom>, prose: Option<string>, ids: RawIds)

  datatype Verdict = PassVerdict | FixedVerdict | OtherVerdict

  /** `Unloadable` is text on which the JSON loader raises something other than its decode error:
      an integer of too many digits, or nesting too deep. */
  datatype Reply =
    | Unparseable
    | Unloadable
    | NotDict
    | Reply(answers: Option<seq<RawAnswer>>, prose: Option<string>, ids: RawIds, verdict: Verdict)

  /** A wire error pends the section; a type error and the loader's other errors are no wire
      errors and end the run. */
  datatype Fail = WireError | TypeError | LoadError

  datatype Answer = Answer(prose: string, ids: seq<string>)

  // -------------------------------------------------------------- the citation gate

  function KeepOne(out: seq<string>, item: Atom, openIds: set<string>): Result<seq<string>, Fail> {
    match item
    case Name(s) => Ok(if s in out || s !in openIds then out else out + [s])
    case Scalar => Ok(out)
    case Compound => Raised(TypeError)
  }

  function CleanTo(items: seq<Atom>, openIds: set<string>, n: nat): (r: Result<seq<string>, Fail>)
    requires n <= |items|
    ensures r.Raised? ==> r.why.TypeError?
  {
    if n == 0 then Ok([])
    else
      match CleanTo(items, openIds, n - 1)
      case Raised(why) => Raised(why)
      case Ok(out) => KeepOne(out, items[n - 1], openIds)
  }

  function Clean(raw: RawIds, openIds: set<string>): Result<seq<string>, Fail> {
    if raw.Ids? then CleanTo(raw.items, openIds, |raw.items|) else Ok([])
  }

  lemma {:induction false} CleanStops(items: seq<Atom>, openIds: set<string>, k: nat, n: nat)
    requires k <= n <= |items| && CleanTo(items, openIds, k).Raised?
    ensures CleanTo(items, openIds, n) == CleanTo(items, openIds, k)
  {
    if k < n { CleanStops(items, openIds, k, n - 1); }
  }

  method CleanKbIds(raw: RawIds, openIds: set<string>) returns (r: Result<seq<string>, Fail>)
    ensures r == Clean(raw, openIds)
  {
    if !raw.Ids? { return Ok([]); }
    var out: seq<string> := [];
    for k := 0 to |raw.items|
      invariant CleanTo(raw.items, openIds, k) == Ok(out)
    {
      if raw.items[k].Name? && raw.items[k].s in out { continue; }
      if raw.items[k].Compound? {
        CleanStops(raw.items, openIds, k + 1, |raw.items|);
        return Raised(TypeError);
      }
      if !(raw.items[k].Name? && raw.items[k].s in openIds) { continue; }
      out := out + [raw.items[k].s];
    }
    return Ok(out);
  }

  predicate Distinct(ids: seq<string>) { forall i, j | 0 <= i < j < |ids| :: ids[i] != ids[j] }

  /** What is cited is exactly what was both named and opened, once each. */
  lemma {:induction false} CleanMeans(items: seq<Atom>, openIds: set<string>, n: nat)
    requires n <= |items| && CleanTo(items, openIds, n).Ok?
    ensures Distinct(CleanTo(items, openIds, n).value)
    ensures forall s :: s in CleanTo(items, openIds, n).value <==> s in openIds && Name(s) in items[..n]
  {
    if n > 0 {
      CleanMeans(items, openIds, n - 1);
      assert items[..n] == items[..n - 1] + [items[n - 1]];
    }
  }

  /** In the order first named: a longer list only adds after what was kept. */
  lemma {:induction false} CleanKeepsOrder(items: seq<Atom>, openIds: set<string>, k: nat, n: nat)
    requires k <= n <= |items| && CleanTo(items, openIds, n).Ok?
    ensures CleanTo(items, openIds, k).Ok? && CleanTo(items, openIds, k).value <= CleanTo(items, openIds, n).value
  {
    if k < n { CleanKeepsOrder(items, openIds, k, n - 1); }
  }

  /** The gate lets every list through but one that names a list or an object. */
  lemma {:induction false} CleanRaisesIff(items: seq<Atom>, openIds: set<string>, n: nat)
    requires n <= |items|
    ensures CleanTo(items, openIds, n).Raised? <==> Compound in items[..n]
    ensures CleanTo(items, openIds, n).Raised? ==> CleanTo(items, openIds, n).why == TypeError
  {
    if n > 0 {
      CleanRaisesIff(items, openIds, n - 1);
      assert items[..n] == items[..n - 1] + [items[n - 1]];
    }
  }

  predicate Cited(ids: seq<string>, openIds: set<string>) { Distinct(ids) && forall s | s in ids :: s in openIds }

  lemma CleanIsCited(raw: RawIds, openIds: set<string>)
    ensures Clean(raw, openIds).Ok? ==> Cited(Clean(raw, openIds).value, openIds)
  {
    if Clean(raw, openIds).Ok? && raw.Ids? { CleanMeans(raw.items, openIds, |raw.items|); }
  }

  // --------------------------------------------------------------------- the parsers

  /** Prose the exit door would refuse: `bad` finds a control character. */
  function Prose(text: string, raw: RawIds, openIds: set<string>, bad: string -> bool): Result<Answer, Fail> {
    if bad(text) then Raised(WireError)
    else
      match Clean(raw, openIds)
      case Raised(why) => Raised(why)
      case Ok(ids) => Ok(Answer(text, ids))
  }

  predicate Malformed(entry: RawAnswer) {
    entry.NotObject? || entry.slot.None? || entry.slot == Some(Name("")) || entry.prose.None?
  }

  function AnswerStep(out: map<string, Answer>, entry: RawAnswer, requested: set<string>, openIds: set<string>,
                      bad: string -> bool): Result<map<string, Answer>, Fail>
  {
    if Malformed(entry) then Ok(out)
    else
      match entry.slot.value
      case Compound => Raised(TypeError)
      case Scalar => Ok(out)
      case Name(slot) =>
        if slot !in requested || slot in out then Ok(out)
        else
          match Prose(entry.prose.value, entry.ids, openIds, bad)
          case Raised(why) => Raised(why)
          case Ok(answer) => Ok(out[slot := answer])
  }

  function AnswersTo(entries: seq<RawAnswer>, requested: set<string>, openIds: set<string>, bad: string -> bool, n: nat)
    : (r: Result<map<string, Answer>, Fail>)
    requires n <= |entries|
    ensures r.Raised? ==> !r.why.LoadError?
  {
    if n == 0 then Ok(map[])
    else
      match AnswersTo(entries, requested, openIds, bad, n - 1)
      case Raised(why) => Raised(why)
      case Ok(out) => AnswerStep(out, entries[n - 1], requested, openIds, bad)
  }

  function Answers(reply: Reply, requested: set<string>, openIds: set<string>, bad: string -> bool)
    : Result<map<string, Answer>, Fail>
  {
    if reply.Unloadable? then Raised(LoadError)
    else if !reply.Reply? || reply.answers.None? then Raised(WireError)
    else AnswersTo(reply.answers.value, requested, openIds, bad, |reply.answers.value|)
  }

  lemma {:induction false} AnswersStop(entries: seq<RawAnswer>, requested: set<string>, openIds: set<string>,
                                       bad: string -> bool, k: nat, n: nat)
    requires k <= n <= |entries| && AnswersTo(entries, requested, openIds, bad, k).Raised?
    ensures AnswersTo(entries, requested, openIds, bad, n) == AnswersTo(entries, requested, openIds, bad, k)
  {
    if k < n { AnswersStop(entries, requested, openIds, bad, k, n - 1); }
  }

  method ParseWireAnswers(reply: Reply, requested: seq<string>, openIds: set<string>, bad: string -> bool)
    returns (r: Result<map<string, Answer>, Fail>)
    ensures r == Answers(reply, (set s | s in requested), openIds, bad)
  {
    if reply.Unloadable? { return Raised(LoadError); }
    if !reply.Reply? || reply.answers.None? { return Raised(WireError); }
    var entries, wanted := reply.answers.value, set s | s in requested;
    var out: map<string, Answer> := map[];
    for k := 0 to |entries|
      invariant AnswersTo(entries, wanted, openIds, bad, k) == Ok(out)
    {
      var step := AnswerStep(out, entries[k], wanted, openIds, bad);
      if step.Raised? {
        AnswersStop(entries, wanted, openIds, bad, k + 1, |entries|);
        return step;
      }
      out := step.value;
    }
    return Ok(out);
  }

  function ProseOf(reply: Reply, openIds: set<string>, bad: string -> bool): Result<Answer, Fail> {
    if reply.Unloadable? then Raised(LoadError)
    else if !reply.Reply? || reply.prose.None? then Raised(WireError)
    else Prose(reply.prose.value, reply.ids, openIds, bad)
  }

  /** The first usable entry of a slot. */
  predicate UsableAt(entries: seq<RawAnswer>, slot: string, k: nat)
    requires k < |entries|
  {
    && !Malformed(entries[k]) && entries[k].slot == Some(Name(slot))
    && forall j | 0 <= j < k :: Malformed(entries[j]) || entries[j].slot != Some(Name(slot))
  }

  /** Only requested slots are answered, each from its first usable entry, citing opened cards only. */
  lemma {:induction false} AnswersMean(entries: seq<RawAnswer>, requested: set<string>, openIds: set<string>,
                                       bad: string -> bool, n: nat, slot: string)
    requires n <= |entries| && AnswersTo(entries, requested, openIds, bad, n).Ok?
    ensures var out := AnswersTo(entries, requested, openIds, bad, n).value;
            && (slot in out ==> slot in requested && Cited(out[slot].ids, openIds))
            && (slot in out
                ==> exists k :: 0 <= k < n && UsableAt(entries, slot, k) && entries[k].prose == Some(out[slot].prose))
            && (slot !in out && slot in requested ==>
                  forall k | 0 <= k < n :: Malformed(entries[k]) || entries[k].slot != Some(Name(slot)))
  {
    if n > 0 {
      AnswersMean(entries, requested, openIds, bad, n - 1, slot);
      var before, after := AnswersTo(entries, requested, openIds, bad, n - 1).value,
          AnswersTo(entries, requested, openIds, bad, n).value;
      if slot !in before && slot in after {
        CleanIsCited(entries[n - 1].ids, openIds);
        assert UsableAt(entries, slot, n - 1);
      }
    }
  }

  /** An entry that would be answered: the first usable one of a requested slot. */
  predicate Counts(entries: seq<RawAnswer>, requested: set<string>, k: nat)
    requires k < |entries|
  {
    && !Malformed(entries[k]) && entries[k].slot.value.Name?
    && entries[k].slot.value.s in requested && UsableAt(entries, entries[k].slot.value.s, k)
  }

  /** An entry that is a type error: its slot has no hash, or it counts and cites a compound. */
  predicate Trips(entries: seq<RawAnswer>, requested: set<string>, bad: string -> bool, k: nat)
    requires k < |entries|
  {
    && !Malformed(entries[k])
    && (entries[k].slot == Some(Compound)
        || (Counts(entries, requested, k) && !bad(entries[k].prose.value)
            && entries[k].ids.Ids? && Compound in entries[k].ids.items))
  }

  /** An entry that is a wire error: it counts and its prose is refused. */
  predicate Pends(entries: seq<RawAnswer>, requested: set<string>, bad: string -> bool, k: nat)
    requires k < |entries|
  {
    Counts(entries, requested, k) && bad(entries[k].prose.value)
  }

  predicate Quiet(entries: seq<RawAnswer>, requested: set<string>, bad: string -> bool, n: nat)
    requires n <= |entries|
  {
    forall k | 0 <= k < n :: !Trips(entries, requested, bad, k) && !Pends(entries, requested, bad, k)
  }

  lemma QuietStep(entries: seq<RawAnswer>, requested: set<string>, bad: string -> bool, n: nat)
    requires 0 < n <= |entries|
    ensures Quiet(entries, requested, bad, n)
       <==> && Quiet(entries, requested, bad, n - 1)
            && !Trips(entries, requested, bad, n - 1) && !Pends(entries, requested, bad, n - 1)
  {
  }

  lemma TakenIff(entries: seq<RawAnswer>, requested: set<string>, openIds: set<string>, bad: string -> bool, n: nat)
    requires n < |entries| && AnswersTo(entries, requested, openIds, bad, n).Ok?
    requires !Malformed(entries[n]) && entries[n].slot.value.Name? && entries[n].slot.value.s in requested
    ensures entries[n].slot.value.s in AnswersTo(entries, requested, openIds, bad, n).value
       <==> !Counts(entries, requested, n)
  {
    AnswersMean(entries, requested, openIds, bad, n, entries[n].slot.value.s);
  }

  /** One more entry: it raises as it trips or pends, whatever was answered before. */
  lemma EntryRaises(entries: seq<RawAnswer>, requested: set<string>, openIds: set<string>, bad: string -> bool, n: nat)
    requires n < |entries| && AnswersTo(entries, requested, openIds, bad, n).Ok?
    ensures AnswersTo(entries, requested, openIds, bad, n + 1) == Raised(TypeError)
        <==> Trips(entries, requested, bad, n)
    ensures AnswersTo(entries, requested, openIds, bad, n + 1) == Raised(WireError)
        <==> Pends(entries, requested, bad, n)
    ensures AnswersTo(entries, requested, openIds, bad, n + 1).Ok?
       <==> !Trips(entries, requested, bad, n) && !Pends(entries, requested, bad, n)
  {
    var entry := entries[n];
    if !Malformed(entry) && entry.slot.value.Name? && entry.slot.value.s in requested {
      TakenIff(entries, requested, openIds, bad, n);
      if entry.ids.Ids? {
        CleanRaisesIff(entry.ids.items, openIds, |entry.ids.items|);
        assert entry.ids.items[..|entry.ids.items|] == entry.ids.items;
      }
    }
  }

  /** The answers raise a type error exactly when some entry trips and none before it trips or pends. */
  lemma {:induction false} AnswersRaiseIff(entries: seq<RawAnswer>, requested: set<string>, openIds: set<string>,
                                           bad: string -> bool, n: nat)
    requires n <= |entries|
    ensures AnswersTo(entries, requested, openIds, bad, n).Ok? <==> Quiet(entries, requested, bad, n)
    ensures AnswersTo(entries, requested, openIds, bad, n) == Raised(TypeError)
       <==> exists k :: 0 <= k < n && Trips(entries, requested, bad, k) && Quiet(entries, requested, bad, k)
  {
    if n > 0 {
      AnswersRaiseIff(entries, requested, openIds, bad, n - 1);
      QuietStep(entries, requested, bad, n);
      if AnswersTo(entries, requested, openIds, bad, n - 1).Ok? {
        EntryRaises(entries, requested, openIds, bad, n - 1);
      }
    }
  }

  /** `Pass` keeps the draft; `Fixed` replaces it. */
  datatype Checked<T> = Pass | Fixed(replacement: T)

  /** Every wire error of the check keeps the draft; nothing else does. */
  function Check<T>(reply: Reply, parsed: Result<T, Fail>): Result<Checked<T>, Fail> {
    if reply.Unloadable? then Raised(LoadError)
    else if !reply.Reply? || !reply.verdict.FixedVerdict? then Ok(Pass)
    else
      match parsed
      case Raised(WireError) => Ok(Pass)
      case Raised(why) => Raised(why)
      case Ok(value) => Ok(Fixed(value))
  }
}
