/**
  The card store and its restricted provenance records (engine/kb/store.py,
  engine/kb/provenance.py).  Card ids are numbers standing in their lexicographic order.
 */
module Provenance {
  import opened Ordered
  import opened Wrappers

  type KbId = nat

  datatype Card = Card(id: KbId, survival: Option<real>, outcome: nat, content: string)

  /** One contributing {source_pursuit, source_client, date}. */
  datatype Source = Source(pursuit: string, client: string, date: string)

  datatype Record = Record(sources: seq<Source>, identifiers: map<string, string>, derivedFrom: set<KbId>)

  datatype Store = Store(cards: map<KbId, Card>, records: map<KbId, Record>)

  /** Every card has its record and every record its card. */
  predicate Consistent(store: Store) {
    && store.cards.Keys == store.records.Keys
    && forall id | id in store.cards :: store.cards[id].id == id
  }

  // ------------------------------------------------------------- the operations

  function WriteCard(store: Store, card: Card, source: Source, identifiers: map<string, string>, derived: set<KbId>)
    : Store
  {
    Store(store.cards[card.id := card], store.records[card.id := Record([source], identifiers, derived)])
  }

  /** Refuses a card that does not exist; the restricted record is not rewritten. */
  function RewriteCard(store: Store, card: Card): Result<Store, string> {
    if card.id !in store.cards then Raised("card does not exist")
    else Ok(store.(cards := store.cards[card.id := card]))
  }

  function WithSources(sources: seq<Source>, more: seq<Source>): (r: seq<Source>)
    ensures forall s :: s in r <==> s in sources || s in more
    decreases |more|
  {
    if more == [] then sources
    else
      assert more == [more[0]] + more[1..];
      WithSources(if more[0] in sources then sources else sources + [more[0]], more[1..])
  }

  function AppendSource(store: Store, id: KbId, source: Source, identifiers: map<string, string>,
                        absorbed: Option<KbId>)
    : Result<Store, string>
  {
    if id !in store.records then Raised("no such record")
    else
      var record := store.records[id];
      Ok(store.(records := store.records[id := Record(
        WithSources(record.sources, [source]),
        record.identifiers + identifiers,
        record.derivedFrom + (if absorbed.Some? then {absorbed.value} else {}))]))
  }

  /** The loser's sources, identifiers and derivation links fold into the survivor. */
  function Folded(src: Record, dst: Record, srcId: KbId): Record {
    Record(WithSources(dst.sources, src.sources), dst.identifiers + src.identifiers,
           dst.derivedFrom + src.derivedFrom + {srcId})
  }

  function MergeInto(store: Store, src: KbId, dst: KbId): Result<Store, string> {
    if src !in store.records || dst !in store.records then Raised("no such record")
    else
      Ok(store.(records := store.records[dst := Folded(store.records[src], store.records[dst], src)] - {src}))
  }

  function DeleteCard(store: Store, id: KbId): Result<Store, string> {
    if id !in store.cards then Raised("no such card") else Ok(store.(cards := store.cards - {id}))
  }

  /** The merge memory read off the records: each absorbed id, and the first record that lists it. */
  ghost predicate OwnersOf(records: map<KbId, Record>, owners: map<KbId, KbId>) {
    && (forall id, x | id in records && x in records[id].derivedFrom :: x in owners && owners[x] <= id)
    && (forall x | x in owners :: owners[x] in records && x in records[owners[x]].derivedFrom)
  }

  /** The same operations on the store object; `fits` is the card schema, asked before a card is written. */
  class KBStore {
    var cards: map<KbId, Card>
    var records: map<KbId, Record>
    const fits: Card -> bool

    constructor (store: Store, fits: Card -> bool)
      ensures View() == store && this.fits == fits
    {
      cards, records, this.fits := store.cards, store.records, fits;
    }

    function View(): Store reads this { Store(cards, records) }

    method Write(card: Card, source: Source, identifiers: map<string, string>, derived: set<KbId>)
      returns (r: Result<(), string>)
      modifies this
      ensures r.Ok? <==> fits(card)
      ensures View() == if fits(card) then WriteCard(old(View()), card, source, identifiers, derived) else old(View())
    {
      if !fits(card) { return Raised("does not validate"); }
      cards := cards[card.id := card];
      records := records[card.id := Record([source], identifiers, derived)];
      return Ok(());
    }

    method Rewrite(card: Card) returns (r: Result<(), string>)
      modifies this`cards
      ensures match RewriteCard(old(View()), card)
              case Ok(after) => if fits(card) then r.Ok? && View() == after else r.Raised? && View() == old(View())
              case Raised(why) => r == Raised(why) && View() == old(View())
    {
      if card.id !in cards { return Raised("card does not exist"); }
      if !fits(card) { return Raised("does not validate"); }
      cards := cards[card.id := card];
      return Ok(());
    }

    method Append(id: KbId, source: Source, identifiers: map<string, string>, absorbed: Option<KbId>)
      returns (r: Result<(), string>)
      modifies this`records
      ensures match AppendSource(old(View()), id, source, identifiers, absorbed)
              case Ok(after) => r.Ok? && View() == after
              case Raised(why) => r == Raised(why) && View() == old(View())
    {
      if id !in records { return Raised("no such record"); }
      var record := records[id];
      assert [source][1..] == [];
      assert WithSources(record.sources, [source])
          == if source in record.sources then record.sources else record.sources + [source];
      if source !in record.sources {
        record := record.(sources := record.sources + [source]);
      }
      record := record.(identifiers := record.identifiers + identifiers);
      if absorbed.Some? {
        record := record.(derivedFrom := record.derivedFrom + {absorbed.value});
      }
      assert record.derivedFrom == old(records)[id].derivedFrom + (if absorbed.Some? then {absorbed.value} else {});
      records := records[id := record];
      return Ok(());
    }

    method Merge(src: KbId, dst: KbId) returns (r: Result<(), string>)
      modifies this`records
      ensures match MergeInto(old(View()), src, dst)
              case Ok(after) => r.Ok? && View() == after
              case Raised(why) => r == Raised(why) && View() == old(View())
    {
      if src !in records { return Raised("no such record"); }
      if dst !in records { return Raised("no such record"); }
      var from, to := records[src], records[dst];
      ghost var before := to.sources;
      for k := 0 to |from.sources|
        invariant WithSources(to.sources, from.sources[k..]) == WithSources(before, from.sources)
        invariant to.identifiers == records[dst].identifiers && to.derivedFrom == records[dst].derivedFrom
      {
        assert from.sources[k..][1..] == from.sources[k + 1..];
        if from.sources[k] !in to.sources {
          to := to.(sources := to.sources + [from.sources[k]]);
        }
      }
      to := to.(identifiers := to.identifiers + from.identifiers);
      to := to.(derivedFrom := to.derivedFrom + from.derivedFrom + {src});
      records := records[dst := to];
      records := records - {src};
      return Ok(());
    }

    method Delete(id: KbId) returns (r: Result<(), string>)
      modifies this`cards
      ensures match DeleteCard(old(View()), id)
              case Ok(after) => r.Ok? && View() == after
              case Raised(why) => r == Raised(why) && View() == old(View())
    {
      if id !in cards { return Raised("no such card"); }
      cards := cards - {id};
      return Ok(());
    }
  }

  /** `setdefault` for every absorbed id of one record. */
  method SetDefaults(before: map<KbId, KbId>, ids: set<KbId>, owner: KbId) returns (owners: map<KbId, KbId>)
    ensures forall y :: y in owners <==> y in before || y in ids
    ensures forall y | y in owners :: owners[y] == if y in before then before[y] else owner
  {
    owners := before;
    var rest := ids;
    while rest != {}
      invariant rest <= ids
      invariant forall y :: y in owners <==> y in before || (y in ids && y !in rest)
      invariant forall y | y in owners :: owners[y] == if y in before then before[y] else owner
      decreases |rest|
    {
      var x :| x in rest;
      if x !in owners { owners := owners[x := owner]; }
      rest := rest - {x};
    }
  }

  /** The listing is the sorted directory of records; an earlier owner is never replaced. */
  method AbsorbedOwners(store: KBStore, listing: seq<KbId>) returns (owners: map<KbId, KbId>)
    requires Increasing(listing, id => id)
    requires forall id :: id in listing <==> id in store.records
    ensures OwnersOf(store.records, owners)
  {
    owners := map[];
    for k := 0 to |listing|
      invariant forall i, x | 0 <= i < k && x in store.records[listing[i]].derivedFrom ::
        x in owners && owners[x] <= listing[i]
      invariant forall x | x in owners :: owners[x] in listing[..k] && x in store.records[owners[x]].derivedFrom
    {
      owners := SetDefaults(owners, store.records[listing[k]].derivedFrom, listing[k]);
    }
    forall id, x | id in store.records && x in store.records[id].derivedFrom ensures x in owners && owners[x] <= id {
      var i :| 0 <= i < |listing| && listing[i] == id;
    }
  }

  // ---------------------------------------------------------- what is conserved

  ghost predicate HoldsSource(store: Store, source: Source) {
    exists id | id in store.records :: source in store.records[id].sources
  }

  ghost predicate HoldsIdentifier(store: Store, key: string) {
    exists id | id in store.records :: key in store.records[id].identifiers
  }

  /** The id is live, or a live record remembers having absorbed it. */
  ghost predicate Remembers(store: Store, id: KbId) {
    id in store.records || exists owner | owner in store.records :: id in store.records[owner].derivedFrom
  }

  /** Nothing a record ever held is lost from the records, and no id is forgotten. */
  ghost predicate Conserves(before: Store, after: Store) {
    && (forall s | HoldsSource(before, s) :: HoldsSource(after, s))
    && (forall k | HoldsIdentifier(before, k) :: HoldsIdentifier(after, k))
    && (forall id | Remembers(before, id) :: Remembers(after, id))
  }

  lemma ConservesTransitive(a: Store, b: Store, c: Store)
    requires Conserves(a, b) && Conserves(b, c)
    ensures Conserves(a, c)
  {
  }

  /** Every record is covered by a record afterwards, itself or the one it folded into. */
  ghost predicate Covered(before: Store, after: Store, id: KbId, owner: KbId)
    requires id in before.records
  {
    && owner in after.records
    && (forall s | s in before.records[id].sources :: s in after.records[owner].sources)
    && before.records[id].identifiers.Keys <= after.records[owner].identifiers.Keys
    && before.records[id].derivedFrom <= after.records[owner].derivedFrom
    && (owner == id || id in after.records[owner].derivedFrom)
  }

  lemma CoveredConserves(before: Store, after: Store)
    requires forall id | id in before.records :: exists owner :: Covered(before, after, id, owner)
    ensures Conserves(before, after)
  {
    forall s | HoldsSource(before, s) ensures HoldsSource(after, s) {
      var id :| id in before.records && s in before.records[id].sources;
      var owner :| Covered(before, after, id, owner);
    }
    forall k | HoldsIdentifier(before, k) ensures HoldsIdentifier(after, k) {
      var id :| id in before.records && k in before.records[id].identifiers;
      var owner :| Covered(before, after, id, owner);
    }
    forall x | Remembers(before, x) ensures Remembers(after, x) {
      var id :| id in before.records && (x == id || x in before.records[id].derivedFrom);
      var owner :| Covered(before, after, id, owner);
    }
  }

  lemma WriteConserves(store: Store, card: Card, source: Source, identifiers: map<string, string>, derived: set<KbId>)
    requires card.id !in store.records
    ensures var after := WriteCard(store, card, source, identifiers, derived);
            Conserves(store, after) && HoldsSource(after, source) && (Consistent(store) ==> Consistent(after))
  {
    var after := WriteCard(store, card, source, identifiers, derived);
    forall id | id in store.records ensures Covered(store, after, id, id) {}
    CoveredConserves(store, after);
    assert source in after.records[card.id].sources;
  }

  lemma AppendConserves(store: Store, id: KbId, source: Source, identifiers: map<string, string>,
                        absorbed: Option<KbId>)
    requires id in store.records
    ensures var after := AppendSource(store, id, source, identifiers, absorbed).value;
            && Conserves(store, after) && HoldsSource(after, source)
            && (absorbed.Some? ==> Remembers(after, absorbed.value))
            && (Consistent(store) ==> Consistent(after))
  {
    var after := AppendSource(store, id, source, identifiers, absorbed).value;
    forall x | x in store.records ensures Covered(store, after, x, x) {}
    CoveredConserves(store, after);
    assert source in after.records[id].sources;
    assert absorbed.Some? ==> absorbed.value in after.records[id].derivedFrom;
  }

  lemma SameRecordsConserve(before: Store, after: Store)
    requires before.records == after.records
    ensures Conserves(before, after)
  {
  }

  lemma RewriteConserves(store: Store, card: Card)
    requires card.id in store.cards
    ensures var after := RewriteCard(store, card).value;
            Conserves(store, after) && (Consistent(store) ==> Consistent(after))
  {
    SameRecordsConserve(store, RewriteCard(store, card).value);
  }

  lemma MergeConserves(store: Store, src: KbId, dst: KbId)
    requires src in store.records && dst in store.records && src != dst
    ensures Conserves(store, MergeInto(store, src, dst).value)
  {
    var after := MergeInto(store, src, dst).value;
    forall x | x in store.records ensures exists owner :: Covered(store, after, x, owner) {
      assert Covered(store, after, x, if x == src then dst else x);
    }
    CoveredConserves(store, after);
  }

  /** A merge of a card into itself would lose its record. */
  lemma SelfMergeLoses(store: Store, id: KbId)
    requires id in store.records
    ensures id !in MergeInto(store, id, id).value.records
  {
  }
}
