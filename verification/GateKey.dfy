/**
  The canonical form of a gate request and its digest (engine/contracts/gate_key.py).
  Arrays and tuples are one case; numbers are integers.
 */
module GateKey {
  import opened Wrappers

  datatype Json =
    | Null
    | Bool(b: bool)
    | Num(n: int)
    | Str(s: string)
    | Arr(items: seq<Json>)
    | Obj(fields: map<string, Json>)

  /** Dropped wherever it is the value of a key: None, False, "", [] and {}. */
  predicate Vacant(v: Json) {
    v == Null || v == Bool(false) || v == Str("") || v == Arr([]) || v == Obj(map[])
  }

  ghost function Prune(v: Json): (r: Json)
    decreases v
  {
    match v
    case Obj(fields) => Obj(PruneFields(v, fields))
    case Arr(items) => Arr(seq(|items|, i requires 0 <= i < |items| => Prune(items[i])))
    case _ => v
  }

  /** The fields of `whole`, each pruned, those left vacant dropped. */
  ghost function PruneFields(whole: Json, fields: map<string, Json>): (r: map<string, Json>)
    requires forall k | k in fields :: fields[k] < whole
    ensures forall k :: k in r <==> k in fields && !Vacant(Prune(fields[k]))
    ensures forall k | k in r :: r[k] == Prune(fields[k])
    decreases whole, |fields|
  {
    if fields == map[] then map[]
    else
      var k :| k in fields;
      var rest := PruneFields(whole, fields - {k});
      if Vacant(Prune(fields[k])) then rest else rest[k := Prune(fields[k])]
  }

  /** Says nothing at all: a vacant leaf, or an object all of whose values say nothing. */
  predicate Silent(v: Json) {
    match v
    case Obj(fields) => forall k | k in fields :: Silent(fields[k])
    case _ => Vacant(v)
  }

  /** The same request: equal up to silent entries at any object level. */
  predicate SameRequest(v: Json, w: Json) {
    match v
    case Obj(fs) =>
      && w.Obj?
      && (forall k | k in fs :: Silent(fs[k]) || (k in w.fields && SameRequest(fs[k], w.fields[k])))
      && (forall k | k in w.fields :: Silent(w.fields[k]) || (k in fs && SameRequest(fs[k], w.fields[k])))
    case Arr(xs) =>
      && w.Arr? && |xs| == |w.items|
      && forall i | 0 <= i < |xs| :: SameRequest(xs[i], w.items[i])
    case _ => v == w
  }

  lemma {:induction false} SilentIsVacated(v: Json)
    ensures Silent(v) <==> Vacant(Prune(v))
  {
    if v.Obj? {
      forall k | k in v.fields ensures Silent(v.fields[k]) <==> Vacant(Prune(v.fields[k])) {
        SilentIsVacated(v.fields[k]);
      }
      if Silent(v) {
        assert Prune(v).fields == map[];
      } else {
        var k :| k in v.fields && !Silent(v.fields[k]);
        assert k in Prune(v).fields;
      }
    }
  }

  /** The canonical form decides sameness: no entry that says nothing, at any depth, can
      change it, and nothing else is forgotten. */
  lemma {:induction false} PruneDecides(v: Json, w: Json)
    ensures SameRequest(v, w) <==> Prune(v) == Prune(w)
    decreases v
  {
    match v
    case Obj(fs) =>
      if w.Obj? {
        ObjectsAgree(fs, w.fields);
      }
    case Arr(xs) =>
      if w.Arr? && |xs| == |w.items| {
        forall i | 0 <= i < |xs| ensures SameRequest(xs[i], w.items[i]) <==> Prune(xs[i]) == Prune(w.items[i]) {
          PruneDecides(xs[i], w.items[i]);
        }
        if SameRequest(v, w) {
          assert Prune(v).items == Prune(w).items;
        } else {
          var i :| 0 <= i < |xs| && !SameRequest(xs[i], w.items[i]);
          assert Prune(v).items[i] != Prune(w).items[i];
        }
      } else if w.Arr? {
        assert |Prune(v).items| != |Prune(w).items|;
      }
    case _ =>
  }

  lemma {:induction false} ObjectsAgree(fs: map<string, Json>, gs: map<string, Json>)
    ensures SameRequest(Obj(fs), Obj(gs)) <==> Prune(Obj(fs)) == Prune(Obj(gs))
    decreases Obj(fs), 0
  {
    var p, q := Prune(Obj(fs)).fields, Prune(Obj(gs)).fields;
    forall k | k in fs
      ensures Silent(fs[k]) <==> k !in p
      ensures k in gs ==> (SameRequest(fs[k], gs[k]) <==> Prune(fs[k]) == Prune(gs[k]))
    {
      SilentIsVacated(fs[k]);
      if k in gs { PruneDecides(fs[k], gs[k]); }
    }
    forall k | k in gs ensures Silent(gs[k]) <==> k !in q { SilentIsVacated(gs[k]); }
    if SameRequest(Obj(fs), Obj(gs)) {
      assert p == q;
    }
  }

  lemma {:induction false} PruneIdempotent(v: Json)
    ensures Prune(Prune(v)) == Prune(v)
  {
    match v
    case Obj(fields) =>
      var p := Prune(v).fields;
      forall k | k in fields ensures Prune(Prune(fields[k])) == Prune(fields[k]) {
        PruneIdempotent(fields[k]);
      }
      assert Prune(Obj(p)).fields == p;
    case Arr(items) =>
      forall i | 0 <= i < |items| ensures Prune(Prune(items[i])) == Prune(items[i]) {
        PruneIdempotent(items[i]);
      }
      assert Prune(Prune(v)).items == Prune(v).items;
    case _ =>
  }

  // --------------------------------------------------------------- the digest

  const SEMANTIC_FIELDS: seq<string> :=
    ["decision", "notes", "edits", "corrections", "answers", "skips", "org", "gates_collapsed"]

  /** The canonical object whose JSON text is hashed; a non-semantic field is refused. */
  ghost function Canon(fields: map<string, Json>): Result<map<string, Json>, set<string>> {
    var unknown := fields.Keys - set name | name in SEMANTIC_FIELDS;
    if unknown != {} then Raised(unknown) else Ok(Prune(Obj(fields)).fields)
  }

  /** `canon` is filled name by name, in the fixed order. */
  ghost method FillCanon(names: seq<string>, fields: map<string, Json>) returns (canon: map<string, Json>)
    ensures forall k :: k in canon <==> k in names && k in fields && !Vacant(Prune(fields[k]))
    ensures forall k | k in canon :: canon[k] == Prune(fields[k])
  {
    canon := map[];
    for i := 0 to |names|
      invariant forall k :: k in canon <==> k in names[..i] && k in fields && !Vacant(Prune(fields[k]))
      invariant forall k | k in canon :: canon[k] == Prune(fields[k])
    {
      if names[i] in fields {
        var pruned := Prune(fields[names[i]]);
        if !Vacant(pruned) {
          canon := canon[names[i] := pruned];
        }
      }
    }
  }

  /** `hash` stands for sha256 over the sorted JSON text. */
  ghost method RequestDigest<D>(fields: map<string, Json>, hash: map<string, Json> -> D)
    returns (r: Result<D, set<string>>)
    ensures r == match Canon(fields)
                 case Ok(canon) => Ok(hash(canon))
                 case Raised(unknown) => Raised(unknown)
  {
    var unknown := fields.Keys - set name | name in SEMANTIC_FIELDS;
    if unknown != {} { return Raised(unknown); }
    var canon := FillCanon(SEMANTIC_FIELDS, fields);
    forall k | k in fields ensures k in SEMANTIC_FIELDS {
      assert k !in unknown;
    }
    assert canon == Prune(Obj(fields)).fields;
    return Ok(hash(canon));
  }

  ghost predicate Injective<D(!new)>(hash: map<string, Json> -> D) {
    forall m, n :: hash(m) == hash(n) ==> m == n
  }

  /** Two accepted requests share a digest exactly when they are the same request. */
  lemma DigestDecides<D(!new)>(fs: map<string, Json>, gs: map<string, Json>, hash: map<string, Json> -> D)
    requires Injective(hash) && Canon(fs).Ok? && Canon(gs).Ok?
    ensures hash(Canon(fs).value) == hash(Canon(gs).value) <==> SameRequest(Obj(fs), Obj(gs))
  {
    PruneDecides(Obj(fs), Obj(gs));
  }

  // ------------------------------------------------------------ same_request

  /** What a checkpoint or a stamp recorded; None where the record lacks the key. */
  datatype Record<D> = Record(decision: Option<string>, actor: Option<string>, digest: Option<D>)

  /** `decision` is None when the caller does not compare it (a stamp records none). */
  predicate SameDecision<D(==)>(record: Record<D>, decision: Option<string>, actor: string, digest: D) {
    && (decision.Some? ==> record.decision == decision)
    && record.actor == Some(actor)
    && (record.digest.Some? ==> record.digest.value == digest)
  }
}
