/** Lists kept in strictly increasing order of a key: lookup, insertion, extensionality. */
module Ordered {
  import opened Wrappers

  predicate Increasing<T>(s: seq<T>, key: T -> nat) {
    forall i, j | 0 <= i < j < |s| :: key(s[i]) < key(s[j])
  }

  function Find<T>(s: seq<T>, key: T -> nat, k: nat): Option<T> {
    if s == [] then None
    else if key(s[0]) == k then Some(s[0])
    else Find(s[1..], key, k)
  }

  function InsertAt<T>(s: seq<T>, i: nat, x: T): seq<T>
    requires i <= |s|
  {
    s[..i] + [x] + s[i..]
  }

  /** How many elements stand at or before key k, in an increasing list. */
  function Rank<T>(s: seq<T>, key: T -> nat, k: nat): (i: nat)
    ensures i <= |s|
  {
    if s == [] || key(s[0]) > k then 0 else 1 + Rank(s[1..], key, k)
  }

  lemma {:induction false} FindMeans<T>(s: seq<T>, key: T -> nat, k: nat)
    requires Increasing(s, key)
    ensures Find(s, key, k).Some? ==> Find(s, key, k).value in s && key(Find(s, key, k).value) == k
    ensures forall i | 0 <= i < |s| && key(s[i]) == k :: Find(s, key, k) == Some(s[i])
  {
    if s != [] && key(s[0]) != k {
      FindMeans(s[1..], key, k);
      forall i | 0 <= i < |s| && key(s[i]) == k ensures Find(s, key, k) == Some(s[i]) {
        assert s[i] == s[1..][i - 1];
      }
    }
  }

  lemma {:induction false} RankSplits<T>(s: seq<T>, key: T -> nat, k: nat)
    requires Increasing(s, key)
    ensures forall i | 0 <= i < Rank(s, key, k) :: key(s[i]) <= k
    ensures forall i | Rank(s, key, k) <= i < |s| :: key(s[i]) > k
  {
    if s != [] && key(s[0]) <= k {
      RankSplits(s[1..], key, k);
      assert forall i | 1 <= i < |s| :: s[i] == s[1..][i - 1];
    }
  }

  lemma SameFind<T>(a: seq<T>, b: seq<T>, key: T -> nat, k: nat)
    requires Increasing(a, key) && Increasing(b, key)
    requires forall i | 0 <= i < |a| && key(a[i]) == k :: a[i] in b
    requires forall i | 0 <= i < |b| && key(b[i]) == k :: b[i] in a
    ensures Find(a, key, k) == Find(b, key, k)
  {
    FindMeans(a, key, k);
    FindMeans(b, key, k);
  }

  /** Replacing the element of a key keeps the order and every other lookup. */
  lemma ReplaceMeans<T>(s: seq<T>, key: T -> nat, i: nat, x: T)
    requires Increasing(s, key) && i < |s| && key(s[i]) == key(x)
    ensures Increasing(s[i := x], key)
    ensures Find(s[i := x], key, key(x)) == Some(x)
    ensures forall k: nat | k != key(x) :: Find(s[i := x], key, k) == Find(s, key, k)
  {
    var t := s[i := x];
    FindMeans(t, key, key(x));
    assert t[i] == x;
    forall k: nat | k != key(x) ensures Find(t, key, k) == Find(s, key, k) {
      forall j | 0 <= j < |t| && key(t[j]) == k ensures t[j] in s { assert t[j] == s[j]; }
      forall j | 0 <= j < |s| && key(s[j]) == k ensures s[j] in t { assert t[j] == s[j]; }
      SameFind(t, s, key, k);
    }
  }

  lemma InsertIncreases<T>(s: seq<T>, key: T -> nat, x: T)
    requires Increasing(s, key) && Find(s, key, key(x)) == None
    ensures Increasing(InsertAt(s, Rank(s, key, key(x)), x), key)
  {
    RankSplits(s, key, key(x));
    FindMeans(s, key, key(x));
    var i := Rank(s, key, key(x));
    var t := InsertAt(s, i, x);
    assert forall j | 0 <= j < |s| :: key(s[j]) != key(x);
    assert t[i] == x;
    assert forall j | 0 <= j < i :: t[j] == s[j];
    assert forall j | i < j < |t| :: t[j] == s[j - 1];
  }

  /** Inserting at the rank of a missing key keeps the order and every other lookup. */
  lemma InsertMeans<T>(s: seq<T>, key: T -> nat, x: T)
    requires Increasing(s, key) && Find(s, key, key(x)) == None
    ensures var t := InsertAt(s, Rank(s, key, key(x)), x);
            && Increasing(t, key)
            && Find(t, key, key(x)) == Some(x)
            && forall k: nat | k != key(x) :: Find(t, key, k) == Find(s, key, k)
  {
    InsertIncreases(s, key, x);
    var i := Rank(s, key, key(x));
    var t := InsertAt(s, i, x);
    FindMeans(t, key, key(x));
    assert t[i] == x;
    forall k: nat | k != key(x) ensures Find(t, key, k) == Find(s, key, k) {
      forall j | 0 <= j < |t| && key(t[j]) == k ensures t[j] in s {
        assert j != i && t[j] == s[if j < i then j else j - 1];
      }
      forall j | 0 <= j < |s| && key(s[j]) == k ensures s[j] in t {
        assert s[j] == t[if j < i then j else j + 1];
      }
      SameFind(t, s, key, k);
    }
  }

  /** A second element of a key, wherever it is put, ends the order. */
  lemma InsertTwice<T>(s: seq<T>, key: T -> nat, i: nat, x: T)
    requires i <= |s| && Increasing(s, key) && Find(s, key, key(x)).Some?
    ensures !Increasing(InsertAt(s, i, x), key)
  {
    FindMeans(s, key, key(x));
    var y := Find(s, key, key(x)).value;
    var j :| 0 <= j < |s| && s[j] == y;
    var t := InsertAt(s, i, x);
    if j < i {
      assert t[j] == y && t[i] == x;
    } else {
      assert t[j + 1] == y && t[i] == x;
    }
  }

  /** An increasing list is determined by its lookups. */
  lemma {:induction false} Extensional<T>(a: seq<T>, b: seq<T>, key: T -> nat)
    requires Increasing(a, key) && Increasing(b, key)
    requires forall k: nat :: Find(a, key, k) == Find(b, key, k)
    ensures a == b
  {
    assert a != [] ==> Find(a, key, key(a[0])) == Some(a[0]);
    assert b != [] ==> Find(b, key, key(b[0])) == Some(b[0]);
    if a != [] && b != [] {
      SameHead(a, b, key);
      forall k: nat ensures Find(a[1..], key, k) == Find(b[1..], key, k) {
        TailFind(a, key, k);
        TailFind(b, key, k);
      }
      Extensional(a[1..], b[1..], key);
      assert a == [a[0]] + a[1..] && b == [b[0]] + b[1..];
    }
  }

  lemma SameHead<T>(a: seq<T>, b: seq<T>, key: T -> nat)
    requires a != [] && b != [] && Increasing(a, key) && Increasing(b, key)
    requires forall k: nat :: Find(a, key, k) == Find(b, key, k)
    ensures a[0] == b[0]
  {
    assert Find(a, key, key(a[0])) == Some(a[0]);
    assert Find(b, key, key(b[0])) == Some(b[0]);
    FindMeans(a, key, key(b[0]));
    FindMeans(b, key, key(a[0]));
    var i :| 0 <= i < |b| && b[i] == a[0];
    var j :| 0 <= j < |a| && a[j] == b[0];
  }

  lemma TailFind<T>(a: seq<T>, key: T -> nat, k: nat)
    requires a != [] && Increasing(a, key)
    ensures Find(a[1..], key, k) == if k == key(a[0]) then None else Find(a, key, k)
  {
    if k == key(a[0]) {
      FindMeans(a[1..], key, k);
    }
  }
}
