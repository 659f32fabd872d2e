/**
  The multicolumn test (engine/extraction/layout.py) over exact coordinates: a search of
  the split points of one sorted list, against every way of splitting the boxes in two.
 */
module Layout {

  datatype Box = Box(left: real, top: real, right: real, bottom: real)

  const MIN_ITEMS_PER_COLUMN := 3
  const SPANNING_WIDTH_FRACTION := 0.6

  function Lower(x: real, y: real): real { if x <= y then x else y }
  function Upper(x: real, y: real): real { if x <= y then y else x }

  // ---------------------------------------------------- extremes of a cluster

  function MinLeft(boxes: seq<Box>): real
    requires boxes != []
  {
    if |boxes| == 1 then boxes[0].left else Lower(boxes[0].left, MinLeft(boxes[1..]))
  }

  function MaxRight(boxes: seq<Box>): real
    requires boxes != []
  {
    if |boxes| == 1 then boxes[0].right else Upper(boxes[0].right, MaxRight(boxes[1..]))
  }

  /** Either y origin convention: only the vertical extent matters. */
  function Lo(b: Box): real { Lower(b.top, b.bottom) }
  function Hi(b: Box): real { Upper(b.top, b.bottom) }

  function YRange(boxes: seq<Box>): (real, real)
    requires boxes != []
  {
    if |boxes| == 1 then (Lo(boxes[0]), Hi(boxes[0]))
    else
      var rest := YRange(boxes[1..]);
      (Lower(Lo(boxes[0]), rest.0), Upper(Hi(boxes[0]), rest.1))
  }

  lemma {:induction false} ExtremesAreMembers(boxes: seq<Box>)
    requires boxes != []
    ensures forall b | b in boxes :: MinLeft(boxes) <= b.left && b.right <= MaxRight(boxes)
    ensures exists i | 0 <= i < |boxes| :: boxes[i].left == MinLeft(boxes)
    ensures exists i | 0 <= i < |boxes| :: boxes[i].right == MaxRight(boxes)
  {
    if |boxes| > 1 {
      var rest := boxes[1..];
      ExtremesAreMembers(rest);
      var i :| 0 <= i < |rest| && rest[i].left == MinLeft(rest);
      var j :| 0 <= j < |rest| && rest[j].right == MaxRight(rest);
      assert boxes[i + 1] == rest[i] && boxes[j + 1] == rest[j];
      assert boxes == [boxes[0]] + rest;
    }
  }

  lemma {:induction false} YRangeIsTight(boxes: seq<Box>)
    requires boxes != []
    ensures forall b | b in boxes :: YRange(boxes).0 <= Lo(b) && Hi(b) <= YRange(boxes).1
    ensures exists i | 0 <= i < |boxes| :: Lo(boxes[i]) == YRange(boxes).0
    ensures exists i | 0 <= i < |boxes| :: Hi(boxes[i]) == YRange(boxes).1
  {
    if |boxes| > 1 {
      var rest := boxes[1..];
      YRangeIsTight(rest);
      var i :| 0 <= i < |rest| && Lo(rest[i]) == YRange(rest).0;
      var j :| 0 <= j < |rest| && Hi(rest[j]) == YRange(rest).1;
      assert boxes[i + 1] == rest[i] && boxes[j + 1] == rest[j];
      assert boxes == [boxes[0]] + rest;
      assert Lo(boxes[if Lo(boxes[0]) <= Lo(rest[i]) then 0 else i + 1]) == YRange(boxes).0;
      assert Hi(boxes[if Hi(boxes[0]) <= Hi(rest[j]) then j + 1 else 0]) == YRange(boxes).1;
    } else {
      assert Lo(boxes[0]) == YRange(boxes).0 && Hi(boxes[0]) == YRange(boxes).1;
    }
  }

  // ------------------------------------------------------------ the criterion

  /** Some member of the one group starts before some member of the other ends. */
  ghost predicate Reaches(starts: multiset<Box>, ends: multiset<Box>) {
    exists a, b | a in starts && b in ends :: Lo(a) < Hi(b)
  }

  /** The two vertical extents share more than an edge. */
  ghost predicate Overlap(left: multiset<Box>, right: multiset<Box>) {
    Reaches(left, left) && Reaches(left, right) && Reaches(right, left) && Reaches(right, right)
  }

  ghost predicate XDisjoint(left: multiset<Box>, right: multiset<Box>) {
    forall a, b | a in left && b in right :: a.right <= b.left
  }

  /** Two groups of at least three, side by side: told by their members alone. */
  ghost predicate SideBySide(left: multiset<Box>, right: multiset<Box>) {
    && |left| >= MIN_ITEMS_PER_COLUMN && |right| >= MIN_ITEMS_PER_COLUMN
    && XDisjoint(left, right)
    && Overlap(left, right)
  }

  /** Some partition of the boxes, of any shape, is side by side. */
  ghost predicate HasColumns(boxes: multiset<Box>) {
    exists left, right | left + right == boxes :: SideBySide(left, right)
  }

  // ---------------------------------------------------------------- the boxes

  predicate PositiveWidth(b: Box) { b.right > b.left }

  predicate AllPositive(boxes: seq<Box>) {
    forall b | b in boxes :: PositiveWidth(b)
  }

  function OfPositiveWidth(boxes: seq<Box>): (wide: seq<Box>)
    ensures forall b :: b in wide <==> b in boxes && PositiveWidth(b)
  {
    if boxes == [] then []
    else (if PositiveWidth(boxes[0]) then [boxes[0]] else []) + OfPositiveWidth(boxes[1..])
  }

  function Narrow(boxes: seq<Box>, width: real): (narrow: seq<Box>)
    ensures |narrow| <= |boxes|
    ensures forall b :: b in narrow <==> b in boxes && b.right - b.left < SPANNING_WIDTH_FRACTION * width
  {
    if boxes == [] then []
    else
      (if boxes[0].right - boxes[0].left < SPANNING_WIDTH_FRACTION * width then [boxes[0]] else [])
      + Narrow(boxes[1..], width)
  }

  function PageWidth(boxes: seq<Box>): real
    requires boxes != []
  {
    MaxRight(boxes) - MinLeft(boxes)
  }

  lemma PageIsWide(boxes: seq<Box>)
    requires boxes != [] && AllPositive(boxes)
    ensures PageWidth(boxes) > 0.0
  {
    ExtremesAreMembers(boxes);
    assert PositiveWidth(boxes[0]);
  }

  /** The boxes clustered: of positive width, full-width furniture left out. */
  function Body(boxes: seq<Box>): seq<Box> {
    var wide := OfPositiveWidth(boxes);
    if wide == [] then [] else Narrow(wide, PageWidth(wide))
  }

  // ----------------------------------------------------------------- the sort

  predicate Before(a: Box, b: Box) {
    a.left < b.left || (a.left == b.left && a.right <= b.right)
  }

  predicate Sorted(boxes: seq<Box>) {
    forall i, j | 0 <= i < j < |boxes| :: Before(boxes[i], boxes[j])
  }

  function Insert(boxes: seq<Box>, b: Box): (r: seq<Box>)
    requires Sorted(boxes)
    ensures Sorted(r) && multiset(r) == multiset(boxes) + multiset{b}
    ensures forall c :: c in r <==> c in boxes || c == b
  {
    if boxes == [] || Before(b, boxes[0]) then [b] + boxes
    else
      assert boxes == [boxes[0]] + boxes[1..];
      var rest := Insert(boxes[1..], b);
      assert forall c | c in rest :: Before(boxes[0], c);
      [boxes[0]] + rest
  }

  /** `list.sort` by (left, right). */
  function SortBoxes(boxes: seq<Box>): (r: seq<Box>)
    ensures Sorted(r) && multiset(r) == multiset(boxes) && |r| == |boxes|
    ensures forall b :: b in r <==> b in boxes
  {
    if boxes == [] then []
    else
      assert boxes == [boxes[0]] + boxes[1..];
      var r := Insert(SortBoxes(boxes[1..]), boxes[0]);
      assert |multiset(r)| == |r|;
      r
  }

  // --------------------------------------------------------------- the search

  /** The test made at one split point. */
  predicate Splits(left: seq<Box>, right: seq<Box>)
    requires left != [] && right != []
  {
    && MaxRight(left) <= MinLeft(right)
    && Lower(YRange(left).1, YRange(right).1) > Upper(YRange(left).0, YRange(right).0)
  }

  predicate SplitsAt(body: seq<Box>, i: nat)
    requires 0 < i < |body|
  {
    Splits(body[..i], body[i..])
  }

  predicate NoSplitBelow(body: seq<Box>, n: nat)
    requires n <= |body| - MIN_ITEMS_PER_COLUMN + 1
  {
    forall k | MIN_ITEMS_PER_COLUMN <= k < n :: !SplitsAt(body, k)
  }

  method IsMulticolumn(boxes: seq<Box>) returns (multicolumn: bool)
    ensures multicolumn <==> HasColumns(multiset(Body(boxes)))
  {
    var wide := OfPositiveWidth(boxes);
    if |wide| < 2 * MIN_ITEMS_PER_COLUMN {
      TooFew(Body(boxes));
      return false;
    }
    var width := MaxRight(wide) - MinLeft(wide);
    PageIsWide(wide);
    if width <= 0.0 {
      assert false; // never: some box is wider than nothing
    }
    var body := Narrow(wide, width);
    if |body| < 2 * MIN_ITEMS_PER_COLUMN {
      TooFew(body);
      return false;
    }
    assert body == Body(boxes) && AllPositive(body);
    body := SortBoxes(body);
    assert AllPositive(body);
    PrefixSearchDecides(body);
    multicolumn := AnySplit(body);
  }

  /** The loop over the split points of the sorted boxes. */
  method AnySplit(body: seq<Box>) returns (found: bool)
    requires |body| >= 2 * MIN_ITEMS_PER_COLUMN
    ensures found <==> !NoSplitBelow(body, |body| - MIN_ITEMS_PER_COLUMN + 1)
  {
    var i := MIN_ITEMS_PER_COLUMN;
    while i < |body| - MIN_ITEMS_PER_COLUMN + 1
      invariant MIN_ITEMS_PER_COLUMN <= i <= |body| - MIN_ITEMS_PER_COLUMN + 1
      invariant NoSplitBelow(body, i)
    {
      if SplitsAt(body, i) {
        return true;
      }
      i := i + 1;
    }
    return false;
  }

  lemma TooFew(body: seq<Box>)
    requires |body| < 2 * MIN_ITEMS_PER_COLUMN
    ensures !HasColumns(multiset(body))
  {
    forall left, right | left + right == multiset(body)
      ensures !SideBySide(left, right)
    {
      assert |left| + |right| == |multiset(body)| == |body|;
    }
  }

  lemma ReachesByRange(starts: seq<Box>, ends: seq<Box>)
    requires starts != [] && ends != []
    ensures Reaches(multiset(starts), multiset(ends)) <==> YRange(starts).0 < YRange(ends).1
  {
    YRangeIsTight(starts);
    YRangeIsTight(ends);
    var i :| 0 <= i < |starts| && Lo(starts[i]) == YRange(starts).0;
    var j :| 0 <= j < |ends| && Hi(ends[j]) == YRange(ends).1;
    assert starts[i] in multiset(starts) && ends[j] in multiset(ends);
    if a, b :| a in multiset(starts) && b in multiset(ends) && Lo(a) < Hi(b) {
      assert a in starts && b in ends;
    }
  }

  lemma DisjointByExtremes(left: seq<Box>, right: seq<Box>)
    requires left != [] && right != []
    ensures XDisjoint(multiset(left), multiset(right)) <==> MaxRight(left) <= MinLeft(right)
  {
    ExtremesAreMembers(left);
    ExtremesAreMembers(right);
    var i :| 0 <= i < |left| && left[i].right == MaxRight(left);
    var j :| 0 <= j < |right| && right[j].left == MinLeft(right);
    assert left[i] in multiset(left) && right[j] in multiset(right);
    forall c, d | c in multiset(left) && d in multiset(right)
      ensures c.right <= MaxRight(left) && MinLeft(right) <= d.left
    {
      assert c in left && d in right;
    }
  }

  /** The tests on two lists say exactly that their members are side by side. */
  lemma SplitsMeansMembers(left: seq<Box>, right: seq<Box>)
    requires left != [] && right != []
    ensures Splits(left, right)
        <==> XDisjoint(multiset(left), multiset(right)) && Overlap(multiset(left), multiset(right))
  {
    DisjointByExtremes(left, right);
    OverlapByRange(left, right);
  }

  lemma OverlapByRange(left: seq<Box>, right: seq<Box>)
    requires left != [] && right != []
    ensures Overlap(multiset(left), multiset(right)) <==>
            Lower(YRange(left).1, YRange(right).1) > Upper(YRange(left).0, YRange(right).0)
  {
    ReachesByRange(left, left);
    ReachesByRange(left, right);
    ReachesByRange(right, left);
    ReachesByRange(right, right);
  }

  lemma SplitIsSideBySide(body: seq<Box>, i: nat)
    requires MIN_ITEMS_PER_COLUMN <= i <= |body| - MIN_ITEMS_PER_COLUMN
    requires SplitsAt(body, i)
    ensures HasColumns(multiset(body))
  {
    assert body == body[..i] + body[i..];
    SplitsMeansMembers(body[..i], body[i..]);
    var left, right := multiset(body[..i]), multiset(body[i..]);
    assert |left| == i && |right| == |body| - i;
    assert left + right == multiset(body) && SideBySide(left, right);
  }

  lemma DropFirst(body: seq<Box>, left: multiset<Box>, right: multiset<Box>)
    requires body != [] && left + right == multiset(body) && body[0] in left
    ensures (left - multiset{body[0]}) + right == multiset(body[1..])
  {
    assert body == [body[0]] + body[1..];
    assert multiset(body) == multiset{body[0]} + multiset(body[1..]);
    assert left == multiset{body[0]} + (left - multiset{body[0]});
    Cancel(multiset{body[0]}, (left - multiset{body[0]}) + right, multiset(body[1..]));
  }

  lemma Cancel(a: multiset<Box>, b: multiset<Box>, c: multiset<Box>)
    requires a + b == a + c
    ensures b == c
  {
    forall x: Box ensures b[x] == c[x] {
      assert (a + b)[x] == (a + c)[x];
    }
  }

  /** In left-edge order the left group of any x-disjoint partition is a prefix. */
  lemma {:induction false} LeftGroupIsPrefix(body: seq<Box>, left: multiset<Box>, right: multiset<Box>)
    requires Sorted(body) && AllPositive(body)
    requires left + right == multiset(body)
    requires XDisjoint(left, right)
    ensures |left| <= |body| && multiset(body[..|left|]) == left
    decreases |left|
  {
    assert |left| + |right| == |multiset(body)| == |body|;
    if |left| == 0 {
      assert body[..0] == [];
    } else {
      FirstIsLeft(body, left, right);
      DropFirst(body, left, right);
      var rest := left - multiset{body[0]};
      LeftGroupIsPrefix(body[1..], rest, right);
      assert body[..|left|] == [body[0]] + body[1..][..|left| - 1];
    }
  }

  lemma FirstIsLeft(body: seq<Box>, left: multiset<Box>, right: multiset<Box>)
    requires Sorted(body) && AllPositive(body)
    requires left + right == multiset(body) && |left| > 0
    requires XDisjoint(left, right)
    ensures body != [] && body[0] in left
  {
    var a :| a in left;
    assert a in multiset(body);
    var i :| 0 <= i < |body| && body[i] == a;
    var b := body[0];
    assert b in multiset(body);
    assert i == 0 || Before(b, a);
    assert PositiveWidth(a) && a.left < a.right;
    assert b in left || b in right;
  }

  lemma PartitionSplits(body: seq<Box>, left: multiset<Box>, right: multiset<Box>)
    requires Sorted(body) && AllPositive(body)
    requires left + right == multiset(body) && SideBySide(left, right)
    ensures MIN_ITEMS_PER_COLUMN <= |left| <= |body| - MIN_ITEMS_PER_COLUMN
    ensures SplitsAt(body, |left|)
  {
    var k := |left|;
    LeftGroupIsPrefix(body, left, right);
    assert |left| + |right| == |multiset(body)| == |body|;
    assert body == body[..k] + body[k..];
    Cancel(left, multiset(body[k..]), right);
    SplitsMeansMembers(body[..k], body[k..]);
  }

  /** The search of the prefixes misses no partition, of any shape, and invents none. */
  lemma PrefixSearchDecides(body: seq<Box>)
    requires Sorted(body) && AllPositive(body) && |body| >= 2 * MIN_ITEMS_PER_COLUMN
    ensures NoSplitBelow(body, |body| - MIN_ITEMS_PER_COLUMN + 1) <==> !HasColumns(multiset(body))
  {
    if left, right :| left + right == multiset(body) && SideBySide(left, right) {
      PartitionSplits(body, left, right);
    }
    if !NoSplitBelow(body, |body| - MIN_ITEMS_PER_COLUMN + 1) {
      var k :| MIN_ITEMS_PER_COLUMN <= k <= |body| - MIN_ITEMS_PER_COLUMN && SplitsAt(body, k);
      SplitIsSideBySide(body, k);
    }
  }
}
