/**
  The structure-aware chunker (engine/kb/chunk.py): one pass over the elements with a
  stack of open headings, against what the chunks and their paths mean.
 */
module Chunker {
  import opened Wrappers

  datatype Kind = Heading | Figure | QuestionAnswer | Plain

  datatype Element = Element(kind: Kind, text: string, level: Option<nat>, page: Option<int>)

  datatype Chunk = Chunk(docPath: seq<string>, start: nat, end: nat, chars: nat, pages: set<int>)

  /** `element.level or 1`. */
  function Level(e: Element): nat {
    if e.level.Some? && e.level.value != 0 then e.level.value else 1
  }

  function Chars(elements: seq<Element>): nat {
    if elements == [] then 0 else Chars(elements[..|elements| - 1]) + |elements[|elements| - 1].text|
  }

  function SpanChunk(elements: seq<Element>, docPath: seq<string>, start: nat, end: nat): Chunk
    requires start <= end <= |elements|
  {
    var span := elements[start..end];
    Chunk(docPath, start, end, Chars(span), set e | e in span && e.page.Some? :: e.page.value)
  }

  // -------------------------------------------------------- what a path means

  /** Heading h is still open before index n: no later heading of equal or lower level closed it. */
  predicate Open(elements: seq<Element>, h: nat, n: nat)
  {
    && h < n <= |elements|
    && elements[h].kind.Heading?
    && forall j | h < j < n && elements[j].kind.Heading? :: Level(elements[j]) > Level(elements[h])
  }

  /** The level and text of every heading below `upto` still open before n, in reading order. */
  function OpenHeadings(elements: seq<Element>, n: nat, upto: nat): seq<(nat, string)>
    requires upto <= n <= |elements|
  {
    if upto == 0 then []
    else
      var h := elements[upto - 1];
      OpenHeadings(elements, n, upto - 1) + (if Open(elements, upto - 1, n) then [(Level(h), h.text)] else [])
  }

  function Texts(path: seq<(nat, string)>): seq<string> {
    seq(|path|, k requires 0 <= k < |path| => path[k].1)
  }

  /** The path of an element at index n. */
  function PathAt(elements: seq<Element>, n: nat): seq<string>
    requires n <= |elements|
  {
    Texts(OpenHeadings(elements, n, n))
  }

  lemma {:induction false} OpenLevelsBelow(elements: seq<Element>, n: nat, upto: nat, j: nat)
    requires upto <= j < n <= |elements| && elements[j].kind.Heading?
    ensures forall k | 0 <= k < |OpenHeadings(elements, n, upto)| ::
              OpenHeadings(elements, n, upto)[k].0 < Level(elements[j])
  {
    if upto > 0 {
      OpenLevelsBelow(elements, n, upto - 1, j);
    }
  }

  /** Levels strictly increase along every path. */
  lemma {:induction false} LevelsIncrease(elements: seq<Element>, n: nat, upto: nat)
    requires upto <= n <= |elements|
    ensures forall i, j | 0 <= i < j < |OpenHeadings(elements, n, upto)| ::
              OpenHeadings(elements, n, upto)[i].0 < OpenHeadings(elements, n, upto)[j].0
  {
    if upto > 0 {
      LevelsIncrease(elements, n, upto - 1);
      if Open(elements, upto - 1, n) {
        OpenLevelsBelow(elements, n, upto - 1, upto - 1);
      }
    }
  }

  /** A heading at index n closes exactly the open headings from position `keep` on. */
  lemma {:induction false} HeadingCloses(elements: seq<Element>, n: nat, upto: nat, keep: nat)
    requires upto <= n < |elements| && elements[n].kind.Heading?
    requires keep <= |OpenHeadings(elements, n, upto)|
    requires forall k | 0 <= k < |OpenHeadings(elements, n, upto)| ::
               k < keep <==> OpenHeadings(elements, n, upto)[k].0 < Level(elements[n])
    ensures OpenHeadings(elements, n + 1, upto) == OpenHeadings(elements, n, upto)[..keep]
  {
    if upto > 0 {
      var open, prior := OpenHeadings(elements, n, upto), OpenHeadings(elements, n, upto - 1);
      assert forall k | 0 <= k < |prior| :: open[k] == prior[k];
      var h := upto - 1;
      HeadingCloses(elements, n, upto - 1, if keep <= |prior| then keep else |prior|);
      if Open(elements, h, n) {
        assert open[|prior|].0 == Level(elements[h]);
        assert Open(elements, h, n + 1) <==> Level(elements[h]) < Level(elements[n]);
      } else {
        assert open == prior;
        assert !Open(elements, h, n + 1);
      }
    }
  }

  lemma {:induction false} OtherKeepsOpen(elements: seq<Element>, n: nat, upto: nat)
    requires upto <= n < |elements| && !elements[n].kind.Heading?
    ensures OpenHeadings(elements, n + 1, upto) == OpenHeadings(elements, n, upto)
  {
    if upto > 0 {
      OtherKeepsOpen(elements, n, upto - 1);
      assert Open(elements, upto - 1, n + 1) <==> Open(elements, upto - 1, n);
    }
  }

  // -------------------------------------------------------- what the spans mean

  predicate AllHeadings(elements: seq<Element>, from: nat, to: nat)
    requires to <= |elements|
  {
    forall k | from <= k < to :: elements[k].kind.Heading?
  }

  predicate AllPlain(elements: seq<Element>, from: nat, to: nat)
    requires to <= |elements|
  {
    forall k | from <= k < to :: elements[k].kind.Plain?
  }

  /** A figure or Q&A alone, or a run of plain content that extends neither way. */
  predicate Span(elements: seq<Element>, start: nat, end: nat) {
    && start < end <= |elements|
    && (|| (end == start + 1 && (elements[start].kind.Figure? || elements[start].kind.QuestionAnswer?))
        || (&& AllPlain(elements, start, end)
            && (start > 0 ==> !elements[start - 1].kind.Plain?)
            && (end < |elements| ==> !elements[end].kind.Plain?)))
  }

  predicate Whole(elements: seq<Element>, chunk: Chunk) {
    && Span(elements, chunk.start, chunk.end)
    && chunk == SpanChunk(elements, PathAt(elements, chunk.start), chunk.start, chunk.end)
  }

  /** In order, disjoint, nothing but headings between them, below index n. */
  predicate Tiles(elements: seq<Element>, chunks: seq<Chunk>, n: nat)
    requires n <= |elements|
  {
    if chunks == [] then AllHeadings(elements, 0, n)
    else
      var last := chunks[|chunks| - 1];
      && last.end <= n
      && Whole(elements, last)
      && AllHeadings(elements, last.end, n)
      && Tiles(elements, chunks[..|chunks| - 1], last.start)
  }

  method ChunkElements(elements: seq<Element>) returns (chunks: seq<Chunk>)
    ensures Tiles(elements, chunks, |elements|)
  {
    chunks := [];
    var path: seq<(nat, string)> := [];
    var runStart: Option<nat> := None;
    var index := 0;
    while index < |elements|
      invariant 0 <= index <= |elements|
      invariant PathIs(elements, path, index)
      invariant RunIs(elements, chunks, path, RunFrom(runStart, index), index)
    {
      var element := elements[index];
      match element.kind {
        case Heading =>
          chunks := Flush(elements, chunks, path, runStart, index);
          runStart := None;
          var level := Level(element);
          path := PopClosed(elements, path, index);
          path := path + [(level, element.text)];
          HeadingTiles(elements, chunks, path, index);
        case Plain =>
          PlainExtends(elements, chunks, path, runStart, index);
          if runStart == None {
            runStart := Some(index);
          }
          OtherPath(elements, path, index);
        case _ =>
          chunks := Flush(elements, chunks, path, runStart, index);
          runStart := None;
          SingleTiles(elements, chunks, path, index);
          chunks := chunks + [SpanChunk(elements, Texts(path), index, index + 1)];
          OtherPath(elements, path, index);
      }
      index := index + 1;
    }
    chunks := Flush(elements, chunks, path, runStart, |elements|);
  }

  /** The stack holds the open headings. */
  predicate PathIs(elements: seq<Element>, path: seq<(nat, string)>, n: nat)
    requires n <= |elements|
  {
    path == OpenHeadings(elements, n, n)
  }

  function RunFrom(runStart: Option<nat>, n: nat): nat {
    if runStart.Some? then runStart.value else n
  }

  /** What the loop keeps: the chunks tile everything before the pending run of plain content. */
  predicate RunIs(elements: seq<Element>, chunks: seq<Chunk>, path: seq<(nat, string)>, from: nat, n: nat) {
    && from <= n <= |elements|
    && AllPlain(elements, from, n)
    && (from > 0 ==> !elements[from - 1].kind.Plain?)
    && PathIs(elements, path, from)
    && Tiles(elements, chunks, from)
  }

  /** `flush(end)`: the pending run, if any, becomes a chunk under the current path. */
  method Flush(elements: seq<Element>, chunks: seq<Chunk>, path: seq<(nat, string)>, runStart: Option<nat>, end: nat)
    returns (r: seq<Chunk>)
    requires RunIs(elements, chunks, path, RunFrom(runStart, end), end)
    requires end < |elements| ==> !elements[end].kind.Plain?
    ensures Tiles(elements, r, end)
  {
    r := chunks;
    if runStart.Some? && end > runStart.value {
      PathTexts(elements, path, runStart.value);
      r := chunks + [SpanChunk(elements, Texts(path), runStart.value, end)];
      assert r[..|r| - 1] == chunks;
    }
  }

  /** The open headings of equal or deeper level leave the stack. */
  method PopClosed(elements: seq<Element>, path: seq<(nat, string)>, n: nat) returns (r: seq<(nat, string)>)
    requires n < |elements| && elements[n].kind.Heading? && PathIs(elements, path, n)
    ensures PathIs(elements, r + [(Level(elements[n]), elements[n].text)], n + 1)
  {
    r := path;
    while r != [] && r[|r| - 1].0 >= Level(elements[n])
      invariant r <= path
      invariant forall k | |r| <= k < |path| :: path[k].0 >= Level(elements[n])
    {
      r := r[..|r| - 1];
    }
    HeadingPath(elements, path, n, |r|);
    assert r == path[..|r|];
  }

  lemma HeadingTiles(elements: seq<Element>, chunks: seq<Chunk>, path: seq<(nat, string)>, n: nat)
    requires n < |elements| && elements[n].kind.Heading? && Tiles(elements, chunks, n)
    requires PathIs(elements, path, n + 1)
    ensures RunIs(elements, chunks, path, n + 1, n + 1)
  {
  }

  lemma PlainExtends(elements: seq<Element>, chunks: seq<Chunk>, path: seq<(nat, string)>, runStart: Option<nat>,
                     n: nat)
    requires n < |elements| && elements[n].kind.Plain? && PathIs(elements, path, n)
    requires RunIs(elements, chunks, path, RunFrom(runStart, n), n)
    ensures RunIs(elements, chunks, path, RunFrom(runStart, n), n + 1)
  {
  }

  lemma SingleTiles(elements: seq<Element>, chunks: seq<Chunk>, path: seq<(nat, string)>, n: nat)
    requires n < |elements| && (elements[n].kind.Figure? || elements[n].kind.QuestionAnswer?)
    requires PathIs(elements, path, n) && Tiles(elements, chunks, n)
    ensures RunIs(elements, chunks + [SpanChunk(elements, Texts(path), n, n + 1)], path, n + 1, n + 1)
  {
    OtherPath(elements, path, n);
    var chunk := SpanChunk(elements, Texts(path), n, n + 1);
    PathTexts(elements, path, n);
    assert (chunks + [chunk])[..|chunks|] == chunks;
    assert Whole(elements, chunk);
  }

  lemma PathTexts(elements: seq<Element>, path: seq<(nat, string)>, n: nat)
    requires n <= |elements| && PathIs(elements, path, n)
    ensures Texts(path) == PathAt(elements, n)
  {
  }

  lemma OtherPath(elements: seq<Element>, path: seq<(nat, string)>, n: nat)
    requires n < |elements| && !elements[n].kind.Heading? && PathIs(elements, path, n)
    ensures PathIs(elements, path, n + 1)
  {
    OtherKeepsOpen(elements, n, n);
    assert !Open(elements, n, n + 1);
    assert OpenHeadings(elements, n + 1, n + 1) == OpenHeadings(elements, n + 1, n) + [];
  }

  lemma HeadingPath(elements: seq<Element>, before: seq<(nat, string)>, n: nat, keep: nat)
    requires n < |elements| && elements[n].kind.Heading? && PathIs(elements, before, n)
    requires keep <= |before| && forall k | keep <= k < |before| :: before[k].0 >= Level(elements[n])
    requires keep > 0 ==> before[keep - 1].0 < Level(elements[n])
    ensures PathIs(elements, before[..keep] + [(Level(elements[n]), elements[n].text)], n + 1)
  {
    LevelsIncrease(elements, n, n);
    HeadingCloses(elements, n, n, keep);
    assert Open(elements, n, n + 1);
  }

  // ------------------------------------------------------------- consequences

  function BodyChars(elements: seq<Element>, n: nat): nat
    requires n <= |elements|
  {
    if n == 0 then 0
    else BodyChars(elements, n - 1) + (if elements[n - 1].kind.Heading? then 0 else |elements[n - 1].text|)
  }

  function TotalChars(chunks: seq<Chunk>): nat {
    if chunks == [] then 0 else TotalChars(chunks[..|chunks| - 1]) + chunks[|chunks| - 1].chars
  }

  lemma {:induction false} SpanChars(elements: seq<Element>, start: nat, end: nat)
    requires start <= end <= |elements| && forall k | start <= k < end :: !elements[k].kind.Heading?
    ensures BodyChars(elements, end) == BodyChars(elements, start) + Chars(elements[start..end])
  {
    if start < end {
      SpanChars(elements, start, end - 1);
      assert elements[start..end][..end - start - 1] == elements[start..end - 1];
    }
  }

  lemma {:induction false} HeadingChars(elements: seq<Element>, start: nat, end: nat)
    requires start <= end <= |elements| && AllHeadings(elements, start, end)
    ensures BodyChars(elements, end) == BodyChars(elements, start)
  {
    if start < end {
      HeadingChars(elements, start, end - 1);
    }
  }

  /** No character of the content is lost or counted twice. */
  lemma {:induction false} CharsConserved(elements: seq<Element>, chunks: seq<Chunk>, n: nat)
    requires n <= |elements| && Tiles(elements, chunks, n)
    ensures TotalChars(chunks) == BodyChars(elements, n)
  {
    if chunks == [] {
      HeadingChars(elements, 0, n);
    } else {
      var last := chunks[|chunks| - 1];
      CharsConserved(elements, chunks[..|chunks| - 1], last.start);
      SpanChars(elements, last.start, last.end);
      HeadingChars(elements, last.end, n);
    }
  }

  predicate Holds(chunk: Chunk, k: nat) { chunk.start <= k < chunk.end }

  /** Every index below n that is not a heading lies in exactly one chunk, a heading in none. */
  lemma {:induction false} EachIndexOnce(elements: seq<Element>, chunks: seq<Chunk>, n: nat, k: nat)
    requires k < n <= |elements| && Tiles(elements, chunks, n)
    ensures elements[k].kind.Heading? <==> forall c | 0 <= c < |chunks| :: !Holds(chunks[c], k)
    ensures forall c, d | 0 <= c < |chunks| && 0 <= d < |chunks| && Holds(chunks[c], k) && Holds(chunks[d], k) :: c == d
  {
    if chunks != [] {
      var init, last := chunks[..|chunks| - 1], chunks[|chunks| - 1];
      assert forall c | 0 <= c < |init| :: chunks[c] == init[c];
      if k < last.start {
        EachIndexOnce(elements, init, last.start, k);
      } else {
        EndsBefore(elements, init, last.start);
        assert Holds(last, k) <==> k < last.end;
        assert forall c | 0 <= c < |init| :: !Holds(chunks[c], k);
      }
    }
  }

  lemma {:induction false} EndsBefore(elements: seq<Element>, chunks: seq<Chunk>, n: nat)
    requires n <= |elements| && Tiles(elements, chunks, n)
    ensures forall c | 0 <= c < |chunks| :: chunks[c].end <= n
  {
    if chunks != [] {
      var init, last := chunks[..|chunks| - 1], chunks[|chunks| - 1];
      EndsBefore(elements, init, last.start);
      assert forall c | 0 <= c < |init| :: chunks[c] == init[c];
    }
  }

  /** The meaning decides the result: there is only one tiling. */
  lemma {:induction false} OneTiling(elements: seq<Element>, chunks: seq<Chunk>, others: seq<Chunk>, n: nat)
    requires n <= |elements| && Tiles(elements, chunks, n) && Tiles(elements, others, n)
    ensures chunks == others
  {
    if chunks != [] && others != [] {
      var a, b := chunks[|chunks| - 1], others[|others| - 1];
      SameLast(elements, a, b, n);
      OneTiling(elements, chunks[..|chunks| - 1], others[..|others| - 1], a.start);
      assert chunks == chunks[..|chunks| - 1] + [a] && others == others[..|others| - 1] + [b];
    }
  }

  lemma SameLast(elements: seq<Element>, a: Chunk, b: Chunk, n: nat)
    requires n <= |elements| && a.end <= n && b.end <= n
    requires Whole(elements, a) && Whole(elements, b)
    requires AllHeadings(elements, a.end, n) && AllHeadings(elements, b.end, n)
    ensures a == b
  {
    assert !elements[a.end - 1].kind.Heading? && !elements[b.end - 1].kind.Heading?;
    assert a.end == b.end;
  }
}
