/** Cutting a stream of text at a delimiter, whatever chunks it arrives in. */
module Framing {
  import opened Text

  predicate StartsAt(s: Str, d: Str, i: nat) {
    i + |d| <= |s| && s[i..i + |d|] == d
  }

  /** `s.indexOf(d)` */
  function IndexOf(s: Str, d: Str): (i: int)
    requires d != []
    ensures -1 <= i && i + |d| <= |s| + (if i == -1 then |d| else 0)
    ensures i >= 0 ==> StartsAt(s, d, i)
    ensures forall j: nat :: StartsAt(s, d, j) ==> 0 <= i <= j
  {
    FirstFrom(s, d, 0)
  }

  function FirstFrom(s: Str, d: Str, from: nat): (i: int)
    requires d != []
    ensures -1 <= i && i + |d| <= |s| + (if i == -1 then |d| else 0)
    ensures i >= 0 ==> from <= i && StartsAt(s, d, i)
    ensures forall j: nat :: from <= j && StartsAt(s, d, j) ==> 0 <= i <= j
    decreases |s| - from
  {
    if from + |d| > |s| then -1
    else if StartsAt(s, d, from) then from
    else FirstFrom(s, d, from + 1)
  }

  datatype Pieces = Pieces(blocks: seq<Str>, tail: Str)

  /** The complete blocks, and what no delimiter has ended yet. */
  function Split(s: Str, d: Str): (p: Pieces)
    requires d != []
    decreases |s|
  {
    var i := IndexOf(s, d);
    if i == -1 then Pieces([], s)
    else
      Push(s[..i], Split(s[i + |d|..], d))
  }

  function Push(first: Str, more: Pieces): Pieces {
    Pieces([first] + more.blocks, more.tail)
  }

  /** The blocks of one piece of text, then those of its tail with more text after it. */
  function Then(before: Pieces, now: Pieces): Pieces {
    Pieces(before.blocks + now.blocks, now.tail)
  }

  /** Blocks each ended by the delimiter. */
  function Join(blocks: seq<Str>, d: Str): Str {
    if blocks == [] then [] else blocks[0] + d + Join(blocks[1..], d)
  }

  /** The delimiter first shows up where the block ends. */
  predicate IsBlock(block: Str, d: Str)
    requires d != []
  {
    IndexOf(block + d, d) == |block|
  }

  // ---- what a split is ----

  lemma FirstStays(a: Str, b: Str, d: Str)
    requires d != [] && IndexOf(a, d) >= 0
    ensures IndexOf(a + b, d) == IndexOf(a, d)
  {
    var i := IndexOf(a, d);
    var n := IndexOf(a + b, d);
    assert (a + b)[i..i + |d|] == a[i..i + |d|];
    assert StartsAt(a + b, d, i);
    assert (a + b)[n..n + |d|] == a[n..n + |d|];
    assert StartsAt(a, d, n);
  }

  lemma CutAt(s: Str, d: Str, i: nat)
    requires StartsAt(s, d, i)
    ensures s == s[..i] + d + s[i + |d|..]
  {
  }

  lemma JoinFirst(first: Str, blocks: seq<Str>, tail: Str, d: Str)
    ensures Join([first] + blocks, d) + tail == first + d + (Join(blocks, d) + tail)
  {
    assert ([first] + blocks)[1..] == blocks;
  }

  lemma {:induction false} SplitJoins(s: Str, d: Str)
    requires d != []
    ensures Join(Split(s, d).blocks, d) + Split(s, d).tail == s
    ensures IndexOf(Split(s, d).tail, d) == -1
    decreases |s|
  {
    var i := IndexOf(s, d);
    if i >= 0 {
      var rest := s[i + |d|..];
      SplitJoins(rest, d);
      CutAt(s, d, i);
      JoinFirst(s[..i], Split(rest, d).blocks, Split(rest, d).tail, d);
    }
  }

  lemma {:induction false} SplitsIntoBlocks(s: Str, d: Str)
    requires d != []
    ensures forall k :: 0 <= k < |Split(s, d).blocks| ==> IsBlock(Split(s, d).blocks[k], d)
    decreases |s|
  {
    var i := IndexOf(s, d);
    if i >= 0 {
      SplitsIntoBlocks(s[i + |d|..], d);
      FirstIsBlock(s, d);
    }
  }

  lemma FirstIsBlock(s: Str, d: Str)
    requires d != [] && IndexOf(s, d) >= 0
    ensures IsBlock(s[..IndexOf(s, d)], d)
  {
    var i := IndexOf(s, d);
    var t := s[..i] + d;
    assert s[..i + |d|] == t;
    assert StartsAt(t, d, i);
    var n := IndexOf(t, d);
    assert t[n..n + |d|] == s[n..n + |d|];
    assert StartsAt(s, d, n);
  }

  /** There is one way only to read a text as blocks and a tail. */
  lemma {:induction false} SplitIsUnique(blocks: seq<Str>, tail: Str, d: Str)
    requires d != [] && IndexOf(tail, d) == -1
    requires forall k :: 0 <= k < |blocks| ==> IsBlock(blocks[k], d)
    ensures Split(Join(blocks, d) + tail, d) == Pieces(blocks, tail)
    decreases |blocks|
  {
    if blocks == [] {
      assert Join(blocks, d) + tail == tail;
    } else {
      var rest := Join(blocks[1..], d) + tail;
      var s := Join(blocks, d) + tail;
      assert s == blocks[0] + d + rest;
      FirstStays(blocks[0] + d, rest, d);
      assert s[|blocks[0]| + |d|..] == rest && s[..|blocks[0]|] == blocks[0];
      SplitIsUnique(blocks[1..], tail, d);
    }
  }

  lemma SplitFirst(s: Str, d: Str, first: Str, rest: Str)
    requires d != [] && s == first + d + rest && IndexOf(s, d) == |first|
    ensures Split(s, d) == Push(first, Split(rest, d))
  {
    assert s[..|first|] == first;
    assert s[|first| + |d|..] == rest;
  }

  lemma Regroup(first: Str, d: Str, rest: Str, b: Str)
    ensures first + d + rest + b == first + d + (rest + b)
  {
  }

  lemma PushThen(first: Str, before: Pieces, now: Pieces)
    ensures Then(Push(first, before), now) == Push(first, Then(before, now))
  {
    assert [first] + before.blocks + now.blocks == [first] + (before.blocks + now.blocks);
  }

  lemma NothingThen(tail: Str, now: Pieces)
    ensures Then(Pieces([], tail), now) == now
  {
    assert [] + now.blocks == now.blocks;
  }

  /** Splitting what has come, keeping the tail and going on gives what splitting it all at once gives. */
  lemma {:induction false} SplitGoesOn(a: Str, b: Str, d: Str)
    requires d != []
    ensures Split(a + b, d) == Then(Split(a, d), Split(Split(a, d).tail + b, d))
    decreases |a|, 0
  {
    var i := IndexOf(a, d);
    if i == -1 {
      NothingThen(a, Split(a + b, d));
    } else {
      var first, rest := a[..i], a[i + |d|..];
      CutAt(a, d, i);
      FirstStays(a, b, d);
      Regroup(first, d, rest, b);
      GoesOnAfter(first, rest, b, d, a);
    }
  }

  lemma {:induction false} GoesOnAfter(first: Str, rest: Str, b: Str, d: Str, a: Str)
    requires d != [] && a == first + d + rest && IndexOf(a, d) == |first|
    requires a + b == first + d + (rest + b) && IndexOf(a + b, d) == |first|
    ensures Split(a + b, d) == Then(Split(a, d), Split(Split(a, d).tail + b, d))
    decreases |rest|, 1
  {
    SplitFirst(a, d, first, rest);
    SplitFirst(a + b, d, first, rest + b);
    SplitGoesOn(rest, b, d);
    PushThen(first, Split(rest, d), Split(Split(rest, d).tail + b, d));
  }

  // ---- chunks ----

  function Received(chunks: seq<Str>): Str {
    if chunks == [] then [] else Received(chunks[..|chunks| - 1]) + chunks[|chunks| - 1]
  }

  /** What a reader that keeps a carry has after each chunk: all the blocks so far, and the carry. */
  function Fed(chunks: seq<Str>, d: Str): Pieces
    requires d != []
  {
    if chunks == [] then Pieces([], [])
    else
      var before := Fed(chunks[..|chunks| - 1], d);
      Then(before, Split(before.tail + chunks[|chunks| - 1], d))
  }

  /** The chunks make no difference: only the text received does. */
  lemma {:induction false} ChunksDoNotMatter(chunks: seq<Str>, d: Str)
    requires d != []
    ensures Fed(chunks, d) == Split(Received(chunks), d)
  {
    if chunks == [] {
      assert IndexOf([], d) == -1;
    } else {
      ChunksDoNotMatter(chunks[..|chunks| - 1], d);
      SplitGoesOn(Received(chunks[..|chunks| - 1]), chunks[|chunks| - 1], d);
    }
  }
}
