/**
  `Clip`: text that keeps the first half and the most recent half of what it is given.
  The streaming form is compared with cutting the whole text once.
 */
module Clipping {
  import opened Naturals
  import opened Utf8

  /** What a `Clip` holds. */
  datatype Clipped = Clipped(max: nat, head: Bytes, tail: Bytes, omitted: nat) {
    predicate Truncated() {
      omitted > 0
    }

    function Kept(): (n: nat) {
      |head| + |tail|
    }
  }

  function Empty(max: nat): (c: Clipped) {
    Clipped(max, [], [], 0)
  }

  /** Where a push stops filling the head. */
  ghost function HeadEnd(c: Clipped, text: Bytes): (end: nat)
    ensures end <= |text|
  {
    if |c.tail| > 0 then 0 else Floor(text, Min(Minus(c.max / 2, |c.head|), |text|))
  }

  /** The tail and the dropped count after `text`, all of it past the head, is added. */
  ghost function AddToTail(c: Clipped, text: Bytes): (r: (Bytes, nat))
    ensures r.1 + |r.0| == c.omitted + |c.tail| + |text|
    ensures c.omitted <= r.1 && |r.0| <= c.max / 2
  {
    var half := c.max / 2;
    if |text| >= half then
      var start := Ceil(text, |text| - half);
      (text[start..], c.omitted + |c.tail| + start)
    else
      var tail := c.tail + text;
      if |tail| > half then
        var start := Ceil(tail, |tail| - half);
        (tail[start..], c.omitted + start)
      else (tail, c.omitted)
  }

  /** The state `push` leaves. */
  ghost function Pushed(c: Clipped, chunk: Bytes): (r: Clipped)
    ensures r.max == c.max
  {
    var end := HeadEnd(c, chunk);
    var (tail, omitted) := AddToTail(c, chunk[end..]);
    Clipped(c.max, c.head + chunk[..end], tail, omitted)
  }

  ghost function PushAll(c: Clipped, chunks: seq<Text>): (r: Clipped)
    ensures r.max == c.max
  {
    if |chunks| == 0 then c else Pushed(PushAll(c, chunks[..|chunks| - 1]), chunks[|chunks| - 1])
  }

  /** `Clip` as the program keeps it: fields that `push` updates in place. */
  class Clip {
    const max: nat
    var head: Bytes
    var tail: Bytes
    var omitted: nat

    function View(): (c: Clipped)
      reads this
    {
      Clipped(max, head, tail, omitted)
    }

    constructor (max: nat)
      ensures View() == Empty(max)
    {
      this.max := max;
      head, tail, omitted := [], [], 0;
    }

    /** A clip moved out of the entry that owns it. */
    constructor Resume(c: Clipped)
      ensures View() == c
    {
      max, head, tail, omitted := c.max, c.head, c.tail, c.omitted;
    }

    /** `Clip::from` */
    constructor From(max: nat, text: Bytes)
      ensures View() == Pushed(Empty(max), text)
    {
      this.max := max;
      head, tail, omitted := [], [], 0;
      new;
      Push(text);
    }

    method Push(chunk: Bytes)
      modifies this`head, this`tail, this`omitted
      ensures View() == Pushed(old(View()), chunk)
    {
      var text := chunk;
      if |tail| == 0 {
        var end := FloorBoundary(text, Minus(max / 2, |head|));
        head := head + text[..end];
        text := text[end..];
      }
      ghost var end := HeadEnd(old(View()), chunk);
      assert head == old(head) + chunk[..end] && text == chunk[end..];
      FillTail(text);
    }

    /** The part of `push` that runs once the head is full. */
    method FillTail(text: Bytes)
      modifies this`tail, this`omitted
      ensures (tail, omitted) == AddToTail(old(View()), text)
    {
      var half := max / 2;
      if |text| >= half {
        var start := CeilBoundary(text, |text| - half);
        omitted := omitted + |tail| + start;
        tail := text[start..];
      } else {
        tail := tail + text;
        if |tail| > half {
          var start := CeilBoundary(tail, |tail| - half);
          omitted := omitted + start;
          tail := tail[start..];
        }
      }
    }
  }

  ghost predicate IsPrefix(p: Bytes, t: Bytes) {
    |p| <= |t| && p == t[..|p|]
  }

  ghost predicate IsSuffix(q: Bytes, t: Bytes) {
    |q| <= |t| && q == t[|t| - |q|..]
  }

  /** `k` is the largest boundary of `t` that is at most `hi`. */
  ghost predicate LastBoundary(t: Bytes, hi: int, k: int) {
    k <= hi && IsBoundary(t, k) && forall j :: k < j <= hi ==> !IsBoundary(t, j)
  }

  /** `k` is the smallest boundary of `t` that is at least `lo`. */
  ghost predicate FirstBoundary(t: Bytes, lo: int, k: int) {
    lo <= k && IsBoundary(t, k) && forall j :: lo <= j < k ==> !IsBoundary(t, j)
  }

  /** `p` is the longest prefix of `t` that ends on a character and fits in `n` bytes. */
  ghost predicate LongestPrefix(p: Bytes, t: Bytes, n: nat) {
    IsPrefix(p, t) && LastBoundary(t, n, |p|)
  }

  /** `q` is the longest suffix of `t` that starts on a character and fits in `n` bytes. */
  ghost predicate LongestSuffix(q: Bytes, t: Bytes, n: nat) {
    IsSuffix(q, t) && FirstBoundary(t, |t| - n, |t| - |q|)
  }

  /** `c` is `text` cut once: a longest head, a longest tail of the rest, and the exact gap. */
  ghost predicate CutOnce(c: Clipped, text: Bytes) {
    && LongestPrefix(c.head, text, c.max / 2)
    && LongestSuffix(c.tail, text[|c.head|..], c.max / 2)
    && |c.head| + c.omitted + |c.tail| == |text|
  }

  lemma CutOnceUnique(c: Clipped, d: Clipped, text: Bytes)
    requires CutOnce(c, text) && CutOnce(d, text) && c.max == d.max
    ensures c == d
  {
    assert |c.head| == |d.head|;
    assert |c.tail| == |d.tail|;
  }

  /** A clip is cut once when its head is, and its tail is cut from what follows. */
  lemma AssembleCut(c: Clipped, text: Bytes, rest: Bytes)
    requires LongestPrefix(c.head, text, c.max / 2) && text[|c.head|..] == rest
    requires LongestSuffix(c.tail, rest, c.max / 2)
    requires c.omitted + |c.tail| == |rest|
    ensures CutOnce(c, text)
  {
  }

  // ---- How a push moves the tail: contents first, then boundaries.

  lemma SuffixTransitive(p: Bytes, q: Bytes, t: Bytes)
    requires IsSuffix(p, q) && IsSuffix(q, t)
    ensures IsSuffix(p, t)
  {
  }

  /** What a push adds past the head extends what the tail was a suffix of. */
  lemma ExtendSuffix(tail: Bytes, more: Bytes, text: Bytes, chunk: Bytes)
    requires IsSuffix(tail, text) && IsSuffix(more, chunk) && (|tail| == 0 || more == chunk)
    ensures IsSuffix(tail + more, text + chunk)
  {
  }

  lemma AddToTailIsSuffix(c: Clipped, text: Bytes)
    ensures var r := AddToTail(c, text);
            IsSuffix(r.0, c.tail + text) && (r.1 == 0 ==> r.0 == c.tail + text)
  {
    if |text| >= c.max / 2 {
      assert IsSuffix(text, c.tail + text);
      SuffixTransitive(AddToTail(c, text).0, text, c.tail + text);
    }
  }

  /** A suffix that starts on a boundary has the boundaries of the whole. */
  lemma SuffixBoundary(tail: Bytes, whole: Bytes, j: int)
    requires IsSuffix(tail, whole) && IsBoundary(whole, |whole| - |tail|)
    requires 0 <= j <= |tail|
    ensures IsBoundary(tail, j) <==> IsBoundary(whole, |whole| - |tail| + j)
  {
  }

  lemma FirstBoundaryInSuffix(tail: Bytes, whole: Bytes, lo: nat, k: nat)
    requires IsSuffix(tail, whole) && IsBoundary(whole, |whole| - |tail|)
    requires FirstBoundary(tail, lo, k) && k <= |tail|
    ensures FirstBoundary(whole, |whole| - |tail| + lo, |whole| - |tail| + k)
  {
    hide IsSuffix;
    hide IsBoundary;
    var dropped := |whole| - |tail|;
    SuffixBoundary(tail, whole, k);
    forall j | dropped + lo <= j < dropped + k ensures !IsBoundary(whole, j) {
      SuffixBoundary(tail, whole, j - dropped);
    }
  }

  /** Appending no more than the room that is left moves no cut. */
  lemma FirstBoundaryKept(rest: Bytes, text: Bytes, lo: int, k: nat)
    requires Valid(text) && FirstBoundary(rest, lo, k) && k <= |rest| && lo + |text| <= k
    ensures FirstBoundary(rest + text, lo + |text|, k)
  {
    hide Valid;
    hide IsBoundary;
    AppendBoundary(rest, text, k);
    forall j | lo + |text| <= j < k ensures !IsBoundary(rest + text, j) {
      if 0 <= j { AppendBoundary(rest, text, j); } else { NoBoundaryBelow(rest + text, j); }
    }
  }

  lemma NoBoundaryBelow(t: Bytes, j: int)
    requires j < 0
    ensures !IsBoundary(t, j)
  {
  }

  /** The cut after a push is the first boundary that leaves at most half. */
  lemma CutMoves(c: Clipped, rest: Bytes, text: Bytes)
    requires Valid(text) && LongestSuffix(c.tail, rest, c.max / 2)
    ensures var whole := rest + text;
            FirstBoundary(whole, |whole| - c.max / 2, |whole| - |AddToTail(c, text).0|)
  {
    hide Valid;
    hide IsBoundary;
    var half := c.max / 2;
    var tail := c.tail + text;
    var dropped := |rest| - |c.tail|;
    if |text| >= half {
      AppendBoundary(rest, text, |rest|);
      EndsAreBoundaries(text);
      assert IsSuffix(text, rest + text);
      FirstBoundaryInSuffix(text, rest + text, |text| - half, Ceil(text, |text| - half));
    } else if |tail| > half {
      AppendBoundary(rest, text, dropped);
      ExtendSuffix(c.tail, text, rest, text);
      FirstBoundaryInSuffix(tail, rest + text, |tail| - half, Ceil(tail, |tail| - half));
    } else {
      FirstBoundaryKept(rest, text, |rest| - half, dropped);
    }
  }

  lemma EndsAreBoundaries(t: Bytes)
    ensures IsBoundary(t, 0) && IsBoundary(t, |t|)
  {
  }

  lemma TailStable(c: Clipped, rest: Bytes, text: Bytes)
    requires Valid(text) && LongestSuffix(c.tail, rest, c.max / 2)
    ensures LongestSuffix(AddToTail(c, text).0, rest + text, c.max / 2)
  {
    CutMoves(c, rest, text);
    hide Valid;
    hide FirstBoundary;
    hide AddToTail;
    AddToTailIsSuffix(c, text);
    ExtendSuffix(c.tail, text, rest, text);
    SuffixTransitive(AddToTail(c, text).0, c.tail + text, rest + text);
  }

  // ---- How a push moves the head.

  /** Pushing onto an empty clip cuts once, whatever the limit. */
  lemma FromCutsOnce(max: nat, text: Bytes)
    ensures CutOnce(Pushed(Empty(max), text), text)
  {
    var end := HeadEnd(Empty(max), text);
    assert [] + text[..end] == text[..end];
    assert LongestPrefix(text[..end], text, max / 2);
    TailFromEmpty(max, text[end..]);
    AssembleCut(Pushed(Empty(max), text), text, text[end..]);
  }

  lemma TailFromEmpty(max: nat, rest: Bytes)
    ensures LongestSuffix(AddToTail(Empty(max), rest).0, rest, max / 2)
  {
    hide IsBoundary;
    EndsAreBoundaries(rest);
    if |rest| < max / 2 {
      assert [] + rest == rest;
      forall j | |rest| - max / 2 <= j < 0 ensures !IsBoundary(rest, j) {
        NoBoundaryBelow(rest, j);
      }
    }
  }

  /** The half is empty, or no character is wider than it. */
  predicate WholeCharacters(max: nat) {
    max / 2 == 0 || max / 2 >= 4
  }

  /** When the half holds any character, an empty tail means that nothing followed the head. */
  lemma TailHoldsRest(c: Clipped, text: Bytes)
    requires Valid(text) && CutOnce(c, text) && c.max / 2 >= 4 && |c.tail| == 0
    ensures c.head == text
  {
    var rest := text[|c.head|..];
    if |rest| > 0 {
      CutValid(text, |c.head|);
      BoundaryNear(rest, |rest| - 1);
      assert false;
    }
  }

  /** A full head keeps its end; a head that is all of the text grows to the next cut. */
  lemma HeadMoves(c: Clipped, text: Bytes, chunk: Bytes)
    requires Valid(text) && Valid(chunk) && CutOnce(c, text) && WholeCharacters(c.max)
    ensures LastBoundary(text + chunk, c.max / 2, |c.head| + HeadEnd(c, chunk))
    ensures c.max / 2 == 0 || |c.tail| > 0 || c.head == text
  {
    var half := c.max / 2;
    var end := HeadEnd(c, chunk);
    if half > 0 && |c.tail| == 0 {
      TailHoldsRest(c, text);
    } else {
      assert end == 0;
      EndsAreBoundaries(text);
    }
    hide Valid;
    forall j | |c.head| + end <= j <= half ensures IsBoundary(text + chunk, j) <==> j == |c.head| + end {
      AppendBoundary(text, chunk, j);
    }
  }

  lemma HeadStable(c: Clipped, text: Bytes, chunk: Bytes)
    requires IsPrefix(c.head, text) && (c.max / 2 == 0 || |c.tail| > 0 || c.head == text)
    ensures IsPrefix(c.head + chunk[..HeadEnd(c, chunk)], text + chunk)
    ensures (text + chunk)[|c.head| + HeadEnd(c, chunk)..] == text[|c.head|..] + chunk[HeadEnd(c, chunk)..]
  {
    assert c.max / 2 == 0 ==> HeadEnd(c, chunk) == 0;
  }

  /** One push keeps a clip equal to the text so far cut once. */
  lemma PushCutsOnce(c: Clipped, text: Bytes, chunk: Bytes)
    requires Valid(text) && Valid(chunk) && CutOnce(c, text) && WholeCharacters(c.max)
    ensures CutOnce(Pushed(c, chunk), text + chunk)
  {
    hide Valid;
    hide AddToTail;
    hide FirstBoundary;
    hide LastBoundary;
    hide IsPrefix;
    hide IsSuffix;
    hide Continuation;
    HeadMoves(c, text, chunk);
    CutValid(chunk, HeadEnd(c, chunk));
    HeadStable(c, text, chunk);
    var rest, more := text[|c.head|..], chunk[HeadEnd(c, chunk)..];
    TailStable(c, rest, more);
    AssembleCut(Pushed(c, chunk), text + chunk, rest + more);
  }

  lemma {:induction false} PushAllCutsOnce(max: nat, chunks: seq<Text>)
    requires WholeCharacters(max)
    ensures CutOnce(PushAll(Empty(max), chunks), Flatten(chunks))
  {
    if |chunks| > 0 {
      var front := chunks[..|chunks| - 1];
      PushAllCutsOnce(max, front);
      PushCutsOnce(PushAll(Empty(max), front), Flatten(front), chunks[|chunks| - 1]);
    }
  }

  /** With a limit no character overruns, pushing chunks gives `Clip::from` of the whole text. */
  lemma StreamingIsOneShot(max: nat, chunks: seq<Text>)
    requires WholeCharacters(max)
    ensures PushAll(Empty(max), chunks) == Pushed(Empty(max), Flatten(chunks))
  {
    PushAllCutsOnce(max, chunks);
    FromCutsOnce(max, Flatten(chunks));
    CutOnceUnique(PushAll(Empty(max), chunks), Pushed(Empty(max), Flatten(chunks)), Flatten(chunks));
  }

  /** However a text is divided into chunks, pushing them gives `Clip::from` of the whole. */
  ghost predicate ChunkingIndependent(max: nat) {
    forall chunks: seq<Text> :: PushAll(Empty(max), chunks) == Pushed(Empty(max), Flatten(chunks))
  }

  /** A character wider than the half is dropped whole: head and tail stay empty. */
  lemma WideCharacterDropped(max: nat, wide: Bytes)
    requires 0 < max / 2 < |wide| == FirstWidth(wide)
    ensures Pushed(Empty(max), wide) == Clipped(max, [], [], |wide|)
  {
    CharacterShape(wide);
    assert Floor(wide, max / 2) == 0;
    assert Ceil(wide, |wide| - max / 2) == |wide|;
  }

  /** Then one more byte: pushed apart it lands in the head. */
  lemma NextByteFillsHead(max: nat, wide: nat, next: Bytes)
    requires 0 < max / 2 && |next| == 1
    ensures Pushed(Clipped(max, [], [], wide), next).head == next
  {
    EndsAreBoundaries(next);
    assert HeadEnd(Clipped(max, [], [], wide), next) == 1;
  }

  /** Pushed together with the character, it does not. */
  lemma WideCharacterLeavesNoHead(max: nat, wide: Bytes, next: Bytes)
    requires max / 2 < |wide| == FirstWidth(wide)
    ensures Pushed(Empty(max), wide + next).head == []
  {
    CharacterShape(wide);
    assert forall j :: 0 < j <= max / 2 ==> !IsBoundary(wide + next, j);
  }

  lemma WideCharacterBreaks(max: nat, wide: Text, next: Text)
    requires 0 < max / 2 < |wide| == FirstWidth(wide)
    requires |next| == 1
    ensures !ChunkingIndependent(max)
  {
    hide Valid;
    hide Pushed;
    var chunks: seq<Text> := [wide, next];
    var one: seq<Text> := [wide];
    assert chunks[..1] == one && one[..0] == [];
    WideCharacterDropped(max, wide);
    assert PushAll(Empty(max), one) == Pushed(PushAll(Empty(max), []), wide);
    NextByteFillsHead(max, |wide|, next);
    assert Flatten(one) == Flatten([]) + wide == wide;
    assert Flatten(chunks) == wide + next;
    WideCharacterLeavesNoHead(max, wide, next);
  }

  /** The streaming form equals the one-shot form for every chunking exactly when the half is
      empty or holds the widest character. */
  lemma ChunkingLaw(max: nat)
    ensures ChunkingIndependent(max) <==> WholeCharacters(max)
  {
    if WholeCharacters(max) {
      forall chunks: seq<Text> ensures PushAll(Empty(max), chunks) == Pushed(Empty(max), Flatten(chunks)) {
        StreamingIsOneShot(max, chunks);
      }
    } else {
      var wide: Bytes :=
        if max / 2 == 1 then [0xC3, 0xA9] else if max / 2 == 2 then [0xE2, 0x82, 0xAC] else [0xF0, 0x9F, 0x98, 0x80];
      assert FirstWidth(wide) == |wide| && wide[|wide|..] == [];
      assert Valid(wide);
      WideCharacterBreaks(max, wide, Ascii("a"));
    }
  }

  /** What holds after any pushes, with any limit: the lengths add up, both ends are text of their
      own and fit their halves, the tail is the end of the input, and with nothing omitted the
      input is whole. The head need not be the start of the input when a half has one to three
      bytes: a wide character is left out and a narrower one behind it taken in. */
  ghost predicate Conserves(c: Clipped, text: Bytes) {
    && Valid(c.head) && Valid(c.tail)
    && |c.head| + c.omitted + |c.tail| == |text|
    && |c.head| <= c.max / 2 && |c.tail| <= c.max / 2
    && IsSuffix(c.tail, text)
    && (c.omitted == 0 ==> c.head + c.tail == text)
  }

  lemma AddToTailIsText(c: Clipped, more: Bytes)
    requires Valid(c.tail) && Valid(more)
    ensures Valid(AddToTail(c, more).0)
  {
    hide Valid;
    hide IsBoundary;
    ConcatValid(c.tail, more);
    if |more| >= c.max / 2 {
      CutValid(more, Ceil(more, |more| - c.max / 2));
    } else if |c.tail + more| > c.max / 2 {
      CutValid(c.tail + more, Ceil(c.tail + more, |c.tail + more| - c.max / 2));
    }
  }

  lemma PushIsText(c: Clipped, chunk: Bytes)
    requires Valid(chunk) && Valid(c.head) && Valid(c.tail)
    ensures Valid(Pushed(c, chunk).head) && Valid(Pushed(c, chunk).tail)
  {
    var end := HeadEnd(c, chunk);
    CutValid(chunk, end);
    hide Valid;
    hide AddToTail;
    ConcatValid(c.head, chunk[..end]);
    AddToTailIsText(c, chunk[end..]);
  }

  lemma PushConserves(c: Clipped, text: Bytes, chunk: Bytes)
    requires Valid(chunk) && Conserves(c, text)
    ensures Conserves(Pushed(c, chunk), text + chunk)
  {
    hide Valid;
    hide AddToTail;
    var end := HeadEnd(c, chunk);
    var more := chunk[end..];
    PushIsText(c, chunk);
    AddToTailIsSuffix(c, more);
    ExtendSuffix(c.tail, more, text, chunk);
    SuffixTransitive(Pushed(c, chunk).tail, c.tail + more, text + chunk);
    if Pushed(c, chunk).omitted == 0 {
      IntactConcat(c, text, chunk, end);
    }
  }

  lemma IntactConcat(c: Clipped, text: Bytes, chunk: Bytes, end: nat)
    requires c.head + c.tail == text && end <= |chunk| && (|c.tail| == 0 || end == 0)
    ensures (c.head + chunk[..end]) + (c.tail + chunk[end..]) == text + chunk
  {
  }

  lemma {:induction false} PushAllConserves(max: nat, chunks: seq<Text>)
    ensures Conserves(PushAll(Empty(max), chunks), Flatten(chunks))
    ensures PushAll(Empty(max), chunks).Kept() <= max
    ensures WholeCharacters(max) ==> IsPrefix(PushAll(Empty(max), chunks).head, Flatten(chunks))
  {
    if WholeCharacters(max) {
      PushAllCutsOnce(max, chunks);
    }
    if |chunks| > 0 {
      var front := chunks[..|chunks| - 1];
      PushAllConserves(max, front);
      PushConserves(PushAll(Empty(max), front), Flatten(front), chunks[|chunks| - 1]);
    }
  }

  /** When something was dropped, each half is within three bytes of full. */
  lemma TightWhenTruncated(max: nat, chunks: seq<Text>)
    requires PushAll(Empty(max), chunks).Truncated()
    ensures var c := PushAll(Empty(max), chunks);
            max / 2 - 3 <= |c.head| && max / 2 - 3 <= |c.tail|
  {
    if max / 2 >= 4 {
      var c, text := PushAll(Empty(max), chunks), Flatten(chunks);
      var half := max / 2;
      PushAllCutsOnce(max, chunks);
      if |text| < half { assert IsBoundary(text, |text|); }
      BoundaryNear(text, Min(half, |text|));
      CutValid(text, |c.head|);
      var rest := text[|c.head|..];
      if |rest| < half { assert IsBoundary(rest, 0); }
      BoundaryNear(rest, Minus(|rest|, half));
    }
  }
}
