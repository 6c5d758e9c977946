/** Splitting a cached answer into replay deltas.  Text is a sequence of bytes, as Go strings are
    indexed; a delta never exceeds `size` bytes. */
module Chunking {

  type Byte = b: int | 0 <= b < 256

  const SPACE: Byte := 32

  // ---------- The cutting rule ----------

  /** The last space among the first `upTo` bytes, -1 when there is none. */
  function LastSpace(text: seq<Byte>, upTo: nat): (r: int)
    requires upTo <= |text|
    ensures -1 <= r < upTo
    ensures r >= 0 ==> text[r] == SPACE
    ensures forall i :: r < i < upTo ==> text[i] != SPACE
  {
    if upTo == 0 then -1 else if text[upTo - 1] == SPACE then upTo - 1 else LastSpace(text, upTo - 1)
  }

  /** Length of the first delta. */
  function Cut(text: seq<Byte>, size: nat): (r: nat)
    requires size >= 1
    ensures r <= |text| && r <= size
    ensures text != [] ==> r >= 1
  {
    if |text| <= size then |text|
    else if LastSpace(text, size) > 0 then LastSpace(text, size) else size
  }

  function DropSpace(text: seq<Byte>): seq<Byte> {
    if text != [] && text[0] == SPACE then text[1..] else text
  }

  function Chunks(text: seq<Byte>, size: nat): seq<seq<Byte>>
    requires size >= 1
    decreases |text|
  {
    if text == [] then []
    else [text[..Cut(text, size)]] + Chunks(DropSpace(text[Cut(text, size)..]), size)
  }

  method ChunkResponse(text: seq<Byte>, size: nat) returns (chunks: seq<seq<Byte>>)
    requires size >= 1
    ensures chunks == Chunks(text, size)
  {
    hide LastSpace;
    chunks := [];
    var rest := text;
    while |rest| > 0
      invariant chunks + Chunks(rest, size) == Chunks(text, size)
      decreases |rest|
    {
      var chunk := rest;
      if |chunk| > size {
        var cut := size;
        var spaceIdx := LastSpace(rest, cut);
        if spaceIdx > 0 {
          cut := spaceIdx;
        }
        chunk := rest[..cut];
      }
      assert chunk == rest[..Cut(rest, size)];
      assert chunks + Chunks(rest, size) == (chunks + [chunk]) + Chunks(DropSpace(rest[|chunk|..]), size);
      rest := DropSpace(rest[|chunk|..]);
      chunks := chunks + [chunk];
    }
  }

  // ---------- What is kept and what is lost ----------

  function Join(chunks: seq<seq<Byte>>): seq<Byte> {
    if chunks == [] then []
    else if |chunks| == 1 then chunks[0]
    else chunks[0] + [SPACE] + Join(chunks[1..])
  }

  /** `text` is the chunks in order, each followed by nothing or by one single space. */
  ghost predicate Interleaves(text: seq<Byte>, chunks: seq<seq<Byte>>)
    decreases |chunks|
  {
    if chunks == [] then text == []
    else chunks[0] <= text &&
         var rest := text[|chunks[0]|..];
         Interleaves(rest, chunks[1..]) || (rest != [] && rest[0] == SPACE && Interleaves(rest[1..], chunks[1..]))
  }

  /** For any text: every delta has between 1 and `size` bytes, and nothing but single spaces
      between deltas is lost. */
  lemma {:induction false} ChunksKeepText(text: seq<Byte>, size: nat)
    requires size >= 1
    ensures Interleaves(text, Chunks(text, size))
    ensures forall c :: c in Chunks(text, size) ==> 1 <= |c| <= size
    decreases |text|
  {
    if text != [] {
      var cut := Cut(text, size);
      var rest := text[cut..];
      ChunksKeepText(DropSpace(rest), size);
      var tail := Chunks(DropSpace(rest), size);
      assert Chunks(text, size)[1..] == tail && Chunks(text, size)[0] == text[..cut];
    }
  }

  /** Every delta is as long as it can be: a text that fits is one delta; otherwise the delta ends before
      the last space that keeps it within the size, and where there is none after the first byte it
      takes the full size. */
  ghost predicate Greedy(text: seq<Byte>, size: nat, chunks: seq<seq<Byte>>)
    decreases |chunks|
  {
    if text == [] then chunks == []
    else
      && chunks != [] && chunks[0] <= text
      && var n := |chunks[0]|; var rest := text[n..];
      && (if |text| <= size then n == |text|
          else if exists i :: 1 <= i < size && text[i] == 32 then 1 <= n < size && text[n] == 32 && forall i :: n < i < size ==> text[i] != 32
          else n == size)
      && Greedy(if rest != [] && rest[0] == 32 then rest[1..] else rest, size, chunks[1..])
  }

  lemma {:induction false} ChunksGreedy(text: seq<Byte>, size: nat)
    requires size >= 1
    ensures Greedy(text, size, Chunks(text, size))
    decreases |text|
  {
    if text != [] {
      var cut := Cut(text, size);
      var rest := DropSpace(text[cut..]);
      ChunksGreedy(rest, size);
      assert Chunks(text, size)[1..] == Chunks(rest, size) && Chunks(text, size)[0] == text[..cut];
    }
  }

  // ---------- When joining with a space gives the text back ----------

  /** Every cut falls right before a space that is not the last byte of the text. */
  ghost predicate CutsAtInnerSpaces(text: seq<Byte>, size: nat)
    requires size >= 1
    decreases |text|
  {
    |text| > size ==>
      var cut := Cut(text, size);
      cut + 1 < |text| && text[cut] == SPACE && CutsAtInnerSpaces(text[cut + 1..], size)
  }

  lemma NoChunks(text: seq<Byte>, size: nat)
    requires size >= 1
    ensures Chunks(text, size) == [] <==> text == []
    ensures 0 < |text| <= size ==> Chunks(text, size) == [text]
  {
    if 0 < |text| <= size {
      assert text[..|text|] == text && text[|text|..] == [];
    }
  }

  lemma ChunksStep(text: seq<Byte>, size: nat)
    requires size >= 1 && text != []
    ensures var cut := Cut(text, size);
            Chunks(text, size) == [text[..cut]] + Chunks(DropSpace(text[cut..]), size)
  {
  }

  lemma JoinCons(first: seq<Byte>, tail: seq<seq<Byte>>)
    ensures Join([first] + tail) == if tail == [] then first else first + [SPACE] + Join(tail)
  {
    assert ([first] + tail)[1..] == tail;
  }

  lemma SplitAtSpace(text: seq<Byte>, cut: nat, after: seq<Byte>)
    requires cut < |text|
    ensures text[..cut] + [SPACE] + after == text <==> text[cut] == SPACE && after == text[cut + 1..]
  {
    var joined := text[..cut] + [SPACE] + after;
    assert joined[cut] == SPACE && joined[cut + 1..] == after;
  }

  /** Joining the deltas with single spaces gives the text back. */
  ghost predicate Restored(text: seq<Byte>, size: nat)
    requires size >= 1
  {
    Join(Chunks(text, size)) == text
  }

  lemma JoinShort(text: seq<Byte>, size: nat)
    requires size >= 1 && |text| <= size
    ensures Restored(text, size)
  {
    NoChunks(text, size);
  }

  lemma JoinStep(text: seq<Byte>, size: nat)
    requires size >= 1 && |text| > size
    ensures var cut := Cut(text, size);
            Restored(text, size) <==> cut + 1 < |text| && text[cut] == SPACE && Restored(text[cut + 1..], size)
  {
    ChunksStep(text, size);
    hide Join, Cut, LastSpace, Chunks;
    var cut := Cut(text, size);
    var rest := DropSpace(text[cut..]);
    var tail := Chunks(rest, size);
    NoChunks(rest, size);
    JoinCons(text[..cut], tail);
    SplitAtSpace(text, cut, Join(tail));
    assert |text[..cut]| < |text|;
  }

  /** Joining the deltas with single spaces restores the text exactly when every cut falls at an
      inner space. */
  lemma {:induction false} JoinRestores(text: seq<Byte>, size: nat)
    requires size >= 1
    ensures Restored(text, size) <==> CutsAtInnerSpaces(text, size)
    decreases |text|
  {
    hide Restored, Cut, Chunks, Join, LastSpace;
    if |text| <= size {
      JoinShort(text, size);
    } else {
      JoinStep(text, size);
      var cut := Cut(text, size);
      if cut + 1 < |text| {
        JoinRestores(text[cut + 1..], size);
      }
    }
  }

  ghost predicate SpaceWithin(text: seq<Byte>, from: nat, width: nat)
    requires from + width <= |text|
  {
    exists j :: from <= j < from + width && text[j] == SPACE
  }

  ghost predicate EveryWindowHasSpace(text: seq<Byte>, width: nat) {
    forall i: nat :: i + width <= |text| ==> SpaceWithin(text, i, width)
  }

  /** In particular it does when every window of size - 1 bytes holds a space. */
  lemma {:induction false} WindowsSuffice(text: seq<Byte>, size: nat)
    requires size >= 1
    requires |text| <= size || EveryWindowHasSpace(text, size - 1)
    ensures Restored(text, size)
    decreases |text|
  {
    JoinRestores(text, size);
    WindowsGiveCuts(text, size);
  }

  lemma WindowsShift(text: seq<Byte>, from: nat, width: nat)
    requires from <= |text| && EveryWindowHasSpace(text, width)
    ensures EveryWindowHasSpace(text[from..], width)
  {
    var rest := text[from..];
    forall i: nat | i + width <= |rest|
      ensures SpaceWithin(rest, i, width)
    {
      assert SpaceWithin(text, i + from, width);
      var k :| i + from <= k < i + from + width && text[k] == SPACE;
      assert rest[k - from] == SPACE;
    }
  }

  lemma {:induction false} WindowsGiveCuts(text: seq<Byte>, size: nat)
    requires size >= 1
    requires |text| <= size || EveryWindowHasSpace(text, size - 1)
    ensures CutsAtInnerSpaces(text, size)
    decreases |text|
  {
    if |text| > size {
      assert SpaceWithin(text, 1, size - 1);
      var j :| 1 <= j < 1 + (size - 1) && text[j] == SPACE;
      var cut := Cut(text, size);
      var rest := text[cut + 1..];
      WindowsShift(text, cut + 1, size - 1);
      WindowsGiveCuts(rest, size);
    }
  }

  // ---------- Runes ----------

  /** A byte that continues a multi-byte UTF-8 rune. */
  predicate Continuation(b: Byte) {
    0x80 <= b < 0xC0
  }

  /** No delta starts in the middle of a rune. */
  ghost predicate RunesIntact(chunks: seq<seq<Byte>>) {
    forall c :: c in chunks && c != [] ==> !Continuation(c[0])
  }

  /** No cut that finds no space falls before a continuation byte. */
  ghost predicate HardCutsBetweenRunes(text: seq<Byte>, size: nat)
    requires size >= 1
    decreases |text|
  {
    |text| > size ==>
      var cut := Cut(text, size);
      (LastSpace(text, size) <= 0 ==> !Continuation(text[cut])) && HardCutsBetweenRunes(DropSpace(text[cut..]), size)
  }

  /** What valid UTF-8 guarantees here: no continuation byte starts the text or follows a space. */
  ghost predicate RunesFollowSpaces(text: seq<Byte>) {
    && (text != [] ==> !Continuation(text[0]))
    && forall i :: 0 < i < |text| && text[i - 1] == SPACE ==> !Continuation(text[i])
  }

  /** Runes stay intact exactly when every cut that finds no space happens to fall between runes. */
  lemma {:induction false} RunesIntactExactly(text: seq<Byte>, size: nat)
    requires size >= 1 && RunesFollowSpaces(text)
    ensures RunesIntact(Chunks(text, size)) <==> HardCutsBetweenRunes(text, size)
    decreases |text|
  {
    NoChunks(text, size);
    if |text| > size {
      var cut := Cut(text, size);
      var rest := DropSpace(text[cut..]);
      var tail := Chunks(rest, size);
      NoChunks(rest, size);
      assert Chunks(text, size) == [text[..cut]] + tail;
      assert tail != [] ==> tail[0] == rest[..Cut(rest, size)];
      if rest == [] || !Continuation(rest[0]) {
        RunesIntactExactly(rest, size);
        assert forall c :: c in Chunks(text, size) <==> c == text[..cut] || c in tail;
      } else {
        assert tail[0] in Chunks(text, size);
      }
    }
  }

  lemma {:induction false} InnerSpacesKeepRunes(text: seq<Byte>, size: nat)
    requires size >= 1 && CutsAtInnerSpaces(text, size)
    ensures HardCutsBetweenRunes(text, size)
    decreases |text|
  {
    if |text| > size {
      hide LastSpace, Cut;
      assert DropSpace(text[Cut(text, size)..]) == text[Cut(text, size) + 1..];
      InnerSpacesKeepRunes(text[Cut(text, size) + 1..], size);
    }
  }

  /** Text whose words are short enough, with a space in every window of size - 1 bytes, never has a
      rune split. */
  lemma ShortWordsKeepRunes(text: seq<Byte>, size: nat)
    requires size >= 1 && RunesFollowSpaces(text)
    requires |text| <= size || EveryWindowHasSpace(text, size - 1)
    ensures RunesIntact(Chunks(text, size))
  {
    hide RunesIntact, Chunks, CutsAtInnerSpaces, HardCutsBetweenRunes, RunesFollowSpaces, EveryWindowHasSpace;
    WindowsGiveCuts(text, size);
    InnerSpacesKeepRunes(text, size);
    RunesIntactExactly(text, size);
  }

  /** Twenty-seven three-byte runes without a space: the second delta of 80-byte chunking starts
      in the middle of the last rune. */
  lemma LongWordSplitsRune()
    ensures var text := seq(81, i requires 0 <= i => if i % 3 == 0 then 0xE2 else if i % 3 == 1 then 0x82 else 0xAC);
            RunesFollowSpaces(text) && !RunesIntact(Chunks(text, 80))
  {
    var text: seq<Byte> := seq(81, i requires 0 <= i => if i % 3 == 0 then 0xE2 else if i % 3 == 1 then 0x82 else 0xAC);
    assert LastSpace(text, 80) <= 0;
    assert Continuation(text[80]);
    RunesIntactExactly(text, 80);
  }
}
