/**
 The per-epoch anti-replay window of the XSP/1 receiver: the highest accepted
 sequence and sixteen 64-bit words, kept as a sliding bitmap.

 `Window` is the reference definition, a set of sequences; the class is the
 bitmap, proved to behave as the set; the run lemmas say what any history of
 commits accepts.
 */
module ReplayWindow {
  import opened Prelude
  import opened Bits

  const REPLAY_WINDOW_BITS: nat := 1024
  const REPLAY_WINDOW_WORDS: nat := 16
  const MAX_SEQUENCE_ADVANCE: nat := 1_048_576

  /** The reference: the highest accepted sequence and the accepted sequences still in reach. */
  datatype Window = Window(highest: Option<nat>, marked: set<nat>)

  predicate Accepts(w: Window, sequence: nat) {
    match w.highest
    case None => sequence <= MAX_SEQUENCE_ADVANCE
    case Some(h) =>
      if sequence > h then sequence - h <= MAX_SEQUENCE_ADVANCE
      else h - sequence < REPLAY_WINDOW_BITS && sequence !in w.marked
  }

  function Mark(w: Window, sequence: nat): Window {
    var top := if w.highest.None? || sequence > w.highest.value then sequence else w.highest.value;
    Window(Some(top), set s | s in w.marked + {sequence} && top - s < REPLAY_WINDOW_BITS)
  }

  /** The bit at `offset` below the highest sequence. */
  predicate Offset(words: seq<nat>, offset: nat)
    requires offset < 64 * |words|
  {
    Bit(words[offset / 64], offset % 64)
  }

  predicate Words(words: seq<nat>) {
    |words| == REPLAY_WINDOW_WORDS && forall k :: 0 <= k < |words| ==> words[k] < Pow2(64)
  }

  /** Sequence `s` is in reach of highest sequence `h` and its bit is set. */
  predicate Marked(words: seq<nat>, h: nat, s: nat)
    requires Words(words)
  {
    s <= h && h - s < REPLAY_WINDOW_BITS && Offset(words, h - s)
  }

  /** The set that a bitmap stands for. */
  function Abstract(highest: Option<nat>, words: seq<nat>): Window
    requires Words(words)
  {
    match highest
    case None => Window(None, {})
    case Some(h) =>
      Window(highest, set s | 0 <= s <= h && Marked(words, h, s))
  }

  class Bitmap {
    var highest: Option<nat>
    const words: array<nat>

    ghost predicate Valid()
      reads this, words
    {
      && Words(words[..])
      && (highest.None? ==> forall k :: 0 <= k < words.Length ==> words[k] == 0)
    }

    ghost function Contents(): Window
      requires Valid()
      reads this, words
    {
      Abstract(highest, words[..])
    }

    constructor ()
      ensures Valid() && fresh(words) && Contents() == Window(None, {})
    {
      highest := None;
      words := new nat[16](_ => 0);
    }

    /** Tests a sequence without changing the window. */
    method Precheck(sequence: nat) returns (ok: bool)
      requires Valid()
      ensures ok == Accepts(Contents(), sequence)
    {
      if highest.None? {
        return sequence <= MAX_SEQUENCE_ADVANCE;
      }
      var h := highest.value;
      if sequence > h {
        return sequence - h <= MAX_SEQUENCE_ADVANCE;
      }
      var offset := h - sequence;
      if offset >= 1024 {
        return false;
      }
      assert Marked(words[..], h, sequence) == Bit(words[offset / 64], offset % 64);
      return !Bit(words[offset / 64], offset % 64);
    }

    /** Accepts a sequence that passes the check and marks it; otherwise changes nothing. */
    method Commit(sequence: nat) returns (ok: bool)
      requires Valid()
      modifies this, words
      ensures Valid()
      ensures ok == Accepts(old(Contents()), sequence)
      ensures Contents() == if ok then Mark(old(Contents()), sequence) else old(Contents())
    {
      ok := Precheck(sequence);
      if !ok { return; }
      ghost var before := words[..];
      match highest
      case None =>
        highest := Some(sequence);
        words[0] := 1;
        FirstMark(words[..], sequence);
      case Some(h) =>
        if sequence > h {
          Shift(sequence - h);
          ghost var shifted := words[..];
          highest := Some(sequence);
          words[0] := Or(words[0], 1);
          LowerMark(shifted, words[..], 0);
          AdvancedMark(before, shifted, words[..], h, sequence);
        } else {
          var offset := h - sequence;
          assert Pow2(offset % 64) < Pow2(64) by { Pow2Grows(offset % 64, 64); }
          words[offset / 64] := Or(words[offset / 64], Pow2(offset % 64));
          LowerMark(before, words[..], offset);
          MarkedBelow(before, words[..], h, sequence);
        }
    }

    /** Spreads one word over the two words it lands in. */
    method Store(word: nat, target: nat, bitShift: nat)
      requires words.Length == 16 && target < 16 && bitShift < 64
      modifies words
      ensures Stored(old(words[..]), words[..], word, target, bitShift)
    {
      words[target] := Or(words[target], ShiftLeft(word, bitShift));
      if bitShift != 0 && target + 1 < 16 {
        words[target + 1] := Or(words[target + 1], ShiftRight(word, 64 - bitShift));
      }
    }

    /** Moves every mark `distance` positions away from the highest sequence. */
    method Shift(distance: nat)
      requires Words(words[..])
      modifies words
      ensures Words(words[..]) && Moved(old(words[..]), words[..], distance)
    {
      var copy := words[..];
      forall k | 0 <= k < words.Length { words[k] := 0; }
      ZeroWords(words[..]);
      if distance >= REPLAY_WINDOW_BITS {
        return;
      }
      var wordShift, bitShift := distance / 64, distance % 64;
      assert 64 * wordShift + bitShift == distance;
      var source := 0;
      while source < 16
        invariant 0 <= source <= 16
        invariant Words(words[..])
        invariant Shifted(copy, words[..], distance, source)
      {
        var target := source + wordShift;
        if target >= 16 {
          ShiftedIsMoved(copy, words[..], distance, source);
          return;
        }
        ghost var start := words[..];
        Store(copy[source], target, bitShift);
        WordStep(copy, start, words[..], source, wordShift, bitShift, distance);
        source := source + 1;
      }
      ShiftedIsMoved(copy, words[..], distance, source);
    }
  }

  /** Every mark stands `distance` further away. */
  ghost predicate Moved(before: seq<nat>, after: seq<nat>, distance: nat)
    requires Words(before) && Words(after)
  {
    forall o :: 0 <= o < REPLAY_WINDOW_BITS ==> Offset(after, o) == (o >= distance && Offset(before, o - distance))
  }

  /** One mark more. */
  ghost predicate Adds(before: seq<nat>, after: seq<nat>, offset: nat)
    requires Words(before) && Words(after)
  {
    forall o :: 0 <= o < REPLAY_WINDOW_BITS ==> Offset(after, o) == (o == offset || Offset(before, o))
  }

  lemma {:induction false} ShiftedIsMoved(before: seq<nat>, after: seq<nat>, distance: nat, sources: nat)
    requires Words(before) && Words(after) && Shifted(before, after, distance, sources) && sources + distance / 64 >= 16
    ensures Moved(before, after, distance)
  {
    forall o | 0 <= o < REPLAY_WINDOW_BITS ensures Offset(after, o) == (o >= distance && Offset(before, o - distance)) {
      if o >= distance { assert (o - distance) / 64 < sources; }
    }
  }

  /** The bits of the first `sources` words of `before` stand `distance` further on in `after`; no others do. */
  ghost predicate Shifted(before: seq<nat>, after: seq<nat>, distance: nat, sources: nat)
    requires Words(before) && Words(after)
  {
    forall o :: 0 <= o < REPLAY_WINDOW_BITS ==> (
      Offset(after, o) == (o >= distance && (o - distance) / 64 < sources && Offset(before, o - distance)))
  }

  lemma {:induction false} ZeroWords(words: seq<nat>)
    requires |words| == 16 && forall k :: 0 <= k < 16 ==> words[k] == 0
    ensures Words(words)
    ensures forall o :: 0 <= o < REPLAY_WINDOW_BITS ==> !Offset(words, o)
  {
    forall o | 0 <= o < REPLAY_WINDOW_BITS ensures !Offset(words, o) { ZeroHasNoBits(o % 64); }
  }

  lemma {:induction false} Pow2Grows(a: nat, b: nat)
    requires a < b
    ensures Pow2(a) < Pow2(b)
  {
    if a + 1 < b { Pow2Grows(a, b - 1); }
  }

  lemma {:induction false} ShiftRightBound(w: nat, k: nat)
    ensures ShiftRight(w, k) <= w
    decreases k
  {
    if k > 0 { ShiftRightBound(w / 2, k - 1); }
  }

  /** What storing one source word does to the two words it lands in. */
  ghost predicate Stored(start: seq<nat>, after: seq<nat>, word: nat, target: nat, bitShift: nat)
    requires |start| == |after| == 16 && bitShift < 64
  {
    forall k :: 0 <= k < 16 ==> (
      after[k] ==
        if k == target then Or(start[k], ShiftLeft(word, bitShift))
        else if k == target + 1 && bitShift != 0 then Or(start[k], ShiftRight(word, 64 - bitShift))
        else start[k])
  }

  lemma {:induction false} StoredWords(start: seq<nat>, after: seq<nat>, word: nat, target: nat, bitShift: nat)
    requires Words(start) && |after| == 16 && bitShift < 64 && word < Pow2(64)
    requires Stored(start, after, word, target, bitShift)
    ensures Words(after)
  {
    ShiftLeftBit(word, bitShift, 0);
    ShiftRightBound(word, 64 - bitShift);
    forall k | 0 <= k < 16 ensures after[k] < Pow2(64) {
      OrBound(start[k], ShiftLeft(word, bitShift), 64);
      OrBound(start[k], ShiftRight(word, 64 - bitShift), 64);
    }
  }

  /** One source word lands in one or two target words, each bit `distance` further on. */
  lemma {:induction false} WordStep(before: seq<nat>, start: seq<nat>, after: seq<nat>, source: nat, wordShift: nat, bitShift: nat, distance: nat)
    requires Words(before) && Words(start) && |after| == 16
    requires bitShift < 64 && source + wordShift < 16 && distance == 64 * wordShift + bitShift
    requires Shifted(before, start, distance, source)
    requires Stored(start, after, before[source], source + wordShift, bitShift)
    ensures Words(after) && Shifted(before, after, distance, source + 1)
  {
    StoredWords(start, after, before[source], source + wordShift, bitShift);
    forall o | 0 <= o < REPLAY_WINDOW_BITS
      ensures Offset(after, o) == (o >= distance && (o - distance) / 64 < source + 1 && Offset(before, o - distance))
    {
      BitStep(before, start, after, source, wordShift, bitShift, o);
    }
  }

  lemma {:induction false} BitStep(before: seq<nat>, start: seq<nat>, after: seq<nat>,
                source: nat, wordShift: nat, bitShift: nat, o: nat)
    requires Words(before) && Words(start) && Words(after)
    requires bitShift < 64 && source + wordShift < 16 && o < REPLAY_WINDOW_BITS
    requires var distance := 64 * wordShift + bitShift;
      Offset(start, o) == (o >= distance && (o - distance) / 64 < source && Offset(before, o - distance))
    requires Stored(start, after, before[source], source + wordShift, bitShift)
    ensures var distance := 64 * wordShift + bitShift;
      Offset(after, o) == (o >= distance && (o - distance) / 64 < source + 1 && Offset(before, o - distance))
  {
    var k, j := o / 64, o % 64;
    Locate(o, wordShift, bitShift);
    if k == source + wordShift {
      OrBit(start[k], ShiftLeft(before[source], bitShift), j);
      ShiftLeftBit(before[source], bitShift, j);
    } else if k == source + wordShift + 1 && bitShift != 0 {
      OrBit(start[k], ShiftRight(before[source], 64 - bitShift), j);
      ShiftRightBit(before[source], 64 - bitShift, j);
      if j >= bitShift { HighBitsClear(before[source], 64, j + 64 - bitShift); }
    }
  }

  /** Where the bit that lands at offset `o` comes from. */
  lemma {:induction false} Locate(o: nat, wordShift: nat, bitShift: nat)
    requires bitShift < 64
    ensures var d, k, j := 64 * wordShift + bitShift, o / 64, o % 64;
      && (o >= d <==> k > wordShift || (k == wordShift && j >= bitShift))
      && (o >= d && j >= bitShift ==> (o - d) / 64 == k - wordShift && (o - d) % 64 == j - bitShift)
      && (o >= d && j < bitShift ==> (o - d) / 64 == k - wordShift - 1 && (o - d) % 64 == j - bitShift + 64)
  {
  }

  lemma {:induction false} Pow2Bit(k: nat, j: nat)
    ensures Bit(Pow2(k), j) == (j == k)
    decreases j
  {
    if k == 0 {
      if j > 0 { ZeroHasNoBits(j - 1); }
    } else if j > 0 {
      Pow2Bit(k - 1, j - 1);
    }
  }

  /** Setting one bit adds exactly that offset. */
  lemma {:induction false} LowerMark(before: seq<nat>, after: seq<nat>, offset: nat)
    requires Words(before) && |after| == 16 && offset < REPLAY_WINDOW_BITS
    requires after == before[offset / 64 := Or(before[offset / 64], Pow2(offset % 64))]
    ensures Words(after) && Adds(before, after, offset)
  {
    Pow2Grows(offset % 64, 64);
    OrBound(before[offset / 64], Pow2(offset % 64), 64);
    forall o | 0 <= o < REPLAY_WINDOW_BITS ensures Offset(after, o) == (o == offset || Offset(before, o)) {
      OrBit(before[offset / 64], Pow2(offset % 64), o % 64);
      Pow2Bit(offset % 64, o % 64);
    }
  }

  lemma {:induction false} FirstMark(words: seq<nat>, sequence: nat)
    requires |words| == 16 && words[0] == 1 && forall k :: 0 < k < 16 ==> words[k] == 0
    ensures Words(words)
    ensures Abstract(Some(sequence), words) == Mark(Window(None, {}), sequence)
  {
    Pow2Grows(0, 64);
    forall o | 0 <= o < REPLAY_WINDOW_BITS ensures Offset(words, o) == (o == 0) {
      ZeroHasNoBits(o % 64);
      Pow2Bit(0, o % 64);
    }
  }

  /** A mark at or below the highest sequence. */
  lemma {:induction false} MarkedBelow(before: seq<nat>, after: seq<nat>, h: nat, sequence: nat)
    requires Words(before) && Words(after) && sequence <= h && h - sequence < REPLAY_WINDOW_BITS
    requires Adds(before, after, h - sequence)
    ensures Abstract(Some(h), after) == Mark(Abstract(Some(h), before), sequence)
  {
    var a, b := Abstract(Some(h), after).marked, Mark(Abstract(Some(h), before), sequence).marked;
    forall s ensures s in a <==> s in b {
      if 0 <= s <= h && h - s < REPLAY_WINDOW_BITS {
        assert Offset(after, h - s) == (h - s == h - sequence || Offset(before, h - s));
      }
    }
  }

  /** A mark above it: everything moves first. */
  lemma {:induction false} AdvancedMark(before: seq<nat>, shifted: seq<nat>, after: seq<nat>, h: nat, sequence: nat)
    requires Words(before) && Words(shifted) && Words(after) && sequence > h
    requires Moved(before, shifted, sequence - h) && Adds(shifted, after, 0)
    ensures Abstract(Some(sequence), after) == Mark(Abstract(Some(h), before), sequence)
  {
    var a, b := Abstract(Some(sequence), after).marked, Mark(Abstract(Some(h), before), sequence).marked;
    forall s ensures s in a <==> s in b {
      if 0 <= s <= sequence && sequence - s < REPLAY_WINDOW_BITS {
        var o := sequence - s;
        assert Offset(after, o) == (o == 0 || Offset(shifted, o));
        assert Offset(shifted, o) == (o >= sequence - h && Offset(before, o - (sequence - h)));
        if s <= h { assert o - (sequence - h) == h - s; }
      }
    }
  }

  // ----- what any history of commits accepts -----

  ghost function Highest(accepted: set<nat>): (m: nat)
    requires accepted != {}
    ensures m in accepted && forall s :: s in accepted ==> s <= m
  {
    var x :| x in accepted;
    if accepted == {x} then x
    else
      var rest := accepted - {x};
      assert accepted == rest + {x};
      var r := Highest(rest);
      if x > r then x else r
  }

  /** The window as a function of the set of all sequences accepted so far. */
  ghost function Summary(accepted: set<nat>): Window {
    if accepted == {} then Window(None, {})
    else Window(Some(Highest(accepted)), set s | s in accepted && Highest(accepted) - s < REPLAY_WINDOW_BITS)
  }

  /** A sequence is admissible after `accepted` when it is new, not too old and not too far ahead. */
  ghost predicate Admissible(accepted: set<nat>, sequence: nat) {
    && sequence !in accepted
    && (accepted == {} ==> sequence <= MAX_SEQUENCE_ADVANCE)
    && (accepted != {} ==>
          Highest(accepted) - REPLAY_WINDOW_BITS < sequence <= Highest(accepted) + MAX_SEQUENCE_ADVANCE)
  }

  /** The window decides admissibility exactly, although it forgets everything out of reach. */
  lemma {:induction false} SummaryAccepts(accepted: set<nat>, sequence: nat)
    ensures Accepts(Summary(accepted), sequence) <==> Admissible(accepted, sequence)
  {
  }

  lemma {:induction false} SummaryMark(accepted: set<nat>, sequence: nat)
    ensures Mark(Summary(accepted), sequence) == Summary(accepted + {sequence})
  {
    var all := accepted + {sequence};
    var top := Highest(all);
    if accepted != {} {
      assert top == if sequence > Highest(accepted) then sequence else Highest(accepted);
      assert Mark(Summary(accepted), sequence).marked == Summary(all).marked;
    } else {
      assert all == {sequence};
      assert Mark(Summary(accepted), sequence).marked == Summary(all).marked;
    }
  }

  /** The window and the accepted sequences after a run of commits. */
  ghost function Run(history: seq<nat>): (Window, set<nat>) {
    if history == [] then (Window(None, {}), {})
    else
      var (w, accepted) := Run(history[..|history| - 1]);
      var s := history[|history| - 1];
      if Accepts(w, s) then (Mark(w, s), accepted + {s}) else (w, accepted)
  }

  /** After every run the next sequence is accepted exactly when it is admissible. */
  lemma {:induction false} RunAccepts(history: seq<nat>, sequence: nat)
    ensures Run(history).0 == Summary(Run(history).1)
    ensures Accepts(Run(history).0, sequence) <==> Admissible(Run(history).1, sequence)
  {
    if history != [] {
      var prefix, s := history[..|history| - 1], history[|history| - 1];
      RunAccepts(prefix, s);
      SummaryMark(Run(prefix).1, s);
    }
    SummaryAccepts(Run(history).1, sequence);
  }

  /** In no run is one sequence accepted twice. */
  lemma {:induction false} AcceptedAtMostOnce(history: seq<nat>, i: nat, j: nat)
    requires i < j < |history| && history[i] == history[j]
    requires Accepts(Run(history[..i]).0, history[i])
    ensures !Accepts(Run(history[..j]).0, history[j])
  {
    RunAccepts(history[..j], history[j]);
    StaysAccepted(history, i, j);
  }

  lemma {:induction false} StaysAccepted(history: seq<nat>, i: nat, j: nat)
    requires i < j <= |history| && Accepts(Run(history[..i]).0, history[i])
    ensures history[i] in Run(history[..j]).1
    decreases j
  {
    assert history[..j][..j - 1] == history[..j - 1];
    if i + 1 < j { StaysAccepted(history, i, j - 1); }
  }
}
