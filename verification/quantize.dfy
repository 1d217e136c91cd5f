/** `AudioAnalyzer._quantize_notes` (tools/youtube_to_strudel.py): snap note
    times to a 1/8 s grid and drop a note that repeats the last one kept. */
module Quantizer {
  import opened Text
  import opened Runs
  import opened PyNum
  import opened Options
  import opened Notes

  /** The default `resolution` of `_quantize_notes`, in seconds. */
  const Resolution: real := 0.125

  /** A pitch-tracker result: onset time in seconds and rounded MIDI number. */
  datatype PitchedNote = PitchedNote(time: real, midi: int)

  /** A quantised note: grid time, MIDI number and its name. */
  datatype QuantizedNote = QuantizedNote(time: real, midi: int, name: string)

  /** `t` is a whole multiple of the resolution. */
  predicate OnGrid(t: real)
  {
    (t / Resolution).Floor as real == t / Resolution
  }

  /** `round(t / resolution) * resolution`. */
  function Snap(t: real): (q: real)
    ensures OnGrid(q)
    ensures -Resolution / 2.0 <= q - t <= Resolution / 2.0
    ensures (q - t == Resolution / 2.0 || t - q == Resolution / 2.0) ==> (q / Resolution).Floor % 2 == 0
  {
    var n := RoundHalfEven(t / Resolution);
    assert (n as real * Resolution) / Resolution == n as real;
    n as real * Resolution
  }

  lemma SnapOnGrid(t: real)
    requires OnGrid(t)
    ensures Snap(t) == t
  {
    var k := (t / Resolution).Floor;
    RoundHalfEvenUnique(t / Resolution, k);
  }

  /** The `(time, midi)` pair the quantiser compares. */
  function KeyOf(n: QuantizedNote): (real, int)
  {
    (n.time, n.midi)
  }

  function Keys(ns: seq<QuantizedNote>): (r: seq<(real, int)>)
    ensures |r| == |ns|
    ensures forall i :: 0 <= i < |ns| ==> r[i] == KeyOf(ns[i])
  {
    seq(|ns|, i requires 0 <= i < |ns| => KeyOf(ns[i]))
  }

  /** The `(grid time, midi)` pair each input note snaps to. */
  function SnappedKeys(ns: seq<PitchedNote>): (r: seq<(real, int)>)
    ensures |r| == |ns|
    ensures forall i :: 0 <= i < |ns| ==> r[i] == (Snap(ns[i].time), ns[i].midi)
  {
    seq(|ns|, i requires 0 <= i < |ns| => (Snap(ns[i].time), ns[i].midi))
  }

  /** The body of the quantiser's loop, run from the state `(lastTime, lastMidi)`. */
  function QuantizeFrom(notes: seq<PitchedNote>, lastTime: real, lastMidi: int): (r: seq<QuantizedNote>)
    ensures |r| <= |notes|
    ensures forall i :: 0 <= i < |r| ==> OnGrid(r[i].time) && r[i].name == MidiToNote(r[i].midi)
    ensures |r| > 0 ==> KeyOf(r[0]) != (lastTime, lastMidi)
    ensures NoAdjacentRepeats(Keys(r))
  {
    if |notes| == 0 then []
    else
      var q := Snap(notes[0].time);
      var m := notes[0].midi;
      if q != lastTime || m != lastMidi then
        var head := QuantizedNote(q, m, MidiToNote(m));
        var rest := QuantizeFrom(notes[1..], q, m);
        KeysCons(head, rest);
        [head] + rest
      else
        QuantizeFrom(notes[1..], lastTime, lastMidi)
  }

  /** `_quantize_notes(notes)`: the loop starts from the sentinel `(-1, -1)`. */
  function Quantize(notes: seq<PitchedNote>): (r: seq<QuantizedNote>)
    ensures |r| <= |notes|
    ensures forall i :: 0 <= i < |r| ==> OnGrid(r[i].time) && r[i].name == MidiToNote(r[i].midi)
    ensures NoAdjacentRepeats(Keys(r))
  {
    if |notes| == 0 then [] else QuantizeFrom(notes, -1.0, -1)
  }

  /** Frame times are never negative. */
  predicate NonNegativeTimes(notes: seq<PitchedNote>)
  {
    forall i :: 0 <= i < |notes| ==> notes[i].time >= 0.0
  }

  /** What the loop keeps is exactly the look-behind duplicate removal of the snapped pairs. */
  lemma {:induction false} QuantizeFromKeys(notes: seq<PitchedNote>, lastTime: real, lastMidi: int)
    ensures Keys(QuantizeFrom(notes, lastTime, lastMidi)) == DropRepeats(SnappedKeys(notes), Some((lastTime, lastMidi)))
  {
    if |notes| > 0 {
      var q := Snap(notes[0].time);
      var m := notes[0].midi;
      if q != lastTime || m != lastMidi {
        QuantizeFromKeys(notes[1..], q, m);
        KeysOfKept(notes, lastTime, lastMidi);
      } else {
        QuantizeFromKeys(notes[1..], lastTime, lastMidi);
        KeysOfSkipped(notes, lastTime, lastMidi);
      }
    }
  }

  lemma KeysOfKept(notes: seq<PitchedNote>, lastTime: real, lastMidi: int)
    requires |notes| > 0
    requires var q := Snap(notes[0].time); q != lastTime || notes[0].midi != lastMidi
    requires var q := Snap(notes[0].time);
             Keys(QuantizeFrom(notes[1..], q, notes[0].midi)) == DropRepeats(SnappedKeys(notes[1..]), Some((q, notes[0].midi)))
    ensures Keys(QuantizeFrom(notes, lastTime, lastMidi)) == DropRepeats(SnappedKeys(notes), Some((lastTime, lastMidi)))
  {
    var q := Snap(notes[0].time);
    var m := notes[0].midi;
    var head := QuantizedNote(q, m, MidiToNote(m));
    var rest := QuantizeFrom(notes[1..], q, m);
    assert QuantizeFrom(notes, lastTime, lastMidi) == [head] + rest;
    KeysCons(head, rest);
    SnappedKeysCons(notes);
    DropRepeatsCons((q, m), SnappedKeys(notes[1..]), Some((lastTime, lastMidi)));
  }

  lemma KeysOfSkipped(notes: seq<PitchedNote>, lastTime: real, lastMidi: int)
    requires |notes| > 0
    requires Snap(notes[0].time) == lastTime && notes[0].midi == lastMidi
    requires Keys(QuantizeFrom(notes[1..], lastTime, lastMidi)) == DropRepeats(SnappedKeys(notes[1..]), Some((lastTime, lastMidi)))
    ensures Keys(QuantizeFrom(notes, lastTime, lastMidi)) == DropRepeats(SnappedKeys(notes), Some((lastTime, lastMidi)))
  {
    assert QuantizeFrom(notes, lastTime, lastMidi) == QuantizeFrom(notes[1..], lastTime, lastMidi);
    SnappedKeysCons(notes);
    DropRepeatsCons((lastTime, lastMidi), SnappedKeys(notes[1..]), Some((lastTime, lastMidi)));
  }

  lemma KeysCons(x: QuantizedNote, xs: seq<QuantizedNote>)
    ensures Keys([x] + xs) == [KeyOf(x)] + Keys(xs)
  {
    assert forall i :: 1 <= i <= |xs| ==> ([x] + xs)[i] == xs[i - 1];
  }

  lemma SnappedKeysCons(notes: seq<PitchedNote>)
    requires |notes| > 0
    ensures SnappedKeys(notes) == [(Snap(notes[0].time), notes[0].midi)] + SnappedKeys(notes[1..])
  {
    assert forall i :: 1 <= i < |notes| ==> notes[1..][i - 1] == notes[i];
  }

  /** Quantising collapses each run of equal `(grid time, midi)` pairs to one
      note: nothing else is dropped, order and MIDI values are kept. */
  lemma QuantizeCollapsesRuns(notes: seq<PitchedNote>)
    requires NonNegativeTimes(notes)
    ensures Keys(Quantize(notes)) == CollapseRuns(SnappedKeys(notes))
    ensures IsSubsequence(Keys(Quantize(notes)), SnappedKeys(notes))
  {
    var ks := SnappedKeys(notes);
    if |notes| > 0 {
      QuantizeFromKeys(notes, -1.0, -1);
      DropRepeatsAfter(ks, (-1.0, -1));
      assert Snap(notes[0].time) >= 0.0 - Resolution / 2.0;
      var c := CollapseRuns([(-1.0, -1)] + ks);
      assert ([(-1.0, -1)] + ks)[1..] == ks;
      assert ([(-1.0, -1)] + ks)[0] != ([(-1.0, -1)] + ks)[1];
    }
    CollapseIsSubsequence(ks);
  }

  /** The quantiser emits nothing exactly when it is given nothing. */
  lemma QuantizeEmptyIff(notes: seq<PitchedNote>)
    requires NonNegativeTimes(notes)
    ensures Quantize(notes) == [] <==> notes == []
  {
    QuantizeCollapsesRuns(notes);
  }

  /** Turns quantised notes back into quantiser input. */
  function AsPitched(ns: seq<QuantizedNote>): (r: seq<PitchedNote>)
    ensures |r| == |ns|
    ensures forall i :: 0 <= i < |ns| ==> r[i] == PitchedNote(ns[i].time, ns[i].midi)
  {
    seq(|ns|, i requires 0 <= i < |ns| => PitchedNote(ns[i].time, ns[i].midi))
  }

  /** One step of the quantiser's loop. */
  lemma QuantizeFromCons(n: PitchedNote, ns: seq<PitchedNote>, lastTime: real, lastMidi: int)
    ensures var q := Snap(n.time);
            QuantizeFrom([n] + ns, lastTime, lastMidi)
            == if q != lastTime || n.midi != lastMidi then [QuantizedNote(q, n.midi, MidiToNote(n.midi))] + QuantizeFrom(ns, q, n.midi)
               else QuantizeFrom(ns, lastTime, lastMidi)
  {
    assert ([n] + ns)[0] == n;
    assert ([n] + ns)[1..] == ns;
  }

  lemma AsPitchedCons(x: QuantizedNote, xs: seq<QuantizedNote>)
    ensures AsPitched([x] + xs) == [PitchedNote(x.time, x.midi)] + AsPitched(xs)
  {
  }

  lemma {:induction false} QuantizeFromIdempotent(notes: seq<PitchedNote>, lastTime: real, lastMidi: int)
    ensures QuantizeFrom(AsPitched(QuantizeFrom(notes, lastTime, lastMidi)), lastTime, lastMidi)
         == QuantizeFrom(notes, lastTime, lastMidi)
  {
    if |notes| > 0 {
      var q := Snap(notes[0].time);
      var m := notes[0].midi;
      if q != lastTime || m != lastMidi {
        var rest := QuantizeFrom(notes[1..], q, m);
        assert QuantizeFrom(notes, lastTime, lastMidi) == [QuantizedNote(q, m, MidiToNote(m))] + rest;
        QuantizeFromIdempotent(notes[1..], q, m);
        IdempotentKept(q, m, rest, lastTime, lastMidi);
      } else {
        assert QuantizeFrom(notes, lastTime, lastMidi) == QuantizeFrom(notes[1..], lastTime, lastMidi);
        QuantizeFromIdempotent(notes[1..], lastTime, lastMidi);
      }
    }
  }

  /** A kept note is kept again, at the same grid time. */
  lemma IdempotentKept(q: real, m: int, rest: seq<QuantizedNote>, lastTime: real, lastMidi: int)
    requires OnGrid(q) && (q != lastTime || m != lastMidi)
    requires QuantizeFrom(AsPitched(rest), q, m) == rest
    ensures var head := QuantizedNote(q, m, MidiToNote(m));
            QuantizeFrom(AsPitched([head] + rest), lastTime, lastMidi) == [head] + rest
  {
    var head := QuantizedNote(q, m, MidiToNote(m));
    SnapOnGrid(q);
    AsPitchedCons(head, rest);
    QuantizeFromCons(PitchedNote(q, m), AsPitched(rest), lastTime, lastMidi);
  }

  /** Quantising an already quantised list changes nothing. */
  lemma QuantizeIdempotent(notes: seq<PitchedNote>)
    ensures Quantize(AsPitched(Quantize(notes))) == Quantize(notes)
  {
    if |notes| > 0 {
      QuantizeFromIdempotent(notes, -1.0, -1);
    }
  }

  /** MIDI 60, 60, 62, 62, 64 at matching grid times quantise to 60, 62, 64. */
  lemma QuantizeDropsRepeatedNotes()
    ensures var out := Quantize([PitchedNote(0.0, 60), PitchedNote(0.0, 60), PitchedNote(0.125, 62),
                                 PitchedNote(0.125, 62), PitchedNote(0.25, 64)]);
            |out| == 3 && out[0].midi == 60 && out[1].midi == 62 && out[2].midi == 64
  {
    SnapOnGrid(0.0);
    SnapOnGrid(0.125);
    SnapOnGrid(0.25);
  }
}
