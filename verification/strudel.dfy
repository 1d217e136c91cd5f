/** `StrudelGenerator` (tools/youtube_to_strudel.py): the header, the tempo
    line, the bass and melody stanzas, and the assembly of all sections. */
module Strudel {
  import opened Options
  import opened Text
  import opened Runs
  import opened PyNum
  import opened Notes
  import opened Quantizer
  import opened Estimates
  import opened Drums

  /** What the analyser has found. `None` is an attribute that was never set:
      the tempo, key, drum, bass or melody analysis did not run. */
  datatype Analysis = Analysis(
    duration: real,
    bpm: Option<int>,
    key: Option<Key>,
    drumHits: Option<DrumHits>,
    bassNotes: Option<seq<QuantizedNote>>,
    melodyNotes: Option<seq<QuantizedNote>>)

  /** The generator's `bpm`, 120 when the tempo was never analysed. */
  function Bpm(a: Analysis): (r: int)
    ensures a.bpm.None? ==> r == 120
    ensures a.bpm.Some? ==> r == a.bpm.value
  {
    a.bpm.GetOr(DefaultTempo.Floor)
  }

  function ModeName(m: Mode): string
  {
    match m
    case Major => "major"
    case Minor => "minor"
  }

  /** The generator's `key` and `mode`, "C" and "minor" when the key was never analysed. */
  function KeyText(a: Analysis): (r: string)
    requires a.key.Some? ==> a.key.value.root < 12
    ensures r == "C minor" <==> a.key.None? || a.key == Some(Key(0, Minor))
  {
    match a.key
    case None => "C minor"
    case Some(k) =>
      var r := PitchNames[k.root] + " " + ModeName(k.mode);
      KeyTextIsDefault(k.root, k.mode);
      r
  }

  /** Only C minor is spelled "C minor". */
  lemma KeyTextIsDefault(root: nat, mode: Mode)
    requires root < 12
    ensures PitchNames[root] + " " + ModeName(mode) == "C minor" <==> root == 0 && mode == Minor
  {
    var t := PitchNames[root] + " " + ModeName(mode);
    if t == "C minor" {
      assert |ModeName(mode)| == 5;
      assert |PitchNames[root]| == 1;
      assert t[0] == PitchNames[root][0] && t[2..] == ModeName(mode);
    }
  }

  /** The note lists that give a stanza: present and non-empty. */
  predicate HasNotes(notes: Option<seq<QuantizedNote>>)
  {
    notes.Some? && |notes.value| > 0
  }

  /** The inputs on which `generate` completes: the key is a pitch class, the
      duration is an audio length, and every stanza that divides by the tempo
      has a positive one. */
  predicate Generable(a: Analysis)
  {
    && a.duration >= 0.0
    && (a.key.Some? ==> a.key.value.root < 12)
    && ((a.drumHits.Some? || HasNotes(a.bassNotes) || HasNotes(a.melodyNotes)) ==> Bpm(a) > 0)
  }

  // ---------------------------------------------------------------------------
  // Header and settings
  // ---------------------------------------------------------------------------

  /** `f"{d:.1f}"` for a non-negative duration: whole part, point, tenths,
      rounded half to even. */
  function FormatTenths(d: real): (r: string)
    requires d >= 0.0
    ensures |r| >= 3 && r[|r| - 2] == '.'
  {
    var tenths := RoundHalfEven(d * 10.0);
    assert tenths >= 0;
    NatToString(tenths / 10) + "." + [DigitChar(tenths % 10)]
  }

  /** Reads "digits.d" into its number of tenths. */
  function ReadTenths(s: string): Option<int>
  {
    if |s| >= 3 && s[|s| - 2] == '.' && AllDigits(s[..|s| - 2]) && IsDigit(s[|s| - 1]) then
      Some(DecimalValue(s[..|s| - 2]) * 10 + DigitValue(s[|s| - 1]))
    else None
  }

  /** The duration text reads back to a number of tenths within half a tenth of the duration. */
  lemma FormatTenthsReadsBack(d: real)
    requires d >= 0.0
    ensures ReadTenths(FormatTenths(d)).Some?
    ensures var t := ReadTenths(FormatTenths(d)).value;
            t >= 0 && -0.05 <= t as real / 10.0 - d <= 0.05
    ensures var t := ReadTenths(FormatTenths(d)).value;
            (t as real / 10.0 - d == 0.05 || d - t as real / 10.0 == 0.05) ==> t % 2 == 0
  {
    var tenths := RoundHalfEven(d * 10.0);
    var s := FormatTenths(d);
    var whole := NatToString(tenths / 10);
    assert s[..|s| - 2] == whole;
    NatToStringRoundTrip(tenths / 10);
    assert ReadTenths(s) == Some(tenths);
  }

  /** The four comment lines of `_generate_header`. */
  function HeaderLines(a: Analysis): seq<string>
    requires Generable(a)
  {
    ["// Generated from YouTube audio analysis",
     "// Key: " + KeyText(a),
     "// BPM: " + IntToString(Bpm(a)),
     "// Duration: " + FormatTenths(a.duration) + "s"]
  }

  /** `_generate_header`: the four lines joined by line breaks. */
  function Header(a: Analysis): string
    requires Generable(a)
  {
    Join(HeaderLines(a), "\n")
  }

  /** The header splits back into exactly its four comment lines. */
  lemma HeaderSplitsIntoLines(a: Analysis)
    requires Generable(a)
    ensures Split(Header(a), '\n') == HeaderLines(a)
  {
    HeaderLinesOneLine(a);
    SplitJoin(HeaderLines(a), '\n');
  }

  lemma HeaderLinesOneLine(a: Analysis)
    requires Generable(a)
    ensures forall i :: 0 <= i < |HeaderLines(a)| ==> '\n' !in HeaderLines(a)[i]
  {
    var lines := HeaderLines(a);
    TitleOneLine();
    KeyLineOneLine(a);
    BpmLineOneLine(Bpm(a));
    DurationLineOneLine(a.duration);
    assert lines[0] == "// Generated from YouTube audio analysis";
  }

  lemma TitleOneLine()
    ensures '\n' !in "// Generated from YouTube audio analysis"
  {
    var s := "// Generated from YouTube audio analysis";
    assert forall k :: 0 <= k < |s| ==> s[k] != '\n';
  }

  lemma KeyLineOneLine(a: Analysis)
    requires a.key.Some? ==> a.key.value.root < 12
    ensures '\n' !in "// Key: " + KeyText(a)
  {
    if a.key.Some? {
      SpellingIsLettersOfPitch(a.key.value.root);
    }
  }

  lemma BpmLineOneLine(bpm: int)
    ensures '\n' !in "// BPM: " + IntToString(bpm)
  {
    IntToStringChars(bpm);
  }

  lemma DurationLineOneLine(d: real)
    requires d >= 0.0
    ensures '\n' !in "// Duration: " + FormatTenths(d) + "s"
  {
    var t := RoundHalfEven(d * 10.0);
    assert FormatTenths(d) == NatToString(t / 10) + "." + [DigitChar(t % 10)];
    assert '\n' !in NatToString(t / 10);
  }

  lemma SpellingIsLettersOfPitch(pc: nat)
    requires pc < 12
    ensures '\n' !in PitchNames[pc]
  {
  }

  /** The tempo in the header reads back as the generator's tempo. */
  lemma HeaderStatesTempo(a: Analysis)
    requires Generable(a)
    ensures var lines := Split(Header(a), '\n');
            |lines| == 4 && StartsWith(lines[2], "// BPM: ") && ParseInt(lines[2][8..]) == Some(Bpm(a))
  {
    HeaderSplitsIntoLines(a);
    var line := "// BPM: " + IntToString(Bpm(a));
    assert line[8..] == IntToString(Bpm(a));
    IntToStringRoundTrip(Bpm(a));
  }

  /** An analysis without tempo and key gives the generator's defaults:
      `// Key: C minor`, `// BPM: 120` and `setcpm(120)`. */
  lemma HeaderDefaults(a: Analysis)
    requires Generable(a)
    ensures |Split(Header(a), '\n')| == 4
    ensures a.key.None? ==> Split(Header(a), '\n')[1] == "// Key: C minor"
    ensures a.bpm.None? ==> Split(Header(a), '\n')[2] == "// BPM: 120"
    ensures a.bpm.None? ==> Settings(a) == "setcpm(120)"
  {
    HeaderSplitsIntoLines(a);
    if a.bpm.None? {
      TwelveTens();
    }
  }

  lemma TwelveTens()
    ensures IntToString(120) == "120"
  {
    assert NatToString(1) == "1";
    assert NatToString(12) == "12";
  }

  /** `_generate_settings`: the global tempo call. */
  function Settings(a: Analysis): (r: string)
    ensures StartsWith(r, "setcpm(") && r[|r| - 1] == ')'
    ensures ParseInt(r[7..|r| - 1]) == Some(Bpm(a))
  {
    var digits := IntToString(Bpm(a));
    var r := "setcpm(" + digits + ")";
    assert r[7..|r| - 1] == digits;
    IntToStringRoundTrip(Bpm(a));
    r
  }

  // ---------------------------------------------------------------------------
  // Bass and melody stanzas
  // ---------------------------------------------------------------------------

  function Min(a: int, b: int): int
  {
    if a <= b then a else b
  }

  /** The names of the notes, in order. */
  function Names(notes: seq<QuantizedNote>): (r: seq<string>)
    ensures |r| == |notes|
    ensures forall i :: 0 <= i < |notes| ==> r[i] == notes[i].name
  {
    seq(|notes|, i requires 0 <= i < |notes| => notes[i].name)
  }

  /** The notes that start before `limit`, in order. */
  function EarlyNotes(notes: seq<QuantizedNote>, limit: real): (r: seq<QuantizedNote>)
    ensures IsSubsequence(r, notes)
    ensures forall i :: 0 <= i < |r| ==> r[i].time < limit
    ensures forall i :: 0 <= i < |notes| && notes[i].time < limit ==> notes[i] in r
  {
    if |notes| == 0 then []
    else
      var rest := EarlyNotes(notes[1..], limit);
      assert forall i :: 1 <= i < |notes| ==> notes[i] == notes[1..][i - 1];
      if notes[0].time < limit then
        assert ([notes[0]] + rest)[1..] == rest;
        [notes[0]] + rest
      else
        SubsequenceExtend(rest, notes[1..], notes[0]);
        assert [notes[0]] + notes[1..] == notes;
        rest
  }

  /** The names a voice stanza plays: the first `window` notes, those in the
      first two bars (or else the first eight), at most eight of them, with
      repeated neighbours dropped, then at most `cap` names. */
  function VoicePattern(notes: seq<QuantizedNote>, window: nat, cap: nat, barLength: real): (r: seq<string>)
    ensures |r| <= cap
    ensures NoAdjacentRepeats(r)
    ensures |notes| > 0 && window > 0 && cap > 0 ==> |r| >= 1
    ensures forall i :: 0 <= i < |r| ==> r[i] in Names(notes)
  {
    var head := notes[..Min(window, |notes|)];
    var early := EarlyNotes(head, barLength * 2.0);
    var chosen := if |early| == 0 then head[..Min(8, |head|)] else early;
    var names := Names(chosen[..Min(8, |chosen|)]);
    var unique := DropRepeats(names, None);
    VoicePatternFacts(notes, head, early, chosen, names, unique);
    unique[..Min(cap, |unique|)]
  }

  lemma VoicePatternFacts(notes: seq<QuantizedNote>, head: seq<QuantizedNote>, early: seq<QuantizedNote>,
                          chosen: seq<QuantizedNote>, names: seq<string>, unique: seq<string>)
    requires |head| <= |notes| && head == notes[..|head|]
    requires IsSubsequence(early, head)
    requires chosen == early || (|chosen| <= |head| && chosen == head[..|chosen|])
    requires |early| == 0 ==> |chosen| == Min(8, |head|)
    requires |early| > 0 ==> chosen == early
    requires names == Names(chosen[..Min(8, |chosen|)])
    requires unique == DropRepeats(names, None)
    ensures NoAdjacentRepeats(unique)
    ensures |head| > 0 ==> |unique| >= 1
    ensures forall x :: x in unique ==> x in Names(notes)
  {
    DropRepeatsIsCollapse(names);
    CollapseKeepsValues(names);
    SubsequenceMembers(early, head);
    var picked := chosen[..Min(8, |chosen|)];
    forall n | n in picked
      ensures n in notes
    {
      assert n in chosen;
      assert n in head;
    }
    NamesOfMembers(picked, notes);
    if |head| > 0 {
      assert |chosen| > 0;
      assert |names| > 0;
    }
  }

  /** Names of notes drawn from `ys` are names of `ys`. */
  lemma NamesOfMembers(xs: seq<QuantizedNote>, ys: seq<QuantizedNote>)
    requires forall n :: n in xs ==> n in ys
    ensures forall x :: x in Names(xs) ==> x in Names(ys)
  {
    forall x | x in Names(xs)
      ensures x in Names(ys)
    {
      var i :| 0 <= i < |xs| && Names(xs)[i] == x;
      assert xs[i] in ys;
      var j :| 0 <= j < |ys| && ys[j] == xs[i];
      assert Names(ys)[j] == x;
    }
  }

  /** Some note among the first `window` starts before `limit`. */
  predicate StartsEarly(notes: seq<QuantizedNote>, window: nat, limit: real)
  {
    exists i :: 0 <= i < |notes| && i < window && notes[i].time < limit
  }

  /** The first eight of the first `window` notes that start before `limit`. */
  function EarlyPick(notes: seq<QuantizedNote>, window: nat, limit: real): seq<QuantizedNote>
  {
    var early := EarlyNotes(notes[..Min(window, |notes|)], limit);
    early[..Min(8, |early|)]
  }

  /** The first `cap` names of `notes` once repeated neighbours are collapsed,
      by the run-collapsing reference rather than the generator's loop. */
  function FirstNames(notes: seq<QuantizedNote>, cap: nat): (r: seq<string>)
    ensures |r| <= cap
  {
    var c := CollapseRuns(Names(notes));
    c[..Min(cap, |c|)]
  }

  /** When some note among the first `window` starts inside the first two bars,
      the pattern is drawn from the first eight such notes. */
  lemma VoicePatternFromEarlyNotes(notes: seq<QuantizedNote>, window: nat, cap: nat, barLength: real)
    requires StartsEarly(notes, window, barLength * 2.0)
    ensures VoicePattern(notes, window, cap, barLength) == FirstNames(EarlyPick(notes, window, barLength * 2.0), cap)
  {
    var limit := barLength * 2.0;
    var head := notes[..Min(window, |notes|)];
    var i0 :| 0 <= i0 < |notes| && i0 < window && notes[i0].time < limit;
    HasEarlyNote(head, i0, limit);
    VoicePatternPicks(notes, window, cap, barLength);
  }

  /** The pattern is the first `cap` collapsed names of the picked notes: the
      first eight early notes, or the first eight notes when there is none. */
  lemma VoicePatternPicks(notes: seq<QuantizedNote>, window: nat, cap: nat, barLength: real)
    ensures var head := notes[..Min(window, |notes|)];
            var early := EarlyNotes(head, barLength * 2.0);
            var picked := if |early| == 0 then head[..Min(8, |head|)] else early[..Min(8, |early|)];
            VoicePattern(notes, window, cap, barLength) == FirstNames(picked, cap)
  {
    var head := notes[..Min(window, |notes|)];
    var early := EarlyNotes(head, barLength * 2.0);
    var chosen := if |early| == 0 then head[..Min(8, |head|)] else early;
    var picked := chosen[..Min(8, |chosen|)];
    assert picked == if |early| == 0 then head[..Min(8, |head|)] else early[..Min(8, |early|)];
    DropRepeatsIsCollapse(Names(picked));
  }

  lemma HasEarlyNote(head: seq<QuantizedNote>, i: nat, limit: real)
    requires i < |head| && head[i].time < limit
    ensures |EarlyNotes(head, limit)| > 0
  {
    assert head[i] in EarlyNotes(head, limit);
  }

  /** In that case every name in the pattern is the name of a note among the
      first `window` that starts inside the first two bars. */
  lemma VoicePatternEarlyNames(notes: seq<QuantizedNote>, window: nat, cap: nat, barLength: real)
    requires StartsEarly(notes, window, barLength * 2.0)
    ensures var r := VoicePattern(notes, window, cap, barLength);
            forall k :: 0 <= k < |r| ==>
              exists i :: 0 <= i < |notes| && i < window && notes[i].time < barLength * 2.0 && notes[i].name == r[k]
  {
    VoicePatternFromEarlyNotes(notes, window, cap, barLength);
    PickedNames(notes, window, barLength * 2.0, cap, VoicePattern(notes, window, cap, barLength));
  }

  /** Every name of the pattern drawn from the early notes is an early note's name. */
  lemma PickedNames(notes: seq<QuantizedNote>, window: nat, limit: real, cap: nat, r: seq<string>)
    requires r == FirstNames(EarlyPick(notes, window, limit), cap)
    ensures forall k :: 0 <= k < |r| ==>
              exists i :: 0 <= i < |notes| && i < window && notes[i].time < limit && notes[i].name == r[k]
  {
    var head := notes[..Min(window, |notes|)];
    var early := EarlyNotes(head, limit);
    var picked := early[..Min(8, |early|)];
    assert picked == EarlyPick(notes, window, limit);
    var c := CollapseRuns(Names(picked));
    assert r == c[..Min(cap, |c|)];
    CollapseKeepsValues(Names(picked));
    SubsequenceMembers(early, head);
    forall k | 0 <= k < |r|
      ensures exists i :: 0 <= i < |notes| && i < window && notes[i].time < limit && notes[i].name == r[k]
    {
      assert r[k] == c[k];
      EarlyNameFromHead(notes, window, limit, head, early, picked, r[k]);
    }
  }

  lemma EarlyNameFromHead(notes: seq<QuantizedNote>, window: nat, limit: real, head: seq<QuantizedNote>,
                          early: seq<QuantizedNote>, picked: seq<QuantizedNote>, x: string)
    requires head == notes[..Min(window, |notes|)]
    requires forall n :: n in early ==> n in head
    requires forall i :: 0 <= i < |early| ==> early[i].time < limit
    requires |picked| <= |early| && picked == early[..|picked|]
    requires x in Names(picked)
    ensures exists i :: 0 <= i < |notes| && i < window && notes[i].time < limit && notes[i].name == x
  {
    var j :| 0 <= j < |picked| && Names(picked)[j] == x;
    var n := picked[j];
    assert n == early[j] && n.time < limit;
    assert n in head;
    var i :| 0 <= i < |head| && head[i] == n;
    assert notes[i] == n;
  }

  /** When none of the first `window` notes starts inside the first two bars,
      the pattern is drawn from the first eight notes. */
  lemma VoicePatternFromFirstEight(notes: seq<QuantizedNote>, window: nat, cap: nat, barLength: real)
    requires window >= 8
    requires forall i :: 0 <= i < |notes| && i < window ==> notes[i].time >= barLength * 2.0
    ensures VoicePattern(notes, window, cap, barLength) == FirstNames(notes[..Min(8, |notes|)], cap)
  {
    var head := notes[..Min(window, |notes|)];
    NoEarlyNotes(head, barLength * 2.0);
    assert head[..Min(8, |head|)] == notes[..Min(8, |notes|)];
    VoicePatternPicks(notes, window, cap, barLength);
  }

  lemma {:induction false} NoEarlyNotes(notes: seq<QuantizedNote>, limit: real)
    requires forall i :: 0 <= i < |notes| ==> notes[i].time >= limit
    ensures EarlyNotes(notes, limit) == []
  {
    if |notes| > 0 {
      NoEarlyNotes(notes[1..], limit);
    }
  }

  /** When the first note starts inside the first two bars, the pattern opens with it. */
  lemma VoicePatternStartsWithFirstNote(notes: seq<QuantizedNote>, window: nat, cap: nat, barLength: real)
    requires |notes| > 0 && window > 0 && cap > 0
    requires notes[0].time < barLength * 2.0
    ensures VoicePattern(notes, window, cap, barLength)[0] == notes[0].name
  {
    var head := notes[..Min(window, |notes|)];
    var early := EarlyNotes(head, barLength * 2.0);
    assert head[0] in early;
    EarlyNotesHead(head, barLength * 2.0);
    var names := Names(early[..Min(8, |early|)]);
    DropRepeatsIsCollapse(names);
  }

  lemma EarlyNotesHead(notes: seq<QuantizedNote>, limit: real)
    requires |notes| > 0 && notes[0].time < limit
    ensures |EarlyNotes(notes, limit)| > 0 && EarlyNotes(notes, limit)[0] == notes[0]
  {
  }

  /** The list comprehension, one note at a time: appending a note appends it
      to the early notes exactly when it starts before the limit. Together
      with `EarlyNotes([], limit) == []` this determines `EarlyNotes`. */
  lemma {:induction false} EarlyNotesAppend(notes: seq<QuantizedNote>, n: QuantizedNote, limit: real)
    ensures EarlyNotes(notes + [n], limit) == EarlyNotes(notes, limit) + (if n.time < limit then [n] else [])
  {
    var tail := if n.time < limit then [n] else [];
    if |notes| == 0 {
      assert notes + [n] == [n];
      assert [n][1..] == [];
    } else {
      var all := notes + [n];
      assert all[0] == notes[0];
      assert all[1..] == notes[1..] + [n];
      EarlyNotesAppend(notes[1..], n, limit);
      if notes[0].time < limit {
        assert EarlyNotes(all, limit) == [notes[0]] + (EarlyNotes(notes[1..], limit) + tail);
        assert EarlyNotes(notes, limit) == [notes[0]] + EarlyNotes(notes[1..], limit);
      } else {
        assert EarlyNotes(all, limit) == EarlyNotes(notes[1..], limit) + tail;
        assert EarlyNotes(notes, limit) == EarlyNotes(notes[1..], limit);
      }
    }
  }

  /** The `note("…")` line of a stanza: the names joined by spaces, then the timbre. */
  function NoteLine(names: seq<string>, timbre: string): string
  {
    "note(\"" + Join(names, " ") + "\")" + timbre
  }

  /** Reads the names back out of a note line with the given timbre. */
  function ReadNoteLine(line: string, timbre: string): Option<seq<string>>
  {
    if |line| >= 8 + |timbre| && line[..6] == "note(\"" && line[|line| - |timbre| - 2..] == "\")" + timbre then
      Some(Split(line[6..|line| - |timbre| - 2], ' '))
    else None
  }

  /** A note line reads back to its names. */
  lemma NoteLineReadsBack(names: seq<string>, timbre: string)
    requires |names| >= 1 && |names[0]| >= 1
    requires forall i :: 0 <= i < |names| ==> ' ' !in names[i]
    ensures ReadNoteLine(NoteLine(names, timbre), timbre) == Some(names)
  {
    var body := Join(names, " ");
    var line := NoteLine(names, timbre);
    JoinAtLeastFirst(names, " ");
    assert line[..6] == "note(\"";
    assert line[|line| - |timbre| - 2..] == "\")" + timbre;
    assert line[6..|line| - |timbre| - 2] == body;
    SplitJoin(names, ' ');
  }

  /** A stanza: its title comment, then the note line; "" when there are no names. */
  function VoiceStanza(title: string, names: seq<string>, timbre: string): (r: string)
    ensures r == "" <==> |names| == 0
  {
    if |names| == 0 then "" else title + "\n" + NoteLine(names, timbre)
  }

  /** The bass timbre: a filtered sawtooth. */
  const BassTimbre: string := ".s(\"sawtooth\")" + ".lpf(400)" + ".decay(0.2)" + ".sustain(0.3)" + ".gain(0.6)"

  /** The melody timbre: a triangle wave with delay. */
  const MelodyTimbre: string := ".s(\"triangle\")" + ".decay(0.3)" + ".sustain(0.4)" + ".delay(0.2)" + ".gain(0.5)"

  /** The bass names: from the first 32 notes, at most four. */
  function BassPattern(notes: seq<QuantizedNote>, bpm: int): (r: seq<string>)
    requires |notes| > 0 ==> bpm > 0
    ensures |r| <= 4 && NoAdjacentRepeats(r)
    ensures |r| == 0 <==> |notes| == 0
    ensures forall i :: 0 <= i < |r| ==> r[i] in Names(notes)
  {
    if |notes| == 0 then [] else VoicePattern(notes, 32, 4, BarLength(bpm))
  }

  /** Which notes the bass plays: when one of the first 32 notes starts in the
      first two bars, the first 4 collapsed names of the first eight such
      notes; otherwise the first 4 collapsed names of the first eight notes. */
  lemma BassPatternSelection(notes: seq<QuantizedNote>, bpm: int)
    requires |notes| > 0 && bpm > 0
    ensures StartsEarly(notes, 32, BarLength(bpm) * 2.0) ==>
              BassPattern(notes, bpm) == FirstNames(EarlyPick(notes, 32, BarLength(bpm) * 2.0), 4)
    ensures !StartsEarly(notes, 32, BarLength(bpm) * 2.0) ==>
              BassPattern(notes, bpm) == FirstNames(notes[..Min(8, |notes|)], 4)
  {
    VoiceSelection(notes, 32, 4, BarLength(bpm));
  }

  /** The melody names: from the first 64 notes, at most eight. */
  function MelodyPattern(notes: seq<QuantizedNote>, bpm: int): (r: seq<string>)
    requires |notes| > 0 ==> bpm > 0
    ensures |r| <= 8 && NoAdjacentRepeats(r)
    ensures |r| == 0 <==> |notes| == 0
    ensures forall i :: 0 <= i < |r| ==> r[i] in Names(notes)
  {
    if |notes| == 0 then [] else VoicePattern(notes, 64, 8, BarLength(bpm))
  }

  /** Which notes the melody plays: when one of the first 64 notes starts in the
      first two bars, the first 8 collapsed names of the first eight such
      notes; otherwise the first 8 collapsed names of the first eight notes. */
  lemma MelodyPatternSelection(notes: seq<QuantizedNote>, bpm: int)
    requires |notes| > 0 && bpm > 0
    ensures StartsEarly(notes, 64, BarLength(bpm) * 2.0) ==>
              MelodyPattern(notes, bpm) == FirstNames(EarlyPick(notes, 64, BarLength(bpm) * 2.0), 8)
    ensures !StartsEarly(notes, 64, BarLength(bpm) * 2.0) ==>
              MelodyPattern(notes, bpm) == FirstNames(notes[..Min(8, |notes|)], 8)
  {
    VoiceSelection(notes, 64, 8, BarLength(bpm));
  }

  /** Both selection cases at once, for the stanzas. */
  lemma VoiceSelection(notes: seq<QuantizedNote>, window: nat, cap: nat, barLength: real)
    requires window >= 8
    ensures StartsEarly(notes, window, barLength * 2.0) ==>
              VoicePattern(notes, window, cap, barLength) == FirstNames(EarlyPick(notes, window, barLength * 2.0), cap)
    ensures !StartsEarly(notes, window, barLength * 2.0) ==>
              VoicePattern(notes, window, cap, barLength) == FirstNames(notes[..Min(8, |notes|)], cap)
  {
    if StartsEarly(notes, window, barLength * 2.0) {
      VoicePatternFromEarlyNotes(notes, window, cap, barLength);
    } else {
      VoicePatternFromFirstEight(notes, window, cap, barLength);
    }
  }

  /** `_generate_bass`. */
  function GenerateBass(notes: seq<QuantizedNote>, bpm: int): (r: string)
    requires |notes| > 0 ==> bpm > 0
    ensures r == "" <==> |notes| == 0
  {
    VoiceStanza("// Bass", BassPattern(notes, bpm), BassTimbre)
  }

  /** `_generate_melody`. */
  function GenerateMelody(notes: seq<QuantizedNote>, bpm: int): (r: string)
    requires |notes| > 0 ==> bpm > 0
    ensures r == "" <==> |notes| == 0
  {
    VoiceStanza("// Melody", MelodyPattern(notes, bpm), MelodyTimbre)
  }

  /** Every note carries a name that can sit in a pattern, as quantised notes do. */
  predicate WellNamed(notes: seq<QuantizedNote>)
  {
    forall i :: 0 <= i < |notes| ==> PlainName(notes[i].name) && |notes[i].name| > 0
  }

  lemma QuantizedNotesAreWellNamed(pitched: seq<PitchedNote>)
    ensures WellNamed(Quantize(pitched))
  {
    var q := Quantize(pitched);
    forall i | 0 <= i < |q|
      ensures PlainName(q[i].name) && |q[i].name| > 0
    {
      MidiToNotePlain(q[i].midi);
    }
  }

  /** A voice stanza is two lines, its title and a note line that reads back to the pattern. */
  lemma VoiceStanzaReadsBack(title: string, notes: seq<QuantizedNote>, names: seq<string>, timbre: string)
    requires WellNamed(notes) && |names| > 0
    requires forall i :: 0 <= i < |names| ==> names[i] in Names(notes)
    requires '\n' !in title && '\n' !in timbre
    ensures |Split(VoiceStanza(title, names, timbre), '\n')| == 2
    ensures Split(VoiceStanza(title, names, timbre), '\n')[0] == title
    ensures ReadNoteLine(Split(VoiceStanza(title, names, timbre), '\n')[1], timbre) == Some(names)
  {
    forall i | 0 <= i < |names|
      ensures PlainName(names[i]) && |names[i]| > 0
    {
      var j :| 0 <= j < |notes| && Names(notes)[j] == names[i];
    }
    NoteLineReadsBack(names, timbre);
    JoinExcludes(names, " ", '\n');
    var line := NoteLine(names, timbre);
    assert '\n' !in line;
    JoinTwo(title, line, "\n");
    SplitJoin([title, line], '\n');
  }

  /** The bass stanza plays the bass pattern: at most four names, no two equal neighbours. */
  lemma BassStanzaReadsBack(notes: seq<QuantizedNote>, bpm: int)
    requires WellNamed(notes) && |notes| > 0 && bpm > 0
    ensures var lines := Split(GenerateBass(notes, bpm), '\n');
            |lines| == 2 && lines[0] == "// Bass" && ReadNoteLine(lines[1], BassTimbre) == Some(BassPattern(notes, bpm))
  {
    VoiceStanzaReadsBack("// Bass", notes, BassPattern(notes, bpm), BassTimbre);
  }

  /** The melody stanza plays the melody pattern: at most eight names, no two equal neighbours. */
  lemma MelodyStanzaReadsBack(notes: seq<QuantizedNote>, bpm: int)
    requires WellNamed(notes) && |notes| > 0 && bpm > 0
    ensures var lines := Split(GenerateMelody(notes, bpm), '\n');
            |lines| == 2 && lines[0] == "// Melody" && ReadNoteLine(lines[1], MelodyTimbre) == Some(MelodyPattern(notes, bpm))
  {
    VoiceStanzaReadsBack("// Melody", notes, MelodyPattern(notes, bpm), MelodyTimbre);
  }

  // ---------------------------------------------------------------------------
  // `generate`
  // ---------------------------------------------------------------------------

  /** A section, kept only when the generator produced text for it. */
  function Kept(code: string): (r: seq<string>)
    ensures r == [] <==> code == ""
    ensures r != [] ==> r == [code]
  {
    if code != "" then [code] else []
  }

  /** The drum section: present whenever the drum analysis ran, as the drum text is never empty. */
  function DrumSection(a: Analysis): (r: seq<string>)
    requires Generable(a)
    ensures |r| == (if a.drumHits.Some? then 1 else 0)
    ensures |r| == 1 ==> StartsWith(r[0], "// Drums\n")
  {
    if a.drumHits.Some? then
      var code := GenerateDrums(a.drumHits.value, Bpm(a), a.duration);
      DrumsTitle(code);
      Kept(code)
    else []
  }

  /** The bass section: present exactly when there are bass notes. */
  function BassSection(a: Analysis): (r: seq<string>)
    requires Generable(a)
    ensures |r| == (if HasNotes(a.bassNotes) then 1 else 0)
    ensures |r| == 1 ==> StartsWith(r[0], "// Bass\n")
  {
    if HasNotes(a.bassNotes) then Kept(GenerateBass(a.bassNotes.value, Bpm(a))) else []
  }

  /** The melody section: present exactly when there are melody notes. */
  function MelodySection(a: Analysis): (r: seq<string>)
    requires Generable(a)
    ensures |r| == (if HasNotes(a.melodyNotes) then 1 else 0)
    ensures |r| == 1 ==> StartsWith(r[0], "// Melody\n")
  {
    if HasNotes(a.melodyNotes) then Kept(GenerateMelody(a.melodyNotes.value, Bpm(a))) else []
  }

  /** The stanzas `generate` puts after the header and the tempo call, in order:
      drums, bass, melody, each only when present. */
  function Stanzas(a: Analysis): (r: seq<string>)
    requires Generable(a)
    ensures var d := if a.drumHits.Some? then 1 else 0;
            var b := if HasNotes(a.bassNotes) then 1 else 0;
            var m := if HasNotes(a.melodyNotes) then 1 else 0;
            && |r| == d + b + m
            && (d == 1 ==> StartsWith(r[0], "// Drums\n"))
            && (b == 1 ==> StartsWith(r[d], "// Bass\n"))
            && (m == 1 ==> StartsWith(r[d + b], "// Melody\n"))
  {
    var drums := DrumSection(a);
    var bass := BassSection(a);
    var melody := MelodySection(a);
    StanzaPositions(drums, bass, melody);
    drums + bass + melody
  }

  lemma StanzaPositions(drums: seq<string>, bass: seq<string>, melody: seq<string>)
    requires |drums| <= 1 && |bass| <= 1 && |melody| <= 1
    ensures var r := drums + bass + melody;
            && |r| == |drums| + |bass| + |melody|
            && (|drums| == 1 ==> r[0] == drums[0])
            && (|bass| == 1 ==> r[|drums|] == bass[0])
            && (|melody| == 1 ==> r[|drums| + |bass|] == melody[0])
  {
  }

  lemma DrumsTitle(code: string)
    requires |Split(code, '\n')| == 2 && Split(code, '\n')[0] == "// Drums"
    ensures StartsWith(code, "// Drums\n")
  {
    SplitFirstPiece(code, '\n');
  }

  /** `'\n\n'.join(sections)`: the header, a blank line, the tempo call, then
      each stanza after a blank line of its own. */
  function Generate(a: Analysis): (r: string)
    requires Generable(a)
    ensures StartsWith(r, Header(a) + "\n\n" + Settings(a))
  {
    var header, settings, stanzas := Header(a), Settings(a), Stanzas(a);
    JoinLayout(header, settings, stanzas, "\n\n");
    Join([header, settings] + stanzas, "\n\n")
  }

  /** The output is exactly the header and tempo call, followed by the stanzas
      when there are any, with a blank line between neighbours. */
  lemma GenerateLayout(a: Analysis)
    requires Generable(a)
    ensures var head := Header(a) + "\n\n" + Settings(a);
            var stanzas := Stanzas(a);
            Generate(a) == if |stanzas| == 0 then head else head + "\n\n" + Join(stanzas, "\n\n")
  {
    JoinLayout(Header(a), Settings(a), Stanzas(a), "\n\n");
  }

  lemma {:induction false} JoinLayout(first: string, second: string, rest: seq<string>, sep: string)
    ensures var head := first + sep + second;
            && Join([first, second] + rest, sep) == (if |rest| == 0 then head else head + sep + Join(rest, sep))
            && StartsWith(Join([first, second] + rest, sep), head)
  {
    var parts := [first, second] + rest;
    JoinCons(first, [second] + rest, sep);
    assert parts == [first] + ([second] + rest);
    var head := first + sep + second;
    if |rest| > 0 {
      JoinCons(second, rest, sep);
      var out := head + sep + Join(rest, sep);
      assert out[..|head|] == head;
    } else {
      assert [second] + rest == [second];
      assert head[..|head|] == head;
    }
  }
}
