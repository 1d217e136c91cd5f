/** Note names: `AudioAnalyzer.NOTE_NAMES` and `AudioAnalyzer._midi_to_note`
    (tools/youtube_to_strudel.py), with the parser that reads a name back. */
module Notes {
  import opened Options
  import opened Text

  /** `AudioAnalyzer.NOTE_NAMES`: pitch-class names, index 0 = C. */
  const PitchNames: seq<string> := ["C", "Db", "D", "Eb", "E", "F", "Gb", "G", "Ab", "A", "Bb", "B"]

  /** The lower-case spellings `NOTE_NAMES[i].lower()` used in note names. */
  const Spellings: seq<string> := ["c", "db", "d", "eb", "e", "f", "gb", "g", "ab", "a", "bb", "b"]

  /** `str.lower()` on one ASCII character. */
  function LowerChar(c: char): char
  {
    if 'A' <= c <= 'Z' then (c as int + 32) as char else c
  }

  /** `str.lower()` on the ASCII letters the pitch names use. */
  function LowerAscii(s: string): (r: string)
    ensures |r| == |s|
    ensures forall i :: 0 <= i < |s| ==> r[i] == LowerChar(s[i])
  {
    seq(|s|, i requires 0 <= i < |s| => LowerChar(s[i]))
  }

  lemma SpellingsAreLowerCase()
    ensures |Spellings| == |PitchNames| == 12
    ensures forall i :: 0 <= i < 12 ==> Spellings[i] == LowerAscii(PitchNames[i])
  {
    forall i | 0 <= i < 12
      ensures Spellings[i] == LowerAscii(PitchNames[i])
    {
      var l := LowerAscii(PitchNames[i]);
      assert |l| == |Spellings[i]|;
      assert forall k :: 0 <= k < |l| ==> l[k] == Spellings[i][k];
    }
  }

  /** `_midi_to_note`: lower-case pitch class followed by the octave, 60 is "c4". */
  function MidiToNote(midi: int): string
  {
    Spellings[midi % 12] + IntToString(midi / 12 - 1)
  }

  /** The pitch class whose spelling is `s`, if any. */
  function SpellingIndex(s: string): (r: Option<nat>)
    ensures r.Some? ==> r.value < 12 && Spellings[r.value] == s
  {
    if s == "c" then Some(0) else if s == "db" then Some(1) else if s == "d" then Some(2)
    else if s == "eb" then Some(3) else if s == "e" then Some(4) else if s == "f" then Some(5)
    else if s == "gb" then Some(6) else if s == "g" then Some(7) else if s == "ab" then Some(8)
    else if s == "a" then Some(9) else if s == "bb" then Some(10) else if s == "b" then Some(11)
    else None
  }

  /** Reads a note name back into its MIDI number: the spelling is two
      characters exactly when the second one is the flat sign 'b'. */
  function ParseNoteName(s: string): Option<int>
  {
    var k := if |s| >= 2 && s[1] == 'b' then 2 else 1;
    if |s| < k then None
    else
      match SpellingIndex(s[..k])
      case None => None
      case Some(pc) =>
        match ParseInt(s[k..])
        case None => None
        case Some(octave) => Some((octave + 1) * 12 + pc)
  }

  /** Each spelling is one letter, optionally followed by the flat sign, and reads back to its index. */
  lemma SpellingFacts(pc: nat)
    requires pc < 12
    ensures 1 <= |Spellings[pc]| <= 2
    ensures |Spellings[pc]| == 2 ==> Spellings[pc][1] == 'b'
    ensures SpellingIndex(Spellings[pc]) == Some(pc)
  {
  }

  /** The octave part of a name starts with a minus sign or a digit, never with 'b'. */
  lemma OctaveStart(octave: int)
    ensures IntToString(octave)[0] != 'b'
  {
    if octave < 0 {
      assert IntToString(octave)[0] == '-';
    } else {
      assert IsDigit(NatToString(octave)[0]);
    }
  }

  /** Note names decode back to their MIDI numbers: pitch class `midi mod 12`,
      octave `midi div 12 - 1`. */
  lemma MidiToNoteRoundTrip(midi: int)
    ensures ParseNoteName(MidiToNote(midi)) == Some(midi)
  {
    var pc := midi % 12;
    var sp := Spellings[pc];
    var oct := IntToString(midi / 12 - 1);
    var name := sp + oct;
    SpellingFacts(pc);
    OctaveStart(midi / 12 - 1);
    IntToStringRoundTrip(midi / 12 - 1);
    if |sp| == 2 {
      assert name[1] == 'b';
    } else {
      assert name[1] == oct[0];
    }
    var k := |sp|;
    assert name[..k] == sp;
    assert name[k..] == oct;
  }

  /** Distinct MIDI numbers have distinct names. */
  lemma MidiToNoteInjective(a: int, b: int)
    requires MidiToNote(a) == MidiToNote(b)
    ensures a == b
  {
    MidiToNoteRoundTrip(a);
    MidiToNoteRoundTrip(b);
  }

  /** A name that can sit inside a quoted, space-separated Strudel pattern:
      no space, no double quote, no line break. */
  predicate PlainName(s: string)
  {
    ' ' !in s && '"' !in s && '\n' !in s
  }

  lemma SpellingIsLetters(pc: nat)
    requires pc < 12
    ensures forall k :: 0 <= k < |Spellings[pc]| ==> 'a' <= Spellings[pc][k] <= 'z'
  {
  }

  /** Note names are plain: letters, then digits with perhaps a minus sign. */
  lemma MidiToNotePlain(midi: int)
    ensures PlainName(MidiToNote(midi))
  {
    var sp := Spellings[midi % 12];
    var oct := IntToString(midi / 12 - 1);
    var name := sp + oct;
    SpellingIsLetters(midi % 12);
    IntToStringChars(midi / 12 - 1);
    forall k | 0 <= k < |name|
      ensures name[k] != ' ' && name[k] != '"' && name[k] != '\n'
    {
      if k >= |sp| {
        assert name[k] == oct[k - |sp|];
      }
    }
  }
}
