/** The drum part of `StrudelGenerator._generate_drums`
    (tools/youtube_to_strudel.py): fold hit times into one 16-slot bar,
    group the bar into four beat tokens, and choose the drum stanza. */
module Drums {
  import opened Options
  import opened Text
  import opened PyNum

  const StepsPerBar: nat := 16

  /** Hit times in seconds for the three bands, as `analyze_drums` returns them. */
  datatype DrumHits = DrumHits(kick: seq<real>, snare: seq<real>, hihat: seq<real>)

  /** `beat_duration * 4` with `beat_duration = 60.0 / bpm`: one 4/4 bar, in seconds. */
  function BarLength(bpm: int): (b: real)
    requires bpm > 0
    ensures b > 0.0
    ensures b * bpm as real == 240.0
  {
    60.0 / bpm as real * 4.0
  }

  /** `min(4, int(duration / bar_duration))`: the whole bars observed, at most four. */
  function NumBars(duration: real, barLength: real): (n: nat)
    requires duration >= 0.0 && barLength > 0.0
    ensures n <= 4
    ensures n == 4 || n as real <= duration / barLength < n as real + 1.0
    ensures n < 4 ==> n as real <= duration / barLength < n as real + 1.0
    ensures n == 4 ==> duration / barLength >= 4.0
  {
    var whole := Trunc(duration / barLength);
    if whole < 4 then whole else 4
  }

  // ---------------------------------------------------------------------------
  // `hits_to_pattern`
  // ---------------------------------------------------------------------------

  /** The slot a hit lands on: `int(round((t % bar) / (bar / 16))) % 16`. */
  function StepOf(t: real, barLength: real): (s: nat)
    requires barLength > 0.0
    ensures s < StepsPerBar
    ensures var pos := FloorMod(t, barLength) / (barLength / 16.0);
            && 0.0 <= pos < 16.0
            && (-0.5 <= pos - s as real <= 0.5 || (s == 0 && 15.5 <= pos))
            && ((pos - s as real == 0.5 || s as real - pos == 0.5) ==> s % 2 == 0)
  {
    var position := FloorMod(t, barLength) / (barLength / 16.0);
    SlotPosition(barLength, FloorMod(t, barLength));
    WrappedSlot(position);
    RoundHalfEven(position) % 16
  }

  /** Rounding a position in [0, 16) and wrapping 16 to 0 gives the nearest
      slot, the even one on a tie. */
  lemma WrappedSlot(pos: real)
    requires 0.0 <= pos < 16.0
    ensures var s := RoundHalfEven(pos) % 16;
            && (-0.5 <= pos - s as real <= 0.5 || (s == 0 && 15.5 <= pos))
            && ((pos - s as real == 0.5 || s as real - pos == 0.5) ==> s % 2 == 0)
  {
    var n := RoundHalfEven(pos);
    assert 0 <= n <= 16;
    if n == 16 {
      assert n % 16 == 0;
    } else {
      assert n % 16 == n;
    }
  }

  /** The offset into the bar, measured in slots, lies in [0, 16). */
  lemma SlotPosition(m: real, r: real)
    requires m > 0.0 && 0.0 <= r < m
    ensures 0.0 <= r / (m / 16.0) < 16.0
  {
    ScaleBelow(m, r);
    var i := 1.0 / m;
    assert r / m == r * i;
    assert r / (m / 16.0) == 16.0 * (r * i);
  }

  /** The step is the nearest slot to the offset, the even one on a tie, with
      slot 16 wrapping round to step 0: the contract of `StepOf` singles it out. */
  lemma StepOfNearest(t: real, barLength: real, j: nat)
    requires barLength > 0.0 && j < StepsPerBar
    requires var pos := FloorMod(t, barLength) / (barLength / 16.0);
             || (-0.5 <= pos - j as real <= 0.5 && ((pos - j as real == 0.5 || j as real - pos == 0.5) ==> j % 2 == 0))
             || (j == 0 && 15.5 <= pos)
    ensures StepOf(t, barLength) == j
  {
    var pos := FloorMod(t, barLength) / (barLength / 16.0);
    SlotPosition(barLength, FloorMod(t, barLength));
    if -0.5 <= pos - j as real <= 0.5 && ((pos - j as real == 0.5 || j as real - pos == 0.5) ==> j % 2 == 0) {
      RoundHalfEvenUnique(pos, j);
    } else {
      RoundHalfEvenUnique(pos, 16);
    }
  }

  /** A hit on grid slot `j` of bar `k` lands on step `j`. */
  lemma StepOfGridSlot(k: int, j: nat, barLength: real)
    requires barLength > 0.0 && j < StepsPerBar
    ensures StepOf(k as real * barLength + j as real * (barLength / 16.0), barLength) == j
  {
    var slot := barLength / 16.0;
    var offset := j as real * slot;
    var t := k as real * barLength + offset;
    SlotOffset(j, barLength, slot, offset);
    FloorModUnique(t, barLength, k, offset);
    StepOfRemainder(t, barLength, offset, j);
    assert t == k as real * barLength + j as real * (barLength / 16.0);
  }

  /** A hit whose offset into its bar is exactly `j` slots lands on step `j`. */
  lemma StepOfRemainder(t: real, barLength: real, offset: real, j: nat)
    requires barLength > 0.0 && j < StepsPerBar
    requires FloorMod(t, barLength) == offset && offset / (barLength / 16.0) == j as real
    ensures StepOf(t, barLength) == j
  {
    RoundHalfEvenUnique(j as real, j);
  }

  lemma SlotOffset(j: nat, barLength: real, slot: real, offset: real)
    requires barLength > 0.0 && j < StepsPerBar && slot == barLength / 16.0 && offset == j as real * slot
    ensures 0.0 <= offset < barLength && offset / slot == j as real
  {
    assert slot > 0.0;
    var rest := 15.0 - j as real;
    assert rest * slot >= 0.0 by {
      assert rest >= 0.0;
    }
    assert rest * slot == 15.0 * slot - offset;
    assert offset >= 0.0;
    assert offset / slot == j as real by {
      assert offset == j as real * slot;
    }
  }

  /** The step repeats every bar: shifting a hit by whole bars keeps its step. */
  lemma StepOfPeriodic(t: real, k: int, barLength: real)
    requires barLength > 0.0
    ensures StepOf(t + k as real * barLength, barLength) == StepOf(t, barLength)
  {
    FloorModPeriodic(t, barLength, k);
  }

  /** How many of `hits` come before `limit` and land on slot `s`. */
  function CountAt(hits: seq<real>, s: nat, limit: real, barLength: real): nat
    requires barLength > 0.0
  {
    if |hits| == 0 then 0
    else (if hits[0] < limit && StepOf(hits[0], barLength) == s then 1 else 0)
         + CountAt(hits[1..], s, limit, barLength)
  }

  /** The counting loop of `hits_to_pattern`, continued from `counts`. */
  function Tally(counts: seq<nat>, hits: seq<real>, limit: real, barLength: real): (r: seq<nat>)
    requires |counts| == StepsPerBar && barLength > 0.0
    ensures |r| == StepsPerBar
    ensures forall s :: 0 <= s < StepsPerBar ==> r[s] == counts[s] + CountAt(hits, s, limit, barLength)
    decreases |hits|
  {
    if |hits| == 0 then counts
    else
      var step := StepOf(hits[0], barLength);
      var next := if hits[0] < limit then counts[step := counts[step] + 1] else counts;
      Tally(next, hits[1..], limit, barLength)
  }

  /** `max(1, num_bars // 2)`: hits a slot needs to be marked. */
  function Threshold(numBars: nat): (t: nat)
    ensures t >= 1
    ensures numBars >= 2 ==> 2 * t <= numBars < 2 * t + 2
    ensures numBars < 2 ==> t == 1
  {
    if numBars / 2 > 1 then numBars / 2 else 1
  }

  /** `hits_to_pattern`: slot `i` is 'x' when at least `Threshold(numBars)`
      hits before `numBars` bars land on it, '~' otherwise. */
  function HitsToPattern(hits: seq<real>, numBars: nat, barLength: real): (p: string)
    requires barLength > 0.0
    ensures |p| == StepsPerBar
    ensures forall i :: 0 <= i < StepsPerBar ==> p[i] == 'x' || p[i] == '~'
    ensures forall i :: 0 <= i < StepsPerBar ==>
              (p[i] == 'x' <==> CountAt(hits, i, numBars as real * barLength, barLength) >= Threshold(numBars))
  {
    var counts := Tally(seq(StepsPerBar, _ => 0), hits, numBars as real * barLength, barLength);
    var threshold := Threshold(numBars);
    seq(StepsPerBar, i requires 0 <= i < StepsPerBar => if counts[i] >= threshold then 'x' else '~')
  }

  /** The pattern is the one string of slots marked by the per-slot counts. */
  lemma PatternFromCounts(hits: seq<real>, numBars: nat, barLength: real, expected: string)
    requires barLength > 0.0 && |expected| == StepsPerBar
    requires forall i :: 0 <= i < StepsPerBar ==> expected[i] == 'x' || expected[i] == '~'
    requires forall i :: 0 <= i < StepsPerBar ==>
               (expected[i] == 'x' <==> CountAt(hits, i, numBars as real * barLength, barLength) >= Threshold(numBars))
    ensures HitsToPattern(hits, numBars, barLength) == expected
  {
  }

  lemma {:induction false} CountAtIgnoresLate(hits: seq<real>, late: seq<real>, s: nat, limit: real, barLength: real)
    requires barLength > 0.0
    requires forall j :: 0 <= j < |late| ==> late[j] >= limit
    ensures CountAt(hits + late, s, limit, barLength) == CountAt(hits, s, limit, barLength)
  {
    if |hits| == 0 {
      assert hits + late == late;
      CountAtNone(late, s, limit, barLength);
    } else {
      assert (hits + late)[1..] == hits[1..] + late;
      CountAtIgnoresLate(hits[1..], late, s, limit, barLength);
    }
  }

  lemma {:induction false} CountAtNone(hits: seq<real>, s: nat, limit: real, barLength: real)
    requires barLength > 0.0
    requires forall j :: 0 <= j < |hits| ==> hits[j] >= limit
    ensures CountAt(hits, s, limit, barLength) == 0
  {
    if |hits| > 0 {
      CountAtNone(hits[1..], s, limit, barLength);
    }
  }

  /** Hits at or after the end of the observed bars change nothing. */
  lemma LateHitsIgnored(hits: seq<real>, late: seq<real>, numBars: nat, barLength: real)
    requires barLength > 0.0
    requires forall j :: 0 <= j < |late| ==> late[j] >= numBars as real * barLength
    ensures HitsToPattern(hits + late, numBars, barLength) == HitsToPattern(hits, numBars, barLength)
  {
    var p := HitsToPattern(hits + late, numBars, barLength);
    var q := HitsToPattern(hits, numBars, barLength);
    forall i | 0 <= i < StepsPerBar
      ensures p[i] == q[i]
    {
      CountAtIgnoresLate(hits, late, i, numBars as real * barLength, barLength);
    }
  }

  /** With no whole bar observed every slot is a rest. */
  lemma NoBarsAllRests(hits: seq<real>, barLength: real)
    requires barLength > 0.0
    requires forall j :: 0 <= j < |hits| ==> hits[j] >= 0.0
    ensures HitsToPattern(hits, 0, barLength) == "~~~~~~~~~~~~~~~~"
  {
    var p := HitsToPattern(hits, 0, barLength);
    forall i | 0 <= i < StepsPerBar
      ensures p[i] == '~'
    {
      CountAtNone(hits, i, 0.0, barLength);
    }
  }

  // ---------------------------------------------------------------------------
  // `simplify_pattern`
  // ---------------------------------------------------------------------------

  /** The `subdivs` list of one beat: one "x" per hit slot. The source has
      separate branches for subdivisions 0, 2 and the others, all appending "x". */
  function Subdivisions(beat: string): (r: seq<string>)
    ensures |r| == Count(beat, 'x')
    ensures forall i :: 0 <= i < |r| ==> r[i] == "x"
  {
    if |beat| == 0 then []
    else (if beat[0] == 'x' then ["x"] else []) + Subdivisions(beat[1..])
  }

  /** The token for one four-slot beat. */
  function BeatToken(beat: string): string
  {
    if 'x' in beat then
      var subdivs := Subdivisions(beat);
      if |subdivs| > 0 then
        if |subdivs| == 1 then "x" else "[" + Join(subdivs, " ") + "]"
      else "~"
    else "~"
  }

  /** `simplify_pattern`: the four beat tokens joined by spaces. */
  function SimplifyPattern(p: string): string
    requires |p| == StepsPerBar
  {
    Join([BeatToken(p[0..4]), BeatToken(p[4..8]), BeatToken(p[8..12]), BeatToken(p[12..16])], " ")
  }

  /** `k` hits separated by spaces, "x x ... x". */
  function HitRun(k: nat): string
    requires k >= 1
  {
    if k == 1 then "x" else "x " + HitRun(k - 1)
  }

  /** The token for a beat with `k` hits, wherever they sit in the beat. */
  function HitToken(k: nat): string
  {
    if k == 0 then "~" else if k == 1 then "x" else "[" + HitRun(k) + "]"
  }

  /** The number of hits in each of the four beats. */
  function BeatCounts(p: string): (r: seq<nat>)
    requires |p| == StepsPerBar
    ensures |r| == 4
  {
    [Count(p[0..4], 'x'), Count(p[4..8], 'x'), Count(p[8..12], 'x'), Count(p[12..16], 'x')]
  }

  lemma {:induction false} JoinOfHits(xs: seq<string>)
    requires |xs| >= 1
    requires forall i :: 0 <= i < |xs| ==> xs[i] == "x"
    ensures Join(xs, " ") == HitRun(|xs|)
  {
    if |xs| > 1 {
      JoinOfHits(xs[1..]);
    }
  }

  /** A beat's token depends only on how many hits it holds. */
  lemma BeatTokenByCount(beat: string)
    ensures BeatToken(beat) == HitToken(Count(beat, 'x'))
  {
    CountZeroIffAbsent(beat, 'x');
    var subdivs := Subdivisions(beat);
    if |subdivs| > 1 {
      JoinOfHits(subdivs);
    }
  }

  lemma {:induction false} HitRunCount(k: nat)
    requires k >= 1
    ensures Count(HitRun(k), 'x') == k
    ensures '\n' !in HitRun(k) && ',' !in HitRun(k)
  {
    if k > 1 {
      HitRunCount(k - 1);
      CountAppend("x ", HitRun(k - 1), 'x');
    }
  }

  lemma HitTokenFacts(k: nat)
    ensures Count(HitToken(k), 'x') == k
    ensures '\n' !in HitToken(k) && ',' !in HitToken(k)
  {
    if k > 1 {
      HitRunCount(k);
      CountAppend("[", HitRun(k), 'x');
      CountAppend("[" + HitRun(k), "]", 'x');
    }
  }

  lemma SimplifyAsTokens(p: string)
    requires |p| == StepsPerBar
    ensures SimplifyPattern(p) == Join([HitToken(BeatCounts(p)[0]), HitToken(BeatCounts(p)[1]),
                                        HitToken(BeatCounts(p)[2]), HitToken(BeatCounts(p)[3])], " ")
  {
    BeatTokenByCount(p[0..4]);
    BeatTokenByCount(p[4..8]);
    BeatTokenByCount(p[8..12]);
    BeatTokenByCount(p[12..16]);
  }

  /** Simplifying keeps every hit: the 'x's of the text are the 'x's of the bar. */
  lemma SimplifyKeepsHits(p: string)
    requires |p| == StepsPerBar
    ensures Count(SimplifyPattern(p), 'x') == Count(p, 'x')
    ensures '\n' !in SimplifyPattern(p)
  {
    var c := BeatCounts(p);
    SimplifyAsTokens(p);
    HitTokenFacts(c[0]);
    HitTokenFacts(c[1]);
    HitTokenFacts(c[2]);
    HitTokenFacts(c[3]);
    JoinFourCount(HitToken(c[0]), HitToken(c[1]), HitToken(c[2]), HitToken(c[3]));
    BarCount(p);
  }

  /** Joining four tokens with spaces adds no hit and no line break. */
  lemma JoinFourCount(t0: string, t1: string, t2: string, t3: string)
    ensures var s := Join([t0, t1, t2, t3], " ");
            && Count(s, 'x') == Count(t0, 'x') + Count(t1, 'x') + Count(t2, 'x') + Count(t3, 'x')
            && ('\n' !in t0 && '\n' !in t1 && '\n' !in t2 && '\n' !in t3 ==> '\n' !in s)
  {
    assert [t0, t1, t2, t3][1..] == [t1, t2, t3];
    assert [t1, t2, t3][1..] == [t2, t3];
    JoinTwo(t2, t3, " ");
    assert Join([t0, t1, t2, t3], " ") == t0 + " " + (t1 + " " + (t2 + " " + t3));
    CountAppend(t2, " ", 'x');
    CountAppend(t2 + " ", t3, 'x');
    CountAppend(t1, " ", 'x');
    CountAppend(t1 + " ", t2 + " " + t3, 'x');
    CountAppend(t0, " ", 'x');
    CountAppend(t0 + " ", t1 + " " + (t2 + " " + t3), 'x');
  }

  /** The hits of a bar are the hits of its four beats. */
  lemma BarCount(p: string)
    requires |p| == StepsPerBar
    ensures var c := BeatCounts(p);
            Count(p, 'x') == c[0] + c[1] + c[2] + c[3]
  {
    assert p == p[0..4] + p[4..8] + p[8..12] + p[12..16];
    CountAppend(p[0..4], p[4..8], 'x');
    CountAppend(p[0..4] + p[4..8], p[8..12], 'x');
    CountAppend(p[0..4] + p[4..8] + p[8..12], p[12..16], 'x');
  }

  // ---------------------------------------------------------------------------
  // Reading a simplified pattern back
  // ---------------------------------------------------------------------------

  /** Reads the hits of a bracketed group after its '[': "x x ... x]". */
  function ReadGroup(s: string, n: nat): (r: Option<(nat, string)>)
    ensures r.Some? ==> |r.value.1| < |s|
    decreases |s|
  {
    if |s| >= 2 && s[0] == 'x' && s[1] == ' ' then ReadGroup(s[2..], n + 1)
    else if |s| >= 2 && s[0] == 'x' && s[1] == ']' then Some((n + 1, s[2..]))
    else None
  }

  /** Reads one beat token at the front of `s`: its hit count and the rest of `s`. */
  function ReadToken(s: string): (r: Option<(nat, string)>)
    ensures r.Some? ==> |r.value.1| < |s|
  {
    if |s| == 0 then None
    else if s[0] == '~' then Some((0, s[1..]))
    else if s[0] == 'x' then Some((1, s[1..]))
    else if s[0] == '[' then ReadGroup(s[1..], 0)
    else None
  }

  /** Reads space-separated beat tokens into their hit counts. */
  function ReadBeats(s: string): Option<seq<nat>>
    decreases |s|
  {
    match ReadToken(s)
    case None => None
    case Some((k, rest)) =>
      if |rest| == 0 then Some([k])
      else if rest[0] == ' ' then
        match ReadBeats(rest[1..])
        case None => None
        case Some(ks) => Some([k] + ks)
      else None
  }

  lemma {:induction false} ReadGroupRun(k: nat, n: nat, rest: string)
    requires k >= 1
    ensures ReadGroup(HitRun(k) + "]" + rest, n) == Some((n + k, rest))
  {
    var s := HitRun(k) + "]" + rest;
    if k == 1 {
      assert s[2..] == rest;
    } else {
      assert s[2..] == HitRun(k - 1) + "]" + rest;
      ReadGroupRun(k - 1, n + 1, rest);
    }
  }

  lemma ReadHitToken(k: nat, rest: string)
    ensures ReadToken(HitToken(k) + rest) == Some((k, rest))
  {
    var s := HitToken(k) + rest;
    if k > 1 {
      assert s[1..] == HitRun(k) + "]" + rest;
      ReadGroupRun(k, 0, rest);
    } else {
      assert s[1..] == rest;
    }
  }

  /** The tokens for a sequence of per-beat hit counts. */
  function HitTokens(ks: seq<nat>): (r: seq<string>)
    ensures |r| == |ks|
    ensures forall i :: 0 <= i < |ks| ==> r[i] == HitToken(ks[i])
  {
    seq(|ks|, i requires 0 <= i < |ks| => HitToken(ks[i]))
  }

  lemma {:induction false} ReadBeatsOfTokens(ks: seq<nat>)
    requires |ks| >= 1
    ensures ReadBeats(Join(HitTokens(ks), " ")) == Some(ks)
  {
    var tokens := HitTokens(ks);
    if |ks| == 1 {
      ReadHitToken(ks[0], "");
      assert HitToken(ks[0]) + "" == HitToken(ks[0]);
      assert Join(tokens, " ") == HitToken(ks[0]);
      assert ks == [ks[0]];
    } else {
      assert tokens[1..] == HitTokens(ks[1..]);
      var rest := Join(tokens[1..], " ");
      ReadBeatsOfTokens(ks[1..]);
      ReadHitToken(ks[0], " " + rest);
      assert Join(tokens, " ") == HitToken(ks[0]) + (" " + rest);
      assert (" " + rest)[1..] == rest;
      assert ks == [ks[0]] + ks[1..];
    }
  }

  /** The simplified text is exactly four tokens, and it can be read back
      into the number of hits of each beat. */
  lemma SimplifyReadsBack(p: string)
    requires |p| == StepsPerBar
    ensures ReadBeats(SimplifyPattern(p)) == Some(BeatCounts(p))
  {
    var c := BeatCounts(p);
    SimplifyAsTokens(p);
    assert HitTokens(c) == [HitToken(c[0]), HitToken(c[1]), HitToken(c[2]), HitToken(c[3])];
    ReadBeatsOfTokens(c);
  }

  // ---------------------------------------------------------------------------
  // The drum stanza
  // ---------------------------------------------------------------------------

  /** One voice of the drum `stack`. */
  datatype Voice =
    | Kick(pattern: string)    // a low square wave on the kick pattern
    | Snare(pattern: string)   // a high-passed square wave on the snare pattern
    | DenseHihat               // at least 12 hi-hat slots: eighth notes
    | SteadyHihat              // 8 to 11 hi-hat slots: quarter notes
    | Hihat(pattern: string)   // 1 to 7 hi-hat slots: the hi-hat pattern itself

  /** The Strudel text of a voice: the note, the bar pattern it plays on, then its sound. */
  function RenderVoice(v: Voice): string
  {
    match v
    case Kick(p) => "note(\"c2\")" + Struct(p) + KickSound
    case Snare(p) => "note(\"c3\")" + Struct(p) + SnareSound
    case DenseHihat => "note(\"c6*8\")" + HihatSound
    case SteadyHihat => "note(\"c6*4\")" + HihatSound
    case Hihat(p) => "note(\"c6\")" + Struct(p) + HihatSound
  }

  /** `.struct("<pattern>")`. */
  function Struct(p: string): string
  {
    ".struct(\"" + p + "\")"
  }

  const KickSound: string := ".s(\"square\")" + ".decay(0.08)" + ".lpf(150)" + ".gain(0.9)"
  const SnareSound: string := ".s(\"square\")" + ".hpf(400)" + ".decay(0.06)" + ".gain(0.7)"
  const HihatSound: string := ".s(\"pink\")" + ".hpf(8000)" + ".decay(0.02)" + ".gain(0.4)"

  /** The line emitted when no voice has a hit. */
  const FallbackKick: string := "note(\"c2*4\")" + ".s(\"square\")" + ".decay(0.08)" + ".lpf(150)"

  lemma SoundsOneLine()
    ensures '\n' !in KickSound && '\n' !in SnareSound && '\n' !in HihatSound
  {
    assert '\n' !in ".s(\"square\")" && '\n' !in ".decay(0.08)" && '\n' !in ".lpf(150)" && '\n' !in ".gain(0.9)";
    assert '\n' !in ".hpf(400)" && '\n' !in ".decay(0.06)" && '\n' !in ".gain(0.7)";
    assert '\n' !in ".s(\"pink\")" && '\n' !in ".hpf(8000)" && '\n' !in ".decay(0.02)" && '\n' !in ".gain(0.4)";
  }

  lemma SoundsWithoutComma()
    ensures ',' !in KickSound && ',' !in SnareSound && ',' !in HihatSound
  {
    assert ',' !in ".s(\"square\")" && ',' !in ".decay(0.08)" && ',' !in ".lpf(150)" && ',' !in ".gain(0.9)";
    assert ',' !in ".hpf(400)" && ',' !in ".decay(0.06)" && ',' !in ".gain(0.7)";
    assert ',' !in ".s(\"pink\")" && ',' !in ".hpf(8000)" && ',' !in ".decay(0.02)" && ',' !in ".gain(0.4)";
  }

  /** A voice's text has no comma when its pattern has none. */
  lemma RenderVoiceWithoutComma(v: Voice)
    requires !v.DenseHihat? && !v.SteadyHihat? ==> ',' !in v.pattern
    ensures ',' !in RenderVoice(v)
  {
    SoundsWithoutComma();
    match v
    case Kick(p) =>
      assert ',' !in "note(\"c2\")" && ',' !in Struct(p);
    case Snare(p) =>
      assert ',' !in "note(\"c3\")" && ',' !in Struct(p);
    case DenseHihat =>
      assert ',' !in "note(\"c6*8\")";
    case SteadyHihat =>
      assert ',' !in "note(\"c6*4\")";
    case Hihat(p) =>
      assert ',' !in "note(\"c6\")" && ',' !in Struct(p);
  }

  /** A voice's text is one line when its pattern is. */
  lemma RenderVoiceOneLine(v: Voice)
    requires !v.DenseHihat? && !v.SteadyHihat? ==> '\n' !in v.pattern
    ensures '\n' !in RenderVoice(v)
  {
    SoundsOneLine();
    match v
    case Kick(p) =>
      assert '\n' !in "note(\"c2\")" && '\n' !in Struct(p);
    case Snare(p) =>
      assert '\n' !in "note(\"c3\")" && '\n' !in Struct(p);
    case DenseHihat =>
      assert '\n' !in "note(\"c6*8\")";
    case SteadyHihat =>
      assert '\n' !in "note(\"c6*4\")";
    case Hihat(p) =>
      assert '\n' !in "note(\"c6\")" && '\n' !in Struct(p);
  }

  /** A bar pattern's text has a hit exactly when the pattern has one, and is
      one line without commas. */
  lemma PatternTextFacts(p: string)
    requires |p| == StepsPerBar
    ensures 'x' in SimplifyPattern(p) <==> 'x' in p
    ensures '\n' !in SimplifyPattern(p) && ',' !in SimplifyPattern(p)
  {
    SimplifyKeepsHits(p);
    CountZeroIffAbsent(p, 'x');
    CountZeroIffAbsent(SimplifyPattern(p), 'x');
    PatternWithoutComma(p);
  }

  lemma PatternWithoutComma(p: string)
    requires |p| == StepsPerBar
    ensures ',' !in SimplifyPattern(p)
  {
    var c := BeatCounts(p);
    SimplifyAsTokens(p);
    var tokens := [HitToken(c[0]), HitToken(c[1]), HitToken(c[2]), HitToken(c[3])];
    HitTokenFacts(c[0]);
    HitTokenFacts(c[1]);
    HitTokenFacts(c[2]);
    HitTokenFacts(c[3]);
    JoinExcludes(tokens, " ", ',');
  }

  /** The kick entry of `drum_parts`: present when the kick pattern has a hit. */
  function KickVoices(kick: string): (r: seq<Voice>)
    requires |kick| == StepsPerBar
    ensures |r| <= 1 && forall v :: v in r ==> v == Kick(SimplifyPattern(kick))
    ensures |r| == 1 <==> 'x' in kick
  {
    PatternTextFacts(kick);
    var text := SimplifyPattern(kick);
    if 'x' in text then [Kick(text)] else []
  }

  /** The snare entry of `drum_parts`: present when the snare pattern has a hit. */
  function SnareVoices(snare: string): (r: seq<Voice>)
    requires |snare| == StepsPerBar
    ensures |r| <= 1 && forall v :: v in r ==> v == Snare(SimplifyPattern(snare))
    ensures |r| == 1 <==> 'x' in snare
  {
    PatternTextFacts(snare);
    var text := SimplifyPattern(snare);
    if 'x' in text then [Snare(text)] else []
  }

  /** The hi-hat entry of `drum_parts`, chosen by the number of hi-hat slots. */
  function HihatVoices(hihat: string): (r: seq<Voice>)
    requires |hihat| == StepsPerBar
    ensures |r| <= 1
    ensures r == [DenseHihat] <==> Count(hihat, 'x') >= 12
    ensures r == [SteadyHihat] <==> 8 <= Count(hihat, 'x') < 12
    ensures r == [Hihat(SimplifyPattern(hihat))] <==> 1 <= Count(hihat, 'x') < 8
    ensures |r| == 0 <==> 'x' !in hihat
  {
    PatternTextFacts(hihat);
    CountZeroIffAbsent(hihat, 'x');
    var hits := Count(hihat, 'x');
    var text := SimplifyPattern(hihat);
    if hits >= 12 then [DenseHihat]
    else if hits >= 8 then [SteadyHihat]
    else if 'x' in text then [Hihat(text)]
    else []
  }

  /** The band a voice belongs to, in the order the source appends them. */
  function Band(v: Voice): nat
  {
    match v
    case Kick(_) => 0
    case Snare(_) => 1
    case _ => 2
  }

  /** The `drum_parts` list for the three bar patterns: the kick voice when the
      kick pattern has a hit, then the snare voice when the snare pattern has
      one, then the hi-hat voice chosen by `HihatVoices`. */
  function DrumParts(kick: string, snare: string, hihat: string): (r: seq<Voice>)
    requires |kick| == StepsPerBar && |snare| == StepsPerBar && |hihat| == StepsPerBar
    ensures |r| <= 3
    ensures |r| == 0 <==> 'x' !in kick && 'x' !in snare && 'x' !in hihat
    ensures forall i, j :: 0 <= i < j < |r| ==> Band(r[i]) < Band(r[j])
    ensures Kick(SimplifyPattern(kick)) in r <==> 'x' in kick
    ensures Snare(SimplifyPattern(snare)) in r <==> 'x' in snare
    ensures forall v :: v in HihatVoices(hihat) ==> v in r
    ensures forall v :: v in r ==> v == Kick(SimplifyPattern(kick)) || v == Snare(SimplifyPattern(snare)) || v in HihatVoices(hihat)
  {
    var k, s, h := KickVoices(kick), SnareVoices(snare), HihatVoices(hihat);
    HihatBand(hihat);
    PartsInOrder(k, s, h);
    StackedMembers(k, s, h, Kick(SimplifyPattern(kick)), Snare(SimplifyPattern(snare)));
    k + s + h
  }

  /** Which voices a kick part, a snare part and a hi-hat part stack into. */
  lemma StackedMembers(k: seq<Voice>, s: seq<Voice>, h: seq<Voice>, kv: Voice, sv: Voice)
    requires |k| <= 1 && forall v :: v in k ==> v == kv
    requires |s| <= 1 && forall v :: v in s ==> v == sv
    requires Band(kv) == 0 && Band(sv) == 1 && forall v :: v in h ==> Band(v) == 2
    ensures kv in k + s + h <==> |k| == 1
    ensures sv in k + s + h <==> |s| == 1
    ensures forall v :: v in h ==> v in k + s + h
    ensures forall v :: v in k + s + h ==> v == kv || v == sv || v in h
  {
    assert forall v :: v in k + s + h <==> v in k || v in s || v in h;
    if |k| == 1 {
      assert k[0] in k;
      assert (k + s + h)[0] == k[0] == kv;
    }
    if |s| == 1 {
      assert s[0] in s;
      assert (k + s + h)[|k|] == s[0] == sv;
    }
  }

  lemma HihatBand(hihat: string)
    requires |hihat| == StepsPerBar
    ensures forall v :: v in HihatVoices(hihat) ==> Band(v) == 2
  {
    var h := HihatVoices(hihat);
    if |h| == 1 {
      CountZeroIffAbsent(hihat, 'x');
      assert h == [DenseHihat] || h == [SteadyHihat] || h == [Hihat(SimplifyPattern(hihat))];
    }
  }

  /** At most one kick, then at most one snare, then at most one hi-hat: the bands strictly increase. */
  lemma PartsInOrder(k: seq<Voice>, s: seq<Voice>, h: seq<Voice>)
    requires |k| <= 1 && |s| <= 1 && |h| <= 1
    requires forall v :: v in k ==> Band(v) == 0
    requires forall v :: v in s ==> Band(v) == 1
    requires forall v :: v in h ==> Band(v) == 2
    ensures var r := k + s + h;
            forall i, j :: 0 <= i < j < |r| ==> Band(r[i]) < Band(r[j])
  {
    var r := k + s + h;
    forall i, j | 0 <= i < j < |r|
      ensures Band(r[i]) < Band(r[j])
    {
      BandOfPart(k, s, h, i);
      BandOfPart(k, s, h, j);
    }
  }

  /** The band of a stacked voice is the band of the part it came from. */
  lemma BandOfPart(k: seq<Voice>, s: seq<Voice>, h: seq<Voice>, i: nat)
    requires forall v :: v in k ==> Band(v) == 0
    requires forall v :: v in s ==> Band(v) == 1
    requires forall v :: v in h ==> Band(v) == 2
    requires i < |k + s + h|
    ensures Band((k + s + h)[i]) == if i < |k| then 0 else if i < |k| + |s| then 1 else 2
  {
    var r := k + s + h;
    if i < |k| {
      assert r[i] == k[i];
    } else if i < |k| + |s| {
      assert r[i] == s[i - |k|];
    } else {
      assert r[i] == h[i - |k| - |s|];
    }
  }

  /** Each voice of `drum_parts` is one line of text. */
  lemma DrumPartsOneLine(kick: string, snare: string, hihat: string)
    requires |kick| == StepsPerBar && |snare| == StepsPerBar && |hihat| == StepsPerBar
    ensures forall v :: v in DrumParts(kick, snare, hihat) ==> '\n' !in RenderVoice(v)
  {
    var k, s, h := KickVoices(kick), SnareVoices(snare), HihatVoices(hihat);
    PatternTextFacts(kick);
    PatternTextFacts(snare);
    forall v | v in k + s
      ensures '\n' !in RenderVoice(v)
    {
      RenderVoiceOneLine(v);
    }
    HihatOneLine(hihat);
  }

  lemma HihatOneLine(hihat: string)
    requires |hihat| == StepsPerBar
    ensures forall v :: v in HihatVoices(hihat) ==> '\n' !in RenderVoice(v)
  {
    var h := HihatVoices(hihat);
    if |h| == 1 {
      PatternTextFacts(hihat);
      CountZeroIffAbsent(hihat, 'x');
      assert h == [DenseHihat] || h == [SteadyHihat] || h == [Hihat(SimplifyPattern(hihat))];
      RenderVoiceOneLine(h[0]);
    }
  }

  /** The rendered voices, in order. */
  function RenderVoices(vs: seq<Voice>): (r: seq<string>)
    ensures |r| == |vs|
    ensures forall i :: 0 <= i < |vs| ==> r[i] == RenderVoice(vs[i])
  {
    seq(|vs|, i requires 0 <= i < |vs| => RenderVoice(vs[i]))
  }

  /** The second line of the stanza: the stacked voices, or the fallback kick. */
  function DrumLine(voices: seq<Voice>): (r: string)
    ensures r == FallbackKick <==> |voices| == 0
  {
    assert FallbackKick[0] == 'n';
    if |voices| > 0 then "stack(" + Join(RenderVoices(voices), ", ") + ")" else FallbackKick
  }

  lemma DrumLineOneLine(voices: seq<Voice>)
    requires forall v :: v in voices ==> '\n' !in RenderVoice(v)
    ensures '\n' !in DrumLine(voices)
  {
    assert '\n' !in FallbackKick;
    var rendered := RenderVoices(voices);
    forall i | 0 <= i < |rendered|
      ensures '\n' !in rendered[i]
    {
      assert voices[i] in voices;
    }
    JoinExcludes(rendered, ", ", '\n');
  }

  // ---------------------------------------------------------------------------
  // Reading the `stack(...)` line back
  // ---------------------------------------------------------------------------

  /** Each string with a space in front. */
  function Indent(xs: seq<string>): (r: seq<string>)
    ensures |r| == |xs|
    ensures forall i :: 0 <= i < |xs| ==> r[i] == " " + xs[i]
  {
    seq(|xs|, i requires 0 <= i < |xs| => " " + xs[i])
  }

  /** Drops the space that follows each comma of a `", "`-joined list. */
  function Unindent(pieces: seq<string>): (r: seq<string>)
    ensures |r| == |pieces|
  {
    seq(|pieces|, i requires 0 <= i < |pieces| =>
      if i > 0 && |pieces[i]| > 0 && pieces[i][0] == ' ' then pieces[i][1..] else pieces[i])
  }

  /** Reads the voice texts out of a `stack(...)` line. */
  function ReadStack(line: string): Option<seq<string>>
  {
    if |line| >= 7 && line[..6] == "stack(" && line[|line| - 1] == ')' then
      Some(Unindent(Split(line[6..|line| - 1], ',')))
    else None
  }

  /** `", ".join(ys)` with a space in front is `",".join` of the indented strings. */
  lemma {:induction false} JoinIndented(ys: seq<string>)
    requires |ys| >= 1
    ensures " " + Join(ys, ", ") == Join(Indent(ys), ",")
  {
    if |ys| > 1 {
      JoinIndented(ys[1..]);
      assert Indent(ys)[1..] == Indent(ys[1..]);
      JoinCons(ys[0], ys[1..], ", ");
      JoinCons(" " + ys[0], Indent(ys[1..]), ",");
      assert ys == [ys[0]] + ys[1..];
      assert Indent(ys) == [" " + ys[0]] + Indent(ys[1..]);
    }
  }

  /** `", ".join(xs)` is `",".join` of the first string and the indented rest. */
  lemma JoinCommaSpace(xs: seq<string>)
    requires |xs| >= 1
    ensures Join(xs, ", ") == Join([xs[0]] + Indent(xs[1..]), [','])
  {
    if |xs| > 1 {
      var rest := Join(xs[1..], ", ");
      assert Join(xs, ", ") == xs[0] + ", " + rest by {
        JoinCons(xs[0], xs[1..], ", ");
        assert xs == [xs[0]] + xs[1..];
      }
      assert Join([xs[0]] + Indent(xs[1..]), [',']) == xs[0] + [','] + (" " + rest) by {
        JoinIndented(xs[1..]);
        JoinCons(xs[0], Indent(xs[1..]), [',']);
      }
      CommaSpaceRegroup(xs[0], rest);
    }
  }

  lemma CommaSpaceRegroup(a: string, b: string)
    ensures a + ", " + b == a + [','] + (" " + b)
  {
  }

  /** The pieces of a `", "`-joined list split at the commas. */
  lemma CommaSpaceSplit(xs: seq<string>)
    requires |xs| >= 1
    requires forall i :: 0 <= i < |xs| ==> ',' !in xs[i]
    ensures Unindent(Split(Join(xs, ", "), ',')) == xs
  {
    var pieces := [xs[0]] + Indent(xs[1..]);
    JoinCommaSpace(xs);
    forall i | 0 <= i < |pieces|
      ensures ',' !in pieces[i]
    {
      if i > 0 {
        assert pieces[i] == " " + xs[i];
      }
    }
    SplitJoin(pieces, ',');
    UnindentIndented(xs, pieces);
  }

  lemma UnindentIndented(xs: seq<string>, pieces: seq<string>)
    requires |xs| >= 1 && pieces == [xs[0]] + Indent(xs[1..])
    ensures Unindent(pieces) == xs
  {
    forall i | 0 <= i < |xs|
      ensures Unindent(pieces)[i] == xs[i]
    {
      if i > 0 {
        assert pieces[i] == " " + xs[i];
        assert pieces[i][1..] == xs[i];
      }
    }
  }

  /** A stack of voices reads back to the texts of those voices, in order. */
  lemma StackReadsBack(voices: seq<Voice>)
    requires |voices| > 0
    requires forall v :: v in voices ==> ',' !in RenderVoice(v)
    ensures ReadStack(DrumLine(voices)) == Some(RenderVoices(voices))
  {
    var rendered := RenderVoices(voices);
    forall i | 0 <= i < |rendered|
      ensures ',' !in rendered[i]
    {
      assert voices[i] in voices;
    }
    var body := Join(rendered, ", ");
    var line := "stack(" + body + ")";
    assert line[..6] == "stack(" && line[6..|line| - 1] == body;
    CommaSpaceSplit(rendered);
  }

  /** Every voice of `drum_parts` has a comma-free text. */
  lemma DrumPartsWithoutComma(kick: string, snare: string, hihat: string)
    requires |kick| == StepsPerBar && |snare| == StepsPerBar && |hihat| == StepsPerBar
    ensures forall v :: v in DrumParts(kick, snare, hihat) ==> ',' !in RenderVoice(v)
  {
    PatternTextFacts(kick);
    PatternTextFacts(snare);
    PatternTextFacts(hihat);
    var h := HihatVoices(hihat);
    if |h| == 1 {
      CountZeroIffAbsent(hihat, 'x');
      assert h == [DenseHihat] || h == [SteadyHihat] || h == [Hihat(SimplifyPattern(hihat))];
    }
    forall v | v in DrumParts(kick, snare, hihat)
      ensures ',' !in RenderVoice(v)
    {
      RenderVoiceWithoutComma(v);
    }
  }

  /** The drum stanza for three bar patterns: a "// Drums" line, then the drum line. */
  function DrumStanza(kick: string, snare: string, hihat: string): (r: string)
    requires |kick| == StepsPerBar && |snare| == StepsPerBar && |hihat| == StepsPerBar
    ensures |Split(r, '\n')| == 2 && Split(r, '\n')[0] == "// Drums"
    ensures Split(r, '\n')[1] == FallbackKick <==> 'x' !in kick && 'x' !in snare && 'x' !in hihat
  {
    var voices := DrumParts(kick, snare, hihat);
    var line := DrumLine(voices);
    DrumPartsOneLine(kick, snare, hihat);
    DrumLineOneLine(voices);
    SplitJoin(["// Drums", line], '\n');
    Join(["// Drums", line], "\n")
  }

  /** `_generate_drums`: bar patterns over the first (at most four) bars, then the stanza. */
  function GenerateDrums(hits: DrumHits, bpm: int, duration: real): (r: string)
    requires bpm > 0 && duration >= 0.0
    ensures |Split(r, '\n')| == 2 && Split(r, '\n')[0] == "// Drums"
    ensures var bar := BarLength(bpm);
            var n := NumBars(duration, bar);
            Split(r, '\n')[1] == FallbackKick <==>
              'x' !in HitsToPattern(hits.kick, n, bar) && 'x' !in HitsToPattern(hits.snare, n, bar)
              && 'x' !in HitsToPattern(hits.hihat, n, bar)
  {
    var barLength := BarLength(bpm);
    var numBars := NumBars(duration, barLength);
    DrumStanza(HitsToPattern(hits.kick, numBars, barLength),
               HitsToPattern(hits.snare, numBars, barLength),
               HitsToPattern(hits.hihat, numBars, barLength))
  }

  /** When some band has a hit, the second line of the stanza is a `stack` of
      the `drum_parts` voices, in order. */
  lemma DrumStanzaVoices(kick: string, snare: string, hihat: string)
    requires |kick| == StepsPerBar && |snare| == StepsPerBar && |hihat| == StepsPerBar
    requires 'x' in kick || 'x' in snare || 'x' in hihat
    ensures ReadStack(Split(DrumStanza(kick, snare, hihat), '\n')[1]) == Some(RenderVoices(DrumParts(kick, snare, hihat)))
  {
    StanzaSecondLine(kick, snare, hihat);
    DrumPartsWithoutComma(kick, snare, hihat);
    StackReadsBack(DrumParts(kick, snare, hihat));
  }

  lemma StanzaSecondLine(kick: string, snare: string, hihat: string)
    requires |kick| == StepsPerBar && |snare| == StepsPerBar && |hihat| == StepsPerBar
    ensures Split(DrumStanza(kick, snare, hihat), '\n')[1] == DrumLine(DrumParts(kick, snare, hihat))
  {
    var voices := DrumParts(kick, snare, hihat);
    DrumPartsOneLine(kick, snare, hihat);
    DrumLineOneLine(voices);
    TitledLine(DrumLine(voices));
  }

  lemma TitledLine(line: string)
    requires '\n' !in line
    ensures |Split(Join(["// Drums", line], "\n"), '\n')| == 2
    ensures Split(Join(["// Drums", line], "\n"), '\n')[1] == line
  {
    SplitJoin(["// Drums", line], '\n');
  }

  /** The drum stanza of `_generate_drums` stacks the voices of the three bands'
      bar patterns, when one of them has a hit. */
  lemma GenerateDrumsVoices(hits: DrumHits, bpm: int, duration: real)
    requires bpm > 0 && duration >= 0.0
    ensures var bar := BarLength(bpm);
            var n := NumBars(duration, bar);
            var kick, snare, hihat := HitsToPattern(hits.kick, n, bar), HitsToPattern(hits.snare, n, bar),
                                      HitsToPattern(hits.hihat, n, bar);
            'x' in kick || 'x' in snare || 'x' in hihat ==>
              ReadStack(Split(GenerateDrums(hits, bpm, duration), '\n')[1]) == Some(RenderVoices(DrumParts(kick, snare, hihat)))
  {
    var bar := BarLength(bpm);
    var n := NumBars(duration, bar);
    var kick, snare, hihat := HitsToPattern(hits.kick, n, bar), HitsToPattern(hits.snare, n, bar),
                              HitsToPattern(hits.hihat, n, bar);
    if 'x' in kick || 'x' in snare || 'x' in hihat {
      DrumStanzaVoices(kick, snare, hihat);
    }
  }

  /** No slot of a band reaches the threshold within the first `limit` seconds. */
  predicate Quiet(hits: seq<real>, limit: real, threshold: nat, barLength: real)
    requires barLength > 0.0
  {
    forall s :: 0 <= s < StepsPerBar ==> CountAt(hits, s, limit, barLength) < threshold
  }

  /** A bar pattern has no hit exactly when its band is quiet. */
  lemma NoHitIffQuiet(hits: seq<real>, numBars: nat, barLength: real, limit: real)
    requires barLength > 0.0 && limit == numBars as real * barLength
    ensures 'x' !in HitsToPattern(hits, numBars, barLength) <==> Quiet(hits, limit, Threshold(numBars), barLength)
  {
    var p := HitsToPattern(hits, numBars, barLength);
    if 'x' in p {
      var s :| 0 <= s < |p| && p[s] == 'x';
      assert CountAt(hits, s, limit, barLength) >= Threshold(numBars);
    } else {
      forall s | 0 <= s < StepsPerBar
        ensures CountAt(hits, s, limit, barLength) < Threshold(numBars)
      {
        assert p[s] != 'x';
      }
    }
  }


}

module DrumExamples {
  import opened PyNum
  import Text
  import opened Drums

  lemma StepsOfWholeSeconds()
    ensures StepOf(0.0, 2.0) == 0 && StepOf(2.0, 2.0) == 0 && StepOf(4.0, 2.0) == 0 && StepOf(6.0, 2.0) == 0
    ensures StepOf(1.0, 2.0) == 8 && StepOf(3.0, 2.0) == 8 && StepOf(5.0, 2.0) == 8 && StepOf(7.0, 2.0) == 8
  {
    RoundHalfEvenUnique(0.0, 0);
    RoundHalfEvenUnique(8.0, 8);
  }

  lemma {:induction false} CountAtAppend(a: seq<real>, b: seq<real>, s: nat, limit: real, barLength: real)
    requires barLength > 0.0
    ensures CountAt(a + b, s, limit, barLength) == CountAt(a, s, limit, barLength) + CountAt(b, s, limit, barLength)
  {
    if |a| == 0 {
      assert a + b == b;
    } else {
      assert (a + b)[1..] == a[1..] + b;
      CountAtAppend(a[1..], b, s, limit, barLength);
    }
  }

  /** Two hits one second apart, starting on a bar line of a 2-second bar:
      the first lands on slot 0 and the second on slot 8. */
  lemma CountOfBeatPair(t: real, s: nat)
    requires t == 0.0 || t == 2.0 || t == 4.0 || t == 6.0
    ensures CountAt([t, t + 1.0], s, 8.0, 2.0) == if s == 0 || s == 8 then 1 else 0
  {
    StepsOfWholeSeconds();
    assert StepOf(t, 2.0) == 0 && StepOf(t + 1.0, 2.0) == 8;
    var pair := [t, t + 1.0];
    assert pair[1..] == [t + 1.0];
    assert CountAt([t + 1.0], s, 8.0, 2.0) == (if s == 8 then 1 else 0) + CountAt([], s, 8.0, 2.0);
    assert CountAt(pair, s, 8.0, 2.0) == (if s == 0 then 1 else 0) + CountAt([t + 1.0], s, 8.0, 2.0);
  }

  /** A kick on each whole second of the first eight seconds. At 120 bpm a bar
      lasts two seconds and holds four half-second beats, so these are beats 1
      and 3 of each of the four bars: eight hits out of sixteen beats. */
  const WholeSeconds: seq<real> := [0.0, 1.0, 2.0, 3.0, 4.0, 5.0, 6.0, 7.0]

  /** The bar with hits on its two half-bar slots. */
  const HalfBarHits: string := seq(16, i => if i == 0 || i == 8 then 'x' else '~')

  lemma WholeSecondsCounts(i: nat)
    ensures CountAt(WholeSeconds, i, 8.0, 2.0) == if i == 0 || i == 8 then 4 else 0
  {
    assert WholeSeconds == [0.0, 1.0] + [2.0, 3.0] + ([4.0, 5.0] + [6.0, 7.0]);
    CountOfBeatPair(0.0, i);
    CountOfBeatPair(2.0, i);
    CountOfBeatPair(4.0, i);
    CountOfBeatPair(6.0, i);
    CountAtAppend([0.0, 1.0], [2.0, 3.0], i, 8.0, 2.0);
    CountAtAppend([4.0, 5.0], [6.0, 7.0], i, 8.0, 2.0);
    CountAtAppend([0.0, 1.0] + [2.0, 3.0], [4.0, 5.0] + [6.0, 7.0], i, 8.0, 2.0);
  }

  /** Hits that reach the threshold on the two half-bar slots and nowhere else give `HalfBarHits`. */
  lemma HalfBarPattern(hits: seq<real>, numBars: nat, barLength: real, limit: real)
    requires barLength > 0.0 && limit == numBars as real * barLength
    requires forall i :: 0 <= i < StepsPerBar ==>
               (CountAt(hits, i, limit, barLength) >= Threshold(numBars) <==> i == 0 || i == 8)
    ensures HitsToPattern(hits, numBars, barLength) == HalfBarHits
  {
    PatternFromCounts(hits, numBars, barLength, HalfBarHits);
  }

  lemma WholeSecondsPattern()
    ensures HitsToPattern(WholeSeconds, 4, 2.0) == HalfBarHits
  {
    assert Threshold(4) == 2;
    forall i | 0 <= i < StepsPerBar
      ensures CountAt(WholeSeconds, i, 8.0, 2.0) >= 2 <==> i == 0 || i == 8
    {
      WholeSecondsCounts(i);
    }
    HalfBarPattern(WholeSeconds, 4, 2.0, 8.0);
  }

  lemma HalfBarHitsText()
    ensures SimplifyPattern(HalfBarHits) == "x ~ x ~"
  {
    var p := HalfBarHits;
    assert p[0..4] == "x~~~" && p[4..8] == "~~~~" && p[8..12] == "x~~~" && p[12..16] == "~~~~";
    HalfBarText(p, "x~~~", "~~~~");
  }

  /** A bar whose first and third beats are "x~~~" and whose other beats are empty reads "x ~ x ~". */
  lemma HalfBarText(p: string, hit: string, rest: string)
    requires |p| == StepsPerBar && hit == "x~~~" && rest == "~~~~"
    requires p[0..4] == hit && p[4..8] == rest && p[8..12] == hit && p[12..16] == rest
    ensures SimplifyPattern(p) == "x ~ x ~"
  {
    BeatTokenByCount(hit);
    BeatTokenByCount(rest);
    assert hit == "x" + rest[1..];
    assert 'x' !in rest && 'x' !in rest[1..];
    Text.CountZeroIffAbsent(rest, 'x');
    Text.CountZeroIffAbsent(rest[1..], 'x');
    Text.CountAppend("x", rest[1..], 'x');
    Text.JoinCons("x", ["~", "x", "~"], " ");
    Text.JoinCons("~", ["x", "~"], " ");
    Text.JoinTwo("x", "~", " ");
    assert ["x", "~", "x", "~"] == ["x"] + ["~", "x", "~"];
    assert ["~", "x", "~"] == ["~"] + ["x", "~"];
  }

  /** At 120 bpm over eight seconds, kicks on the whole seconds (beats 1 and 3
      of each bar) fold onto the two half-bar slots and read "x ~ x ~". */
  lemma KickOnWholeSeconds()
    ensures var bar := BarLength(120);
            SimplifyPattern(HitsToPattern(WholeSeconds, NumBars(8.0, bar), bar)) == "x ~ x ~"
  {
    var bar := BarLength(120);
    assert bar == 2.0;
    assert NumBars(8.0, bar) == 4;
    WholeSecondsPattern();
    HalfBarHitsText();
  }

  /** `max(1, n // 2)` over four bars: a slot hit in two of the bars is marked,
      a slot hit in only one is not. */
  lemma MajorityOfFourBars()
    ensures var p := HitsToPattern([0.0, 2.0, 5.0], 4, 2.0);
            p[0] == 'x' && p[8] == '~'
  {
    StepsOfWholeSeconds();
    assert Threshold(4) == 2;
    var hits := [0.0, 2.0, 5.0];
    assert hits[1..] == [2.0, 5.0] && hits[1..][1..] == [5.0] && [5.0][1..] == [];
    assert CountAt(hits, 0, 8.0, 2.0) == 2;
    assert CountAt(hits, 8, 8.0, 2.0) == 1;
  }
}
