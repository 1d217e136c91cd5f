/** The decisions `AudioAnalyzer` takes on the numbers the audio library
    returns (tools/youtube_to_strudel.py): the tempo fallback of
    `analyze_tempo` and the key/mode heuristic of `analyze_key`. */
module Estimates {
  import opened PyNum

  /** `beat_track`'s tempo: a plain number, or an array in newer library versions. */
  datatype TempoReading = Scalar(value: real) | Vector(values: seq<real>)

  /** The tempo used when the array is empty. */
  const DefaultTempo: real := 120.0

  /** `analyze_tempo`: take the first array entry (120 if there is none) and round it. */
  function ResolveTempo(reading: TempoReading): (bpm: int)
    ensures reading.Scalar? ==> -0.5 <= reading.value - bpm as real <= 0.5
    ensures reading.Vector? && |reading.values| > 0 ==> -0.5 <= reading.values[0] - bpm as real <= 0.5
    ensures reading == Vector([]) ==> bpm == 120
    ensures reading.Scalar? && (reading.value - bpm as real == 0.5 || bpm as real - reading.value == 0.5) ==>
              bpm % 2 == 0
    ensures reading.Vector? && |reading.values| > 0
            && (reading.values[0] - bpm as real == 0.5 || bpm as real - reading.values[0] == 0.5) ==>
              bpm % 2 == 0
  {
    var tempo := match reading
      case Scalar(v) => v
      case Vector(vs) => if |vs| > 0 then vs[0] else DefaultTempo;
    RoundHalfEven(tempo)
  }

  /** A whole-number tempo is kept as it is. */
  lemma WholeTempoKept(k: int)
    ensures ResolveTempo(Scalar(k as real)) == k
    ensures ResolveTempo(Vector([k as real])) == k
  {
    RoundHalfEvenUnique(k as real, k);
  }

  /** Rounding can yield a zero tempo, which later divides `60.0 / bpm`. */
  lemma TempoCanRoundToZero()
    ensures ResolveTempo(Scalar(0.5)) == 0
  {
    RoundHalfEvenUnique(0.5, 0);
  }

  /** Any reading above one half gives a positive tempo. */
  lemma TempoPositive(reading: TempoReading)
    requires reading.Scalar? ==> reading.value > 0.5
    requires reading.Vector? && |reading.values| > 0 ==> reading.values[0] > 0.5
    ensures ResolveTempo(reading) > 0
  {
  }

  // ---------------------------------------------------------------------------
  // Key
  // ---------------------------------------------------------------------------

  datatype Mode = Major | Minor

  datatype Key = Key(root: nat, mode: Mode)

  /** `np.argmax`: the first index holding the largest value. */
  function ArgMax(xs: seq<real>): (i: nat)
    requires |xs| > 0
    ensures i < |xs|
    ensures forall j :: 0 <= j < |xs| ==> xs[j] <= xs[i]
    ensures forall j :: 0 <= j < i ==> xs[j] < xs[i]
  {
    if |xs| == 1 then 0
    else
      var k := ArgMax(xs[..|xs| - 1]);
      if xs[|xs| - 1] > xs[k] then |xs| - 1 else k
  }

  /** `analyze_key` on the 12-bin mean chroma vector: the root is the strongest
      bin; the mode is minor when the minor third is strictly stronger than the
      major third. */
  function DecideKey(chroma: seq<real>): (k: Key)
    requires |chroma| == 12
    ensures k.root < 12
    ensures forall j :: 0 <= j < 12 ==> chroma[j] <= chroma[k.root]
    ensures forall j :: 0 <= j < k.root ==> chroma[j] < chroma[k.root]
    ensures k.mode == Minor <==> chroma[(k.root + 3) % 12] > chroma[(k.root + 4) % 12]
  {
    var root := ArgMax(chroma);
    var majorThird := (root + 4) % 12;
    var minorThird := (root + 3) % 12;
    Key(root, if chroma[minorThird] > chroma[majorThird] then Minor else Major)
  }

  /** A flat profile (an all-zero one included) gives C major. */
  lemma FlatProfileIsCMajor(chroma: seq<real>)
    requires |chroma| == 12
    requires forall j :: 0 <= j < 12 ==> chroma[j] == chroma[0]
    ensures DecideKey(chroma) == Key(0, Major)
  {
  }

  /** The profile `chroma` moved up by `shift` semitones. */
  function Transpose(chroma: seq<real>, shift: nat): (r: seq<real>)
    requires |chroma| == 12
    ensures |r| == 12
  {
    seq(12, i requires 0 <= i < 12 => chroma[(i - shift) % 12])
  }

  /** A strictly strongest bin is the root. */
  lemma StrongestBinIsRoot(chroma: seq<real>, r: nat)
    requires |chroma| == 12 && r < 12
    requires forall j :: 0 <= j < 12 && j != r ==> chroma[j] < chroma[r]
    ensures DecideKey(chroma).root == r
  {
  }

  /** When one bin is strictly strongest, transposing the profile by `shift`
      semitones moves the root by the same interval and keeps the mode. */
  lemma DecideKeyTransposes(chroma: seq<real>, r: nat, shift: nat)
    requires |chroma| == 12 && r < 12 && shift < 12
    requires forall j :: 0 <= j < 12 && j != r ==> chroma[j] < chroma[r]
    ensures DecideKey(chroma).root == r
    ensures DecideKey(Transpose(chroma, shift)).root == (r + shift) % 12
    ensures DecideKey(Transpose(chroma, shift)).mode == DecideKey(chroma).mode
  {
    var t := Transpose(chroma, shift);
    var r' := (r + shift) % 12;
    TransposeAt(chroma, shift, r);
    forall j | 0 <= j < 12 && j != r'
      ensures t[j] < t[r']
    {
      ShiftBack(j, shift);
    }
    StrongestBinIsRoot(t, r');
    StrongestBinIsRoot(chroma, r);
    TransposeKeepsMode(chroma, shift, r);
  }

  /** Transposing keeps the comparison of the two thirds above the moved root. */
  lemma TransposeKeepsMode(chroma: seq<real>, shift: nat, r: nat)
    requires |chroma| == 12 && shift < 12 && r < 12
    ensures var t := Transpose(chroma, shift);
            var r' := (r + shift) % 12;
            (t[(r' + 3) % 12] > t[(r' + 4) % 12]) == (chroma[(r + 3) % 12] > chroma[(r + 4) % 12])
  {
    var r' := (r + shift) % 12;
    var a := (r + 3) % 12;
    var b := (r + 4) % 12;
    TransposeAt(chroma, shift, a);
    TransposeAt(chroma, shift, b);
    Mod12(r + shift);
    Mod12(r + 3);
    Mod12(r + 4);
    Mod12(a + shift);
    Mod12(b + shift);
    Mod12(r' + 3);
    Mod12(r' + 4);
  }

  /** Bin `j` of the transposed profile comes from a bin that moves back onto `j`. */
  lemma ShiftBack(j: nat, shift: nat)
    requires j < 12 && shift < 12
    ensures var i := (j - shift) % 12;
            0 <= i < 12 && (i + shift) % 12 == j
  {
    var i := (j - shift) % 12;
    assert i == j - shift || i == j - shift + 12;
    Mod12(i + shift);
  }

  lemma Mod12(x: int)
    requires 0 <= x < 24
    ensures x % 12 == if x < 12 then x else x - 12
  {
  }

  /** Bin `i` of the profile lands on bin `i + shift`. */
  lemma TransposeAt(chroma: seq<real>, shift: nat, i: nat)
    requires |chroma| == 12 && shift < 12 && i < 12
    ensures Transpose(chroma, shift)[(i + shift) % 12] == chroma[i]
  {
    Mod12(i + shift);
    var k := (i + shift) % 12;
    assert k - shift == i || k - shift == i - 12;
    assert (k - shift) % 12 == i;
  }
}
