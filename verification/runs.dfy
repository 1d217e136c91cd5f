/** Runs of equal neighbours in a sequence, and the two ways the converter
    removes them: the look-behind loop the source writes (`DropRepeats`) and
    a look-ahead reference definition (`CollapseRuns`). */
module Runs {
  import opened Options

  /** No element equals the one right before it. */
  predicate NoAdjacentRepeats<T(==)>(xs: seq<T>)
  {
    forall i :: 0 < i < |xs| ==> xs[i - 1] != xs[i]
  }

  /** `xs` can be obtained from `ys` by deleting elements: same order, same values. */
  predicate IsSubsequence<T(==)>(xs: seq<T>, ys: seq<T>)
    decreases |ys|
  {
    if |xs| == 0 then true
    else if |ys| == 0 then false
    else if xs[0] == ys[0] then IsSubsequence(xs[1..], ys[1..])
    else IsSubsequence(xs, ys[1..])
  }

  /** Each maximal run of equal neighbours shrunk to one element. */
  function CollapseRuns<T(==)>(xs: seq<T>): (r: seq<T>)
    ensures |r| <= |xs|
    ensures |r| == 0 <==> |xs| == 0
    ensures |xs| > 0 ==> r[0] == xs[0]
    ensures NoAdjacentRepeats(r)
  {
    if |xs| <= 1 then xs
    else if xs[0] == xs[1] then CollapseRuns(xs[1..])
    else [xs[0]] + CollapseRuns(xs[1..])
  }

  /** The source's loop: keep an element unless it equals the last one kept,
      starting from `last` (`None` when nothing has been kept yet). */
  function DropRepeats<T(==)>(xs: seq<T>, last: Option<T>): seq<T>
  {
    if |xs| == 0 then []
    else if last == Some(xs[0]) then DropRepeats(xs[1..], last)
    else [xs[0]] + DropRepeats(xs[1..], Some(xs[0]))
  }

  /** One step of the loop. */
  lemma DropRepeatsCons<T>(x: T, xs: seq<T>, last: Option<T>)
    ensures DropRepeats([x] + xs, last)
         == if last == Some(x) then DropRepeats(xs, last) else [x] + DropRepeats(xs, Some(x))
  {
    assert ([x] + xs)[0] == x;
    assert ([x] + xs)[1..] == xs;
  }

  /** The loop and the reference agree: starting after `a` keeps what
      collapsing `[a] + xs` keeps, minus the leading `a`. */
  lemma {:induction false} DropRepeatsAfter<T>(xs: seq<T>, a: T)
    ensures DropRepeats(xs, Some(a)) == CollapseRuns([a] + xs)[1..]
  {
    var ys := [a] + xs;
    if |xs| == 0 {
      assert ys == [a];
    } else if xs[0] == a {
      assert ys[1..] == xs;
      assert xs == [a] + xs[1..];
      DropRepeatsAfter(xs[1..], a);
    } else {
      assert ys[1..] == xs;
      assert xs == [xs[0]] + xs[1..];
      DropRepeatsAfter(xs[1..], xs[0]);
      var c := CollapseRuns(xs);
      assert c == [c[0]] + c[1..];
    }
  }

  lemma DropRepeatsIsCollapse<T>(xs: seq<T>)
    ensures DropRepeats(xs, None) == CollapseRuns(xs)
  {
    if |xs| > 0 {
      assert xs == [xs[0]] + xs[1..];
      DropRepeatsAfter(xs[1..], xs[0]);
      var c := CollapseRuns(xs);
      assert c == [c[0]] + c[1..];
    }
  }

  /** Collapsing keeps order and values: the result is a subsequence of the input. */
  lemma {:induction false} CollapseIsSubsequence<T>(xs: seq<T>)
    ensures IsSubsequence(CollapseRuns(xs), xs)
  {
    if |xs| <= 1 {
      SubsequenceReflexive(xs);
    } else if xs[0] == xs[1] {
      CollapseIsSubsequence(xs[1..]);
      SubsequenceExtend(CollapseRuns(xs[1..]), xs[1..], xs[0]);
    } else {
      CollapseIsSubsequence(xs[1..]);
      assert ([xs[0]] + CollapseRuns(xs[1..]))[1..] == CollapseRuns(xs[1..]);
    }
  }

  /** A sequence without adjacent repeats is its own collapse. */
  lemma {:induction false} CollapseOfRepeatFree<T>(xs: seq<T>)
    requires NoAdjacentRepeats(xs)
    ensures CollapseRuns(xs) == xs
  {
    if |xs| > 1 {
      assert xs[0] != xs[1];
      CollapseOfRepeatFree(xs[1..]);
      assert xs == [xs[0]] + xs[1..];
    }
  }

  /** Collapsing drops no value: every value of the input is still present. */
  lemma {:induction false} CollapseKeepsValues<T>(xs: seq<T>)
    ensures forall x :: x in CollapseRuns(xs) <==> x in xs
  {
    if |xs| > 1 {
      CollapseKeepsValues(xs[1..]);
      assert xs == [xs[0]] + xs[1..];
    }
  }

  // ---------------------------------------------------------------------------
  // Facts about subsequences
  // ---------------------------------------------------------------------------

  lemma {:induction false} SubsequenceReflexive<T>(xs: seq<T>)
    ensures IsSubsequence(xs, xs)
  {
    if |xs| > 0 {
      SubsequenceReflexive(xs[1..]);
    }
  }

  lemma {:induction false} SubsequenceExtend<T>(xs: seq<T>, ys: seq<T>, y: T)
    requires IsSubsequence(xs, ys)
    ensures IsSubsequence(xs, [y] + ys)
    decreases |ys|, 1
  {
    assert ([y] + ys)[1..] == ys;
    if |xs| > 0 && xs[0] == y {
      SubsequenceDropHead(xs, ys);
    }
  }

  lemma {:induction false} SubsequenceDropHead<T>(xs: seq<T>, ys: seq<T>)
    requires |xs| > 0 && IsSubsequence(xs, ys)
    ensures IsSubsequence(xs[1..], ys)
    decreases |ys|, 0
  {
    if xs[0] == ys[0] {
      SubsequenceExtend(xs[1..], ys[1..], ys[0]);
      assert [ys[0]] + ys[1..] == ys;
    } else {
      SubsequenceDropHead(xs, ys[1..]);
      SubsequenceExtend(xs[1..], ys[1..], ys[0]);
      assert [ys[0]] + ys[1..] == ys;
    }
  }

  /** A prefix of a subsequence is a subsequence. */
  lemma {:induction false} SubsequencePrefix<T>(xs: seq<T>, ys: seq<T>, k: nat)
    requires IsSubsequence(xs, ys) && k <= |xs|
    ensures IsSubsequence(xs[..k], ys)
    decreases |ys|
  {
    if k > 0 {
      if xs[0] == ys[0] {
        SubsequencePrefix(xs[1..], ys[1..], k - 1);
        assert xs[..k][1..] == xs[1..][..k - 1];
      } else {
        SubsequencePrefix(xs, ys[1..], k);
      }
    }
  }

  /** Every element of a subsequence is an element of the sequence. */
  lemma {:induction false} SubsequenceMembers<T>(xs: seq<T>, ys: seq<T>)
    requires IsSubsequence(xs, ys)
    ensures forall x :: x in xs ==> x in ys
    decreases |ys|
  {
    if |xs| > 0 {
      if xs[0] == ys[0] {
        SubsequenceMembers(xs[1..], ys[1..]);
        assert xs == [xs[0]] + xs[1..];
      } else {
        SubsequenceMembers(xs, ys[1..]);
      }
    }
  }
}
