/**
 * The bounded history lists of myo_raw_osc.py as operations on sequences.
 *
 * The EMG lists grow at the front and lose their tail entry once the sample
 * counter exceeds the bound; the IMU lists grow at the back and lose their
 * back entry under the same test, which discards the sample just added.
 * `NewestFirst` and `OldestFirst` are the reference windows over the full
 * log of samples that the two policies keep.
 */
module History {

  function Min(a: nat, b: nat): nat {
    if a <= b then a else b
  }

  function Reverse<T>(s: seq<T>): (r: seq<T>)
    ensures |r| == |s|
    ensures forall i :: 0 <= i < |s| ==> r[i] == s[|s| - 1 - i]
  {
    if s == [] then [] else Reverse(s[1..]) + [s[0]]
  }

  /** The last `k` entries of `log` (all of it when it is shorter), newest first. */
  function NewestFirst<T>(log: seq<T>, k: nat): (r: seq<T>)
    ensures |r| == Min(|log|, k)
    ensures forall i :: 0 <= i < |r| ==> r[i] == log[|log| - 1 - i]
  {
    Reverse(log[|log| - Min(|log|, k)..])
  }

  /** The first `k` entries of `log` (all of it when it is shorter), oldest first. */
  function OldestFirst<T>(log: seq<T>, k: nat): (r: seq<T>)
    ensures |r| == Min(|log|, k)
    ensures forall i :: 0 <= i < |r| ==> r[i] == log[i]
  {
    log[..Min(|log|, k)]
  }

  /**
   * One EMG history list update: insert `x` at index 0, then, when the
   * already incremented `count` exceeds `maxHist`, pop the last entry.
   */
  function InsertFrontCapped<T>(hist: seq<T>, x: T, count: nat, maxHist: nat): (r: seq<T>)
    ensures |r| == if count > maxHist then |hist| else |hist| + 1
  {
    var grown := [x] + hist;
    if count > maxHist then grown[..|grown| - 1] else grown
  }

  /**
   * After an EMG list update the new sample comes first, the old entries
   * follow in their old order, and at most the single oldest one is lost.
   */
  lemma InsertFrontOrder<T>(hist: seq<T>, x: T, count: nat, maxHist: nat)
    ensures var r := InsertFrontCapped(hist, x, count, maxHist);
      && (|r| > 0 ==> r[0] == x)
      && (forall i :: 1 <= i < |r| ==> r[i] == hist[i - 1])
      && (count > maxHist ==> |r| == |hist|)
  {
  }

  /**
   * One IMU history list update: append `x`, then, when the already
   * incremented `count` exceeds `maxHist`, pop the last entry.
   */
  function AppendBackCapped<T>(hist: seq<T>, x: T, count: nat, maxHist: nat): (r: seq<T>)
    ensures |r| == if count > maxHist then |hist| else |hist| + 1
  {
    var grown := hist + [x];
    if count > maxHist then grown[..|grown| - 1] else grown
  }

  /**
   * The pop of an IMU list update removes what was just appended: an
   * overflowing call changes nothing, any other call appends `x`.
   */
  lemma AppendBackNetEffect<T>(hist: seq<T>, x: T, count: nat, maxHist: nat)
    ensures count > maxHist ==> AppendBackCapped(hist, x, count, maxHist) == hist
    ensures count <= maxHist ==> AppendBackCapped(hist, x, count, maxHist) == hist + [x]
  {
  }

  /**
   * Inserting at the front of the newest-first window of `log`, with the
   * counter at the new log length, gives the window of the extended log:
   * the EMG lists always hold the last `maxHist` samples, newest first.
   */
  lemma InsertFrontKeepsWindow<T>(log: seq<T>, x: T, k: nat)
    ensures InsertFrontCapped(NewestFirst(log, k), x, |log| + 1, k) == NewestFirst(log + [x], k)
  {
    var before := NewestFirst(log, k);
    var lhs := InsertFrontCapped(before, x, |log| + 1, k);
    var rhs := NewestFirst(log + [x], k);
    InsertFrontOrder(before, x, |log| + 1, k);
    forall i | 0 <= i < |lhs|
      ensures lhs[i] == rhs[i]
    {
      if i > 0 {
        assert lhs[i] == before[i - 1];
      }
    }
  }

  /**
   * Appending at the back of the oldest-first window of `log`, with the
   * counter at the new log length, gives the window of the extended log:
   * the IMU lists always hold the first `maxHist` samples, oldest first.
   */
  lemma AppendBackKeepsPrefix<T>(log: seq<T>, x: T, k: nat)
    ensures AppendBackCapped(OldestFirst(log, k), x, |log| + 1, k) == OldestFirst(log + [x], k)
  {
  }
}
