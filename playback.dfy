/**
  The playback watermark of the live companion (`nextStartTimeRef` in
  `components/LiveCompanionTab.tsx`), as a pure step and as a fold over the
  chunks that arrive between two interruptions. Times are seconds on the
  output context's clock.
*/
module Playback {

  /** Where a chunk starts: the watermark, unless the clock has already passed it. */
  function StartAt(watermark: real, clock: real): (t: real)
    ensures t >= watermark && t >= clock
    ensures t == watermark || t == clock
  {
    if watermark >= clock then watermark else clock
  }

  /** A decoded chunk: the clock reading when it was scheduled, and its duration. */
  datatype Arrival = Arrival(clock: real, duration: real)

  predicate NonNegative(arrivals: seq<Arrival>) {
    forall k :: 0 <= k < |arrivals| ==> arrivals[k].duration >= 0.0
  }

  /** Start times of successive chunks scheduled from watermark `w`. */
  function Starts(w: real, arrivals: seq<Arrival>): (r: seq<real>)
    ensures |r| == |arrivals|
    ensures |arrivals| > 0 ==> r[0] == StartAt(w, arrivals[0].clock)
    decreases |arrivals|
  {
    if arrivals == [] then []
    else
      var t := StartAt(w, arrivals[0].clock);
      [t] + Starts(t + arrivals[0].duration, arrivals[1..])
  }

  /** The watermark once every chunk is scheduled. */
  function Watermark(w: real, arrivals: seq<Arrival>): real
    decreases |arrivals|
  {
    if arrivals == [] then w
    else Watermark(StartAt(w, arrivals[0].clock) + arrivals[0].duration, arrivals[1..])
  }

  function TotalDuration(arrivals: seq<Arrival>): real {
    if arrivals == [] then 0.0 else arrivals[0].duration + TotalDuration(arrivals[1..])
  }

  /** Each chunk starts no earlier than the previous one ends, and exactly at its
      end when it arrived before that end (back-to-back playback). */
  lemma {:induction false} StartsAreSequential(w: real, arrivals: seq<Arrival>, k: nat)
    requires k + 1 < |arrivals|
    ensures Starts(w, arrivals)[k] + arrivals[k].duration <= Starts(w, arrivals)[k + 1]
    ensures arrivals[k + 1].clock <= Starts(w, arrivals)[k] + arrivals[k].duration ==>
      Starts(w, arrivals)[k + 1] == Starts(w, arrivals)[k] + arrivals[k].duration
    ensures arrivals[k + 1].clock > Starts(w, arrivals)[k] + arrivals[k].duration ==>
      Starts(w, arrivals)[k + 1] == arrivals[k + 1].clock
    decreases |arrivals|
  {
    var t := StartAt(w, arrivals[0].clock);
    var w' := t + arrivals[0].duration;
    assert Starts(w, arrivals) == [t] + Starts(w', arrivals[1..]);
    if k > 0 {
      StartsAreSequential(w', arrivals[1..], k - 1);
    }
  }

  /** No chunk starts before it arrived, nor before the watermark it was given. */
  lemma {:induction false} StartsAfterArrival(w: real, arrivals: seq<Arrival>, k: nat)
    requires NonNegative(arrivals) && k < |arrivals|
    ensures Starts(w, arrivals)[k] >= arrivals[k].clock
    ensures Starts(w, arrivals)[k] >= w
    decreases |arrivals|
  {
    var t := StartAt(w, arrivals[0].clock);
    if k > 0 {
      StartsAfterArrival(t + arrivals[0].duration, arrivals[1..], k - 1);
    }
  }

  /** The watermark ends at the last chunk's end. */
  lemma {:induction false} WatermarkIsLastEnd(w: real, arrivals: seq<Arrival>)
    requires |arrivals| > 0
    ensures Watermark(w, arrivals) ==
      Starts(w, arrivals)[|arrivals| - 1] + arrivals[|arrivals| - 1].duration
    decreases |arrivals|
  {
    var t := StartAt(w, arrivals[0].clock);
    if |arrivals| > 1 {
      WatermarkIsLastEnd(t + arrivals[0].duration, arrivals[1..]);
    }
  }

  /** Predicate: every chunk after the first arrives while the one before is still due to play. */
  predicate BackToBack(w: real, arrivals: seq<Arrival>) {
    forall k :: 0 <= k < |arrivals| - 1 ==>
      arrivals[k + 1].clock <= Starts(w, arrivals)[k] + arrivals[k].duration
  }

  /** Chunks that arrive back to back play without gaps: the timeline spans the sum of their durations. */
  lemma {:induction false} BackToBackSpan(w: real, arrivals: seq<Arrival>)
    requires |arrivals| > 0 && BackToBack(w, arrivals)
    ensures Watermark(w, arrivals) == Starts(w, arrivals)[0] + TotalDuration(arrivals)
    decreases |arrivals|
  {
    var t := StartAt(w, arrivals[0].clock);
    var w' := t + arrivals[0].duration;
    var rest := arrivals[1..];
    if |rest| > 0 {
      assert Starts(w, arrivals) == [t] + Starts(w', rest);
      forall k | 0 <= k < |rest| - 1
        ensures rest[k + 1].clock <= Starts(w', rest)[k] + rest[k].duration
      {
        assert arrivals[k + 2].clock <= Starts(w, arrivals)[k + 1] + arrivals[k + 1].duration;
      }
      assert rest[0].clock <= w' by {
        assert arrivals[1].clock <= Starts(w, arrivals)[0] + arrivals[0].duration;
      }
      BackToBackSpan(w', rest);
      assert Starts(w', rest)[0] == w';
    }
  }

  /** Three half-second chunks that arrive at once on a fresh clock: 0, 0.5 and 1.0, ending at 1.5. */
  lemma ThreeHalfSecondChunks()
    ensures var a := [Arrival(0.0, 0.5), Arrival(0.0, 0.5), Arrival(0.0, 0.5)];
      Starts(0.0, a) == [0.0, 0.5, 1.0] && Watermark(0.0, a) == 1.5
  {
    var a := [Arrival(0.0, 0.5), Arrival(0.0, 0.5), Arrival(0.0, 0.5)];
    assert a[1..] == [Arrival(0.0, 0.5), Arrival(0.0, 0.5)];
    assert a[1..][1..] == [Arrival(0.0, 0.5)];
  }
}
