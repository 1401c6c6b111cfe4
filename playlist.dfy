/**
 * Circular stepping through the track list, as `ViewModel.next()` and
 * `ViewModel.prev()` choose the track to play.
 */
module Playlist {
  import opened Catalog

  /** `s.firstIndex(of: x)!`: the position of the first occurrence of `x`. */
  function FirstIndex<T(==)>(s: seq<T>, x: T): (i: nat)
    requires x in s
    ensures i < |s| && s[i] == x
    ensures forall j :: 0 <= j < i ==> s[j] != x
  {
    if s[0] == x then 0 else 1 + FirstIndex(s[1..], x)
  }

  /**
   * The track `next()` moves to from `current`: the first track when
   * `current` equals the last track, otherwise the one after the first
   * occurrence of `current`.
   */
  function NextTrack(music: seq<string>, current: string): (r: string)
    requires current in music
    ensures r in music
  {
    var index := FirstIndex(music, current);
    if music[index] == music[|music| - 1] then music[0] else music[index + 1]
  }

  /**
   * The track `prev()` moves to from `current`: the last track when the first
   * occurrence of `current` is the first track, otherwise the one before it.
   */
  function PrevTrack(music: seq<string>, current: string): (r: string)
    requires current in music
    ensures r in music
  {
    var index := FirstIndex(music, current);
    if music[index] == music[0] then music[|music| - 1] else music[index - 1]
  }

  /** In a list without repeats a track is found at its own position. */
  lemma FirstIndexDistinct<T>(s: seq<T>, i: nat)
    requires Distinct(s) && i < |s|
    ensures FirstIndex(s, s[i]) == i
  {
  }

  /** `next()` from the last track wraps to the first. */
  lemma NextWrapsToFirst(music: seq<string>)
    requires music != []
    ensures NextTrack(music, music[|music| - 1]) == music[0]
  {
  }

  /** `prev()` from the first track wraps to the last. */
  lemma PrevWrapsToLast(music: seq<string>)
    requires music != []
    ensures PrevTrack(music, music[0]) == music[|music| - 1]
  {
  }

  /** In a list without repeats `next()` moves from position i to i + 1, circularly. */
  lemma NextStep(music: seq<string>, i: nat)
    requires Distinct(music) && i < |music|
    ensures NextTrack(music, music[i]) == music[if i + 1 < |music| then i + 1 else 0]
  {
    FirstIndexDistinct(music, i);
    if i + 1 < |music| {
      assert music[i] != music[|music| - 1];
    }
  }

  /** In a list without repeats `prev()` moves from position i to i - 1, circularly. */
  lemma PrevStep(music: seq<string>, i: nat)
    requires Distinct(music) && i < |music|
    ensures PrevTrack(music, music[i]) == music[if i > 0 then i - 1 else |music| - 1]
  {
    FirstIndexDistinct(music, i);
    if i > 0 {
      assert music[i] != music[0];
    }
  }

  /** In a list without repeats `prev()` undoes `next()`. */
  lemma PrevAfterNext(music: seq<string>, current: string)
    requires Distinct(music) && current in music
    ensures PrevTrack(music, NextTrack(music, current)) == current
  {
    var i := FirstIndex(music, current);
    var j := if i + 1 < |music| then i + 1 else 0;
    NextStep(music, i);
    PrevStep(music, j);
  }

  /** In a list without repeats `next()` undoes `prev()`. */
  lemma NextAfterPrev(music: seq<string>, current: string)
    requires Distinct(music) && current in music
    ensures NextTrack(music, PrevTrack(music, current)) == current
  {
    var i := FirstIndex(music, current);
    var j := if i > 0 then i - 1 else |music| - 1;
    PrevStep(music, i);
    NextStep(music, j);
  }

  /** With a single track both `next()` and `prev()` stay on it. */
  lemma SingleTrackStays(t: string)
    ensures NextTrack([t], t) == t && PrevTrack([t], t) == t
  {
  }

  /**
   * With a repeated track the round trip can fail: in [a, b, a], `next()`
   * from b gives a, and `prev()` from a wraps to the last track, a again.
   */
  lemma RoundTripNeedsDistinct()
    ensures PrevTrack(["a", "b", "a"], NextTrack(["a", "b", "a"], "b")) == "a"
  {
  }

  /** The track reached from `current` after `k` presses of next. */
  function NextTimes(music: seq<string>, current: string, k: nat): (r: string)
    requires current in music
    ensures r in music
  {
    if k == 0 then current else NextTrack(music, NextTimes(music, current, k - 1))
  }

  /** Pressing next `a` times and then `b` times is pressing it `a + b` times. */
  lemma {:induction false} NextTimesAdd(music: seq<string>, current: string, a: nat, b: nat)
    requires current in music
    ensures NextTimes(music, current, a + b) == NextTimes(music, NextTimes(music, current, a), b)
  {
    if b > 0 {
      var before := NextTimes(music, current, a + (b - 1));
      NextTimesAdd(music, current, a, b - 1);
      calc {
        NextTimes(music, current, a + b);
        NextTrack(music, before);
        NextTrack(music, NextTimes(music, NextTimes(music, current, a), b - 1));
        NextTimes(music, NextTimes(music, current, a), b);
      }
    }
  }

  /** In a list without repeats `k` presses of next from position i reach i + k, short of the end. */
  lemma {:induction false} NextTimesAdvance(music: seq<string>, i: nat, k: nat)
    requires Distinct(music) && i + k < |music|
    ensures NextTimes(music, music[i], k) == music[i + k]
  {
    if k > 0 {
      NextTimesAdvance(music, i, k - 1);
      NextStep(music, i + k - 1);
    }
  }

  /**
   * In a list without repeats, |music| presses of next from any track visit
   * every other track once and come back to it.
   */
  lemma NextTimesFullCycle(music: seq<string>, i: nat)
    requires Distinct(music) && i < |music|
    ensures NextTimes(music, music[i], |music|) == music[i]
  {
    var n := |music|;
    NextTimesAdvance(music, i, n - 1 - i);
    NextStep(music, n - 1);
    NextTimesAdd(music, music[i], n - 1 - i, 1);
    NextTimesAdvance(music, 0, i);
    NextTimesAdd(music, music[i], n - i, i);
  }
}
