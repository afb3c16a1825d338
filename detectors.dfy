/** The window detectors: blink-rate change and gaze novelty. */
module Detectors {
  import opened Options
  import opened Windows

  const IncreasedBlinking: string := "Increased blinking"
  const DecreasedBlinking: string := "Decreased blinking"

  /** Share of window entries equal to the newest gaze value below which the gaze counts as changed. */
  const GazeChangeRatio: real := 0.01

  /**
   * `get_blink_tell`. The guard reads the oldest `RecentFrames` samples
   * (`blinks[:RECENT_FRAMES]`); the ratios read the newest ones and the whole window.
   */
  function BlinkTell(blinks: seq<bool>): (r: Option<string>)
    requires |blinks| == MaxFrames
    ensures r.Some? ==> Count(blinks[..RecentFrames], true) >= 3
    ensures r.Some? ==> r.value == IncreasedBlinking || r.value == DecreasedBlinking
  {
    if Count(blinks[..RecentFrames], true) < 3 then None
    else
      var recentClosed := Count(blinks[MaxFrames - RecentFrames..], true) as real / RecentFrames as real;
      var avgClosed := Count(blinks, true) as real / MaxFrames as real;
      if recentClosed > 20.0 * avgClosed then Some(IncreasedBlinking)
      else if avgClosed > 20.0 * recentClosed then Some(DecreasedBlinking)
      else None
  }

  /**
   * The blink detector stays silent unless the oldest samples hold three blinks;
   * past that guard it reports "Decreased blinking" exactly when the newest
   * samples hold none, and it never reports "Increased blinking", since the
   * recent count cannot exceed twice the whole-window count.
   */
  lemma BlinkTellOutcomes(blinks: seq<bool>)
    requires |blinks| == MaxFrames
    ensures Count(blinks[..RecentFrames], true) < 3 ==> BlinkTell(blinks) == None
    ensures BlinkTell(blinks) != Some(IncreasedBlinking)
    ensures BlinkTell(blinks) == None || BlinkTell(blinks) == Some(DecreasedBlinking)
    ensures Count(blinks[..RecentFrames], true) >= 3 ==>
      (BlinkTell(blinks) == Some(DecreasedBlinking) <==> forall i :: MaxFrames - RecentFrames <= i < MaxFrames ==> !blinks[i])
  {
    var recent := blinks[MaxFrames - RecentFrames..];
    assert RecentFrames == 12;
    assert recent == blinks[MaxFrames - RecentFrames..MaxFrames];
    CountSlice(blinks, 0, RecentFrames, true);
    CountSlice(blinks, MaxFrames - RecentFrames, MaxFrames, true);
    CountZero(recent, true);
    assert forall i :: MaxFrames - RecentFrames <= i < MaxFrames ==> blinks[i] == recent[i - (MaxFrames - RecentFrames)];
    var r, t := Count(recent, true) as real, Count(blinks, true) as real;
    assert r <= t;
    assert r / 12.0 <= t / 12.0;
  }

  /**
   * Share of the window equal to `gaze` (`gaze_values.count(avg_gaze) / MAX_FRAMES`):
   * a share of a full window, below the change ratio exactly when the value occurs at most once.
   */
  function GazeMatches(window: seq<int>, gaze: int): (r: real)
    ensures 0.0 <= r && (|window| <= MaxFrames ==> r <= 1.0)
    ensures r < GazeChangeRatio <==> Count(window, gaze) <= 1
  {
    Count(window, gaze) as real / MaxFrames as real
  }

  /**
   * After pushing a gaze value, it occurs at least once, and its share is
   * below the threshold exactly when it occurs nowhere else in the window.
   */
  lemma GazeChangeIffNovel(window: seq<int>, gaze: int)
    requires |window| == MaxFrames
    ensures Count(Push(window, gaze), gaze) >= 1
    ensures GazeMatches(Push(window, gaze), gaze) < GazeChangeRatio <==> Count(window[1..], gaze) == 0
    ensures GazeMatches(Push(window, gaze), gaze) < GazeChangeRatio <==> Count(Push(window, gaze), gaze) == 1
  {
    CountAppend(window[1..], [gaze], gaze);
  }

  /** A window already full of the pushed value never signals a change. */
  lemma SteadyGazeNeverChanges(window: seq<int>, gaze: int)
    requires |window| == MaxFrames
    requires forall i :: 0 <= i < |window| ==> window[i] == gaze
    ensures GazeMatches(Push(window, gaze), gaze) == 1.0
  {
    CountAll(Push(window, gaze), gaze);
  }

  /** A value unseen in the window signals a change, with share `1 / MaxFrames`. */
  lemma NovelGazeChanges(window: seq<int>, gaze: int)
    requires |window| == MaxFrames
    requires forall i :: 0 <= i < |window| ==> window[i] != gaze
    ensures GazeMatches(Push(window, gaze), gaze) == 1.0 / MaxFrames as real < GazeChangeRatio
  {
    CountZero(window[1..], gaze);
    GazeChangeIffNovel(window, gaze);
  }
}
