/**
 * The tell engine: the module-level state of the detector (the sliding
 * windows and the tell registry) as the fields of one object, and the
 * per-frame step that decays the registry, feeds the windows and upserts tells.
 */
module Engine {
  import opened Options
  import opened Windows
  import opened Tells
  import opened HeartRate
  import opened Detectors

  /** The registry keys the frame step writes. */
  datatype TellKey = AvgBpms | BpmChange | Blinking | Hand | Gaze | Lips

  /**
   * What the feature extractors report for one frame with a face: the
   * relative face area, the summed cheek colour sample, both eye aspect
   * ratios, whether a fingertip lies on the face, the averaged gaze offset
   * in tenths (it is rounded to one decimal), and the lip aspect ratio.
   */
  datatype FaceFeatures = FaceFeatures(
    faceArea: real,
    cheekSample: real,
    eyeRightRatio: real,
    eyeLeftRatio: real,
    handOnFace: bool,
    gazeTenths: int,
    lipRatio: real)

  const EyeBlinkHeight: real := 0.15
  const LipCompressionRatio: real := 0.35
  const SignificantBpmChange: real := 8.0
  /** Peak detection runs with a separation of `fps / 2.5` samples, which it rejects below 1. */
  const MinPeakFps: real := 2.5
  /** Initial raw heart-signal sample (`[400] * MAX_FRAMES`). */
  const InitialHrValue: real := 400.0

  const HeartRateIncreasing: string := "Heart rate increasing"
  const HeartRateDecreasing: string := "Heart rate decreasing"
  const HandCoveringFace: string := "Hand covering face"
  const ChangeInGaze: string := "Change in gaze"
  const LipCompression: string := "Lip compression"

  /**
   * `is_blinking`: the mean eye aspect ratio is below the blink height, so
   * both eyes below it count as a blink and a blink needs at least one eye below it.
   */
  predicate IsBlinking(f: FaceFeatures): (b: bool)
    ensures f.eyeRightRatio < EyeBlinkHeight && f.eyeLeftRatio < EyeBlinkHeight ==> b
    ensures b ==> f.eyeRightRatio < EyeBlinkHeight || f.eyeLeftRatio < EyeBlinkHeight
  {
    (f.eyeRightRatio + f.eyeLeftRatio) / 2.0 < EyeBlinkHeight
  }

  /** The lip condition of the frame step: the lip aspect ratio is strictly below the compression threshold. */
  predicate IsLipCompressed(f: FaceFeatures) {
    f.lipRatio < LipCompressionRatio
  }

  /** Python truthiness of the optional estimate (`if bpm:`). */
  predicate Truthy(bpm: Option<real>) {
    bpm.Some? && bpm.value != 0.0
  }

  function Abs(x: real): real {
    if x < 0.0 then -x else x
  }

  /**
   * Key `k` of `after` is `tell` when `fires`, and otherwise is exactly as in
   * `before` (present with the same entry, or absent).
   */
  ghost predicate Upserted(after: map<TellKey, Tell>, before: map<TellKey, Tell>, k: TellKey, fires: bool, tell: Tell) {
    if fires then k in after && after[k] == tell else SameAt(after, before, k)
  }

  /** Key `k` is present in both registries with the same entry, or absent from both. */
  ghost predicate SameAt(after: map<TellKey, Tell>, before: map<TellKey, Tell>, k: TellKey) {
    (k in after <==> k in before) && (k in before ==> after[k] == before[k])
  }

  /** `tells[k] = tell` when `fires`, otherwise nothing. */
  function UpsertIf(m: map<TellKey, Tell>, k: TellKey, fires: bool, tell: Tell): map<TellKey, Tell> {
    if fires then m[k := tell] else m
  }

  /**
   * The registry a frame with a face leaves behind, given the decayed registry,
   * the heart-rate estimate and whether each remaining detector fired: the BPM
   * display is always refreshed, every other tell is refreshed exactly when it
   * fired and is otherwise as decayed.
   */
  function FaceTells(decayed: map<TellKey, Tell>, bpm: Option<real>, blinkFires: bool, handFires: bool,
                     gazeFires: bool, lipsFire: bool, ttlForTells: int): (r: map<TellKey, Tell>)
    ensures AvgBpms in r && r[AvgBpms] == NewTell(BpmReading(bpm), ttlForTells)
    ensures Upserted(r, decayed, BpmChange, bpm.Some?, NewTell(Message(HeartRateIncreasing), ttlForTells))
    ensures Upserted(r, decayed, Blinking, blinkFires, NewTell(Message(DecreasedBlinking), ttlForTells))
    ensures Upserted(r, decayed, Hand, handFires, NewTell(Message(HandCoveringFace), ttlForTells))
    ensures Upserted(r, decayed, Gaze, gazeFires, NewTell(Message(ChangeInGaze), ttlForTells))
    ensures Upserted(r, decayed, Lips, lipsFire, NewTell(Message(LipCompression), ttlForTells))
  {
    var shown := decayed[AvgBpms := NewTell(BpmReading(bpm), ttlForTells)];
    var withChange := UpsertIf(shown, BpmChange, bpm.Some?, NewTell(Message(HeartRateIncreasing), ttlForTells));
    var withBlink := UpsertIf(withChange, Blinking, blinkFires, NewTell(Message(DecreasedBlinking), ttlForTells));
    var withHand := UpsertIf(withBlink, Hand, handFires, NewTell(Message(HandCoveringFace), ttlForTells));
    var withGaze := UpsertIf(withHand, Gaze, gazeFires, NewTell(Message(ChangeInGaze), ttlForTells));
    UpsertIf(withGaze, Lips, lipsFire, NewTell(Message(LipCompression), ttlForTells))
  }

  /** The blink condition, past `BlinkTellOutcomes`: old samples show blinking, new ones none. */
  ghost predicate BlinkingStopped(blinks: seq<bool>)
    requires |blinks| == MaxFrames
  {
    Count(blinks[..RecentFrames], true) >= 3 &&
    forall i :: MaxFrames - RecentFrames <= i < MaxFrames ==> !blinks[i]
  }

  class TellEngine {
    var blinks: seq<bool>
    var handOnFace: seq<bool>
    var hrValues: seq<real>
    /** Previous heart-rate estimates; the frame step reads its last entry and never writes it. */
    var avgBpms: seq<real>
    var gazeValues: seq<int>
    var faceAreaSize: real
    var tells: map<TellKey, Tell>

    /** Every window holds `MaxFrames` samples, and `avgBpms` keeps its initial zeros. */
    ghost predicate Valid()
      reads this
    {
      && |blinks| == MaxFrames
      && |handOnFace| == MaxFrames
      && |hrValues| == MaxFrames
      && |avgBpms| == MaxFrames
      && |gazeValues| == MaxFrames
      && forall i :: 0 <= i < |avgBpms| ==> avgBpms[i] == 0.0
    }

    /** The module's initial globals: pre-filled windows and an empty registry. */
    constructor ()
      ensures Valid()
      ensures blinks == seq(MaxFrames, _ => false) && handOnFace == seq(MaxFrames, _ => false)
      ensures hrValues == seq(MaxFrames, _ => InitialHrValue)
      ensures avgBpms == seq(MaxFrames, _ => 0.0) && gazeValues == seq(MaxFrames, _ => 0)
      ensures faceAreaSize == 0.0 && tells == map[]
    {
      blinks := seq(MaxFrames, _ => false);
      handOnFace := seq(MaxFrames, _ => false);
      hrValues := seq(MaxFrames, _ => InitialHrValue);
      avgBpms := seq(MaxFrames, _ => 0.0);
      gazeValues := seq(MaxFrames, _ => 0);
      faceAreaSize := 0.0;
      tells := map[];
    }

    /**
     * `get_bpm_change_value` for a frame with a face: push the cheek sample into
     * the heart-signal window, then estimate from the peaks found in it.
     */
    method GetBpmChangeValue(cheekSample: real, peaks: seq<int>, fps: real) returns (bpm: Option<real>)
      requires Valid() && fps >= MinPeakFps
      modifies this`hrValues
      ensures Valid()
      ensures hrValues == Push(old(hrValues), cheekSample) && hrValues[MaxFrames - 1] == cheekSample
      ensures bpm == CalculateBpmAsWritten(peaks, fps, MinBpm, MaxBpm)
      ensures bpm.Some? ==> MinBpm <= bpm.value <= MaxBpm
    {
      hrValues := Push(hrValues, cheekSample);
      bpm := CalculateBpmAsWritten(peaks, fps, MinBpm, MaxBpm);
    }

    /**
     * `detect_gaze_change`: push the gaze value, then return its share of the
     * window when that share is below `GazeChangeRatio`, and 0 otherwise.
     */
    method DetectGazeChange(gaze: int) returns (matches: real)
      requires Valid()
      modifies this`gazeValues
      ensures Valid()
      ensures gazeValues == Push(old(gazeValues), gaze) && gazeValues[MaxFrames - 1] == gaze
      ensures matches != 0.0 <==> Count(gazeValues, gaze) == 1
      ensures matches != 0.0 ==> matches == 1.0 / MaxFrames as real
    {
      GazeChangeIffNovel(gazeValues, gaze);
      gazeValues := Push(gazeValues, gaze);
      var gazeRelativeMatches := GazeMatches(gazeValues, gaze);
      if gazeRelativeMatches < GazeChangeRatio {
        matches := gazeRelativeMatches;
      } else {
        matches := 0.0;
      }
    }

    /**
     * The heart-rate part of `process_frame`: push the cheek sample, estimate,
     * always refresh the BPM display tell, and refresh the change tell when the
     * estimate moved by more than `SignificantBpmChange` from the last entry of
     * `avgBpms`. That entry is always 0, so every estimate counts as a rise.
     */
    method UpdateHeartRate(cheekSample: real, peaks: seq<int>, fps: real, ttlForTells: int)
      requires Valid() && fps >= MinPeakFps
      modifies this`hrValues, this`tells
      ensures Valid()
      ensures hrValues == Push(old(hrValues), cheekSample)
      ensures var bpm := CalculateBpmAsWritten(peaks, fps, MinBpm, MaxBpm);
        var shown := old(tells)[AvgBpms := NewTell(BpmReading(bpm), ttlForTells)];
        tells == UpsertIf(shown, BpmChange, bpm.Some?, NewTell(Message(HeartRateIncreasing), ttlForTells))
    {
      var bpm := GetBpmChangeValue(cheekSample, peaks, fps);
      assert Truthy(bpm) <==> bpm.Some?;
      var bpmDisplay := if Truthy(bpm) then BpmReading(bpm) else BpmReading(None);
      assert bpmDisplay == BpmReading(bpm);
      tells := tells[AvgBpms := NewTell(bpmDisplay, ttlForTells)];
      ghost var shown := tells;
      if Truthy(bpm) {
        var bpmDelta := bpm.value - avgBpms[|avgBpms| - 1];
        assert bpmDelta == bpm.value >= MinBpm;
        if Abs(bpmDelta) > SignificantBpmChange {
          var changeDesc := if bpmDelta > 0.0 then HeartRateIncreasing else HeartRateDecreasing;
          assert changeDesc == HeartRateIncreasing;
          tells := tells[BpmChange := NewTell(Message(changeDesc), ttlForTells)];
        }
        assert tells == shown[BpmChange := NewTell(Message(HeartRateIncreasing), ttlForTells)];
      }
    }

    /** The blink part of `process_frame`: push the flag, then refresh the tell `BlinkTell` reports. */
    method UpdateBlinks(blinking: bool, ttlForTells: int)
      requires Valid()
      modifies this`blinks, this`tells
      ensures Valid()
      ensures blinks == Push(old(blinks), blinking)
      ensures tells == UpsertIf(old(tells), Blinking, BlinkingStopped(blinks), NewTell(Message(DecreasedBlinking), ttlForTells))
    {
      blinks := Push(blinks, blinking);
      var recentBlinkTell := BlinkTell(blinks);
      BlinkTellOutcomes(blinks);
      if recentBlinkTell.Some? {
        tells := tells[Blinking := NewTell(Message(recentBlinkTell.value), ttlForTells)];
      }
    }

    /** The hand part of `process_frame`: push the flag, refresh the tell when it is set. */
    method UpdateHandOnFace(recentHandOnFace: bool, ttlForTells: int)
      requires Valid()
      modifies this`handOnFace, this`tells
      ensures Valid()
      ensures handOnFace == Push(old(handOnFace), recentHandOnFace)
      ensures tells == UpsertIf(old(tells), Hand, recentHandOnFace, NewTell(Message(HandCoveringFace), ttlForTells))
    {
      handOnFace := Push(handOnFace, recentHandOnFace);
      if recentHandOnFace {
        tells := tells[Hand := NewTell(Message(HandCoveringFace), ttlForTells)];
      }
    }

    /** The gaze part of `process_frame`: refresh the tell when `DetectGazeChange` reports a change. */
    method UpdateGaze(avgGaze: int, ttlForTells: int)
      requires Valid()
      modifies this`gazeValues, this`tells
      ensures Valid()
      ensures gazeValues == Push(old(gazeValues), avgGaze)
      ensures tells == UpsertIf(old(tells), Gaze, Count(gazeValues, avgGaze) == 1, NewTell(Message(ChangeInGaze), ttlForTells))
    {
      var gazeChange := DetectGazeChange(avgGaze);
      if gazeChange != 0.0 {
        tells := tells[Gaze := NewTell(Message(ChangeInGaze), ttlForTells)];
      }
    }

    /**
     * The body of `process_frame` for a frame with a face, run on the already
     * decayed registry: every window is pushed once and each tell is set to a
     * fresh `ttlForTells` when its condition fires, and otherwise left as it was.
     */
    method ProcessFace(f: FaceFeatures, peaks: seq<int>, fps: real, ttlForTells: int)
      requires Valid() && fps >= MinPeakFps
      modifies this
      ensures Valid() && avgBpms == old(avgBpms)
      ensures faceAreaSize == f.faceArea
      ensures hrValues == Push(old(hrValues), f.cheekSample)
      ensures blinks == Push(old(blinks), IsBlinking(f))
      ensures handOnFace == Push(old(handOnFace), f.handOnFace)
      ensures gazeValues == Push(old(gazeValues), f.gazeTenths)
      ensures tells == FaceTells(old(tells), CalculateBpmAsWritten(peaks, fps, MinBpm, MaxBpm), BlinkingStopped(blinks),
                                 f.handOnFace, Count(gazeValues, f.gazeTenths) == 1, IsLipCompressed(f), ttlForTells)
    {
      faceAreaSize := f.faceArea;
      UpdateHeartRate(f.cheekSample, peaks, fps, ttlForTells);
      ghost var withChange := tells;
      UpdateBlinks(IsBlinking(f), ttlForTells);
      ghost var withBlink := tells;
      ghost var blinkFires := BlinkingStopped(blinks);
      UpdateHandOnFace(f.handOnFace, ttlForTells);
      ghost var withHand := tells;
      UpdateGaze(f.gazeTenths, ttlForTells);
      ghost var withGaze := tells;
      if IsLipCompressed(f) {
        tells := tells[Lips := NewTell(Message(LipCompression), ttlForTells)];
      }
      assert withBlink == UpsertIf(withChange, Blinking, blinkFires, NewTell(Message(DecreasedBlinking), ttlForTells));
      assert blinkFires == BlinkingStopped(blinks);
      assert withHand == UpsertIf(withBlink, Hand, f.handOnFace, NewTell(Message(HandCoveringFace), ttlForTells));
      assert tells == UpsertIf(withGaze, Lips, IsLipCompressed(f), NewTell(Message(LipCompression), ttlForTells));
    }

    /**
     * `process_frame`. The registry is decayed first; without a face nothing
     * else happens, and with one `ProcessFace` runs on the decayed registry.
     */
    method ProcessFrame(face: Option<FaceFeatures>, peaks: seq<int>, fps: real, ttlForTells: int)
      returns (snapshot: map<TellKey, Tell>)
      requires Valid() && (face.Some? ==> fps >= MinPeakFps)
      modifies this
      ensures Valid() && snapshot == tells
      ensures avgBpms == old(avgBpms)
      ensures face.None? ==>
        && tells == Decremented(old(tells))
        && blinks == old(blinks) && handOnFace == old(handOnFace)
        && hrValues == old(hrValues) && gazeValues == old(gazeValues)
        && faceAreaSize == old(faceAreaSize)
      ensures face.Some? ==>
        var f, decayed, bpm := face.value, Decremented(old(tells)), CalculateBpmAsWritten(peaks, fps, MinBpm, MaxBpm);
        && faceAreaSize == f.faceArea
        && hrValues == Push(old(hrValues), f.cheekSample)
        && blinks == Push(old(blinks), IsBlinking(f))
        && handOnFace == Push(old(handOnFace), f.handOnFace)
        && gazeValues == Push(old(gazeValues), f.gazeTenths)
        && tells == FaceTells(decayed, bpm, BlinkingStopped(blinks), f.handOnFace,
                              Count(gazeValues, f.gazeTenths) == 1, IsLipCompressed(f), ttlForTells)
    {
      tells := DecrementTells(tells);
      if face.Some? {
        ProcessFace(face.value, peaks, fps, ttlForTells);
      }
      snapshot := tells;
    }
  }
}
