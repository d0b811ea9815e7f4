/**
 * `DragRaisePlayer` of src/animation/player/drag_raise.rs: while the pet is
 * held, a dynamic loop plays; after enough ticks of it a static cycle cuts
 * in (an optional start segment, then one B variant played a drawn number of
 * times with every frame shown twice); letting go plays an end variant once.
 *
 * `next_frame` re-enters itself after some mode switches; here each mode has
 * its own step method and a switch calls the step of the new mode, which is
 * the same computation with the same depth bound (start, then loop, then
 * dynamic — never back).
 */
module DragRaise {
  import opened Common
  import opened FileTree
  import opened Assets
  import opened Startup
  import opened Touch
  import opened Pinch

  /** `DragPlaybackMode`; `DragNone` and `DragEnd` are the source's `None` and `End`. */
  datatype DragPlaybackMode = DragNone | DynamicLoop | StaticStart | StaticLoop | DragEnd

  const DRAG_STATIC_TRIGGER_MS: nat := 20000
  const DRAG_STATIC_B_LOOP_MIN: U8 := 3
  const DRAG_STATIC_B_LOOP_MAX: U8 := 7
  const DRAG_STATIC_B_FRAME_HOLD_TICKS: U8 := 1

  /** `drag_static_trigger_ticks`: the trigger delay rounded up to whole ticks. */
  function DragStaticTriggerTicks(): (r: U32)
    ensures r > 0
    ensures (r - 1) * CAROUSEL_INTERVAL_MS < DRAG_STATIC_TRIGGER_MS <= r * CAROUSEL_INTERVAL_MS
  {
    (DRAG_STATIC_TRIGGER_MS + CAROUSEL_INTERVAL_MS - 1) / CAROUSEL_INTERVAL_MS
  }

  /** `choose_static_b_loop_count`: a count between the two bounds, inclusive. */
  function ChooseStaticBLoopCount(nanos: nat): (r: U8)
    ensures DRAG_STATIC_B_LOOP_MIN <= r <= DRAG_STATIC_B_LOOP_MAX
  {
    DRAG_STATIC_B_LOOP_MIN + PseudoRandomIndex(DRAG_STATIC_B_LOOP_MAX - DRAG_STATIC_B_LOOP_MIN + 1, nanos) as U8
  }

  /** Every count between the bounds is drawn at some clock reading. */
  lemma LoopCountCoversRange(count: U8)
    requires DRAG_STATIC_B_LOOP_MIN <= count <= DRAG_STATIC_B_LOOP_MAX
    ensures exists nanos :: ChooseStaticBLoopCount(nanos) == count
  {
    var nanos := count - DRAG_STATIC_B_LOOP_MIN;
    PseudoRandomIndexReachesAll(DRAG_STATIC_B_LOOP_MAX - DRAG_STATIC_B_LOOP_MIN + 1, nanos);
    assert ChooseStaticBLoopCount(nanos) == count;
  }

  /**
   * Calls of `next_frame` a running B cycle still takes: every frame still to
   * come is shown and then held for one call, except the cycle's very last
   * one, after which playback is back in the dynamic loop.
   */
  function CycleCallsLeft(frames: nat, index: nat, remainingLoops: nat, holdTicks: nat): nat
    requires index < frames && remainingLoops > 0
  {
    holdTicks + 2 * ((remainingLoops - 1) * frames + (frames - index)) - 1
  }

  /** A shown frame that is not the last of its loop: one call fewer, the next frame held. */
  lemma CallsLeftAdvance(frames: nat, index: nat, remainingLoops: nat)
    requires index + 1 < frames && remainingLoops > 0
    ensures CycleCallsLeft(frames, index + 1, remainingLoops, 1) == CycleCallsLeft(frames, index, remainingLoops, 0) - 1
  {
  }

  /** The last frame of a loop that is not the last loop: one call fewer, the next loop begins. */
  lemma CallsLeftWrap(frames: nat, remainingLoops: nat)
    requires frames > 0 && remainingLoops > 1
    ensures CycleCallsLeft(frames, 0, remainingLoops - 1, 1) == CycleCallsLeft(frames, frames - 1, remainingLoops, 0) - 1
  {
    assert (remainingLoops - 1) * frames == (remainingLoops - 2) * frames + frames;
  }

  /** The last frame of the last loop is the last call of the cycle. */
  lemma CallsLeftLast(frames: nat)
    requires frames > 0
    ensures CycleCallsLeft(frames, frames - 1, 1, 0) == 1
  {
  }

  /** The asset lists `new` and `reload` collect, the loop frames as drawn at some clock reading. */
  ghost predicate DragSegmentsFor(fs: Dir, raiseDynamicRoot: Path, raiseStaticRoot: Path, mode: Mode,
                                  startFiles: seq<Path>, loopFiles: seq<Path>, endVariants: seq<seq<Path>>)
  {
    startFiles == CollectDragRaiseStartFiles(fs, raiseStaticRoot, mode)
    && (exists nanos :: loopFiles == CollectDragRaiseLoopFiles(fs, raiseDynamicRoot, mode, nanos))
    && endVariants == CollectDragRaiseEndVariants(fs, raiseStaticRoot, mode)
  }

  method LoadDragSegments(fs: Dir, raiseDynamicRoot: Path, raiseStaticRoot: Path, mode: Mode)
    returns (startFiles: seq<Path>, loopFiles: seq<Path>, endVariants: seq<seq<Path>>)
    ensures DragSegmentsFor(fs, raiseDynamicRoot, raiseStaticRoot, mode, startFiles, loopFiles, endVariants)
  {
    startFiles := CollectDragRaiseStartFiles(fs, raiseStaticRoot, mode);
    var nanos := ReadClock();
    loopFiles := CollectDragRaiseLoopFiles(fs, raiseDynamicRoot, mode, nanos);
    endVariants := CollectDragRaiseEndVariants(fs, raiseStaticRoot, mode);
  }

  /** What taking over the screen does to the players below drag. */
  method StopOthers(pinch: PinchPlayer, touch: TouchPlayer, startup: StartupPlayer)
    requires touch.Valid()
    modifies pinch, touch, startup
    ensures touch.Valid() && touch.Stopped() && !pinch.IsActive()
    ensures pinch.Valid() && startup.Valid() && !startup.active && startup.files == []
  {
    startup.Stop();
    pinch.Stop();
    touch.Stop();
  }

  class DragRaisePlayer {
    const raiseDynamicRoot: Path
    const raiseStaticRoot: Path
    var staticStartFiles: seq<Path>
    var staticStartIndex: nat
    var loopFiles: seq<Path>
    var loopIndex: nat
    var staticBVariants: seq<seq<Path>>
    var staticBFiles: seq<Path>
    var staticBIndex: nat
    var staticBRemainingLoops: U8
    var staticBFrameHoldTicks: U8
    var staticBLastFrame: Option<Path>
    var dynamicDragTicks: U32
    var endVariants: seq<seq<Path>>
    var endFiles: seq<Path>
    var endIndex: nat
    var playbackMode: DragPlaybackMode

    /**
     * Cursors stay inside their lists; the tick counter is reset whenever it
     * reaches the trigger, so it never saturates; a frame is only held once
     * shown.
     */
    ghost predicate Valid()
      reads this
    {
      CursorIn(staticStartFiles, staticStartIndex) && CursorIn(loopFiles, loopIndex)
      && CursorIn(staticBFiles, staticBIndex) && CursorIn(endFiles, endIndex)
      && dynamicDragTicks < DragStaticTriggerTicks()
      && staticBFrameHoldTicks <= DRAG_STATIC_B_FRAME_HOLD_TICKS
      && (staticBFrameHoldTicks > 0 ==> staticBLastFrame.Some?)
    }

    function IsActive(): bool
      reads this
    {
      playbackMode != DragNone
    }

    /** `is_playing_end` */
    function IsPlayingEnd(): bool
      reads this
    {
      playbackMode == DragEnd
    }

    /** A B cycle with frames and loops left. */
    function CycleOn(): bool
      reads this
    {
      staticBFiles != [] && staticBRemainingLoops > 0
    }

    /** Calls until a running static B cycle hands back to the dynamic loop; 0 outside one. */
    function StaticCallsLeft(): nat
      requires Valid()
      reads this
    {
      if playbackMode == StaticLoop && CycleOn()
      then CycleCallsLeft(|staticBFiles|, staticBIndex, staticBRemainingLoops, staticBFrameHoldTicks)
      else 0
    }

    /** Every cursor and counter at 0, the B cycle, the last B frame and the end frames dropped. */
    predicate Cleared()
      reads this
    {
      staticStartIndex == 0 && loopIndex == 0
      && staticBFiles == [] && staticBIndex == 0 && staticBRemainingLoops == 0
      && staticBFrameHoldTicks == 0 && staticBLastFrame.None? && dynamicDragTicks == 0
      && endFiles == [] && endIndex == 0
    }

    /** The state `interrupt` leaves when it does not play the end. */
    predicate Reset()
      reads this
    {
      playbackMode == DragNone && Cleared()
    }

    twostate predicate SameAssets()
      reads this
    {
      staticStartFiles == old(staticStartFiles) && loopFiles == old(loopFiles)
      && staticBVariants == old(staticBVariants) && endVariants == old(endVariants)
    }

    twostate predicate SameStaticB()
      reads this
    {
      staticBFiles == old(staticBFiles) && staticBIndex == old(staticBIndex)
      && staticBRemainingLoops == old(staticBRemainingLoops)
      && staticBFrameHoldTicks == old(staticBFrameHoldTicks) && staticBLastFrame == old(staticBLastFrame)
    }

    twostate predicate SameEnd()
      reads this
    {
      endFiles == old(endFiles) && endIndex == old(endIndex)
    }

    /** A B variant was drawn (when there is one) and a fresh cycle set up for it. */
    twostate predicate DrewStaticB()
      reads this
    {
      (old(staticBVariants) == [] ==> SameStaticB())
      && (old(staticBVariants) != [] ==>
            staticBFiles in old(staticBVariants) && staticBIndex == 0
            && DRAG_STATIC_B_LOOP_MIN <= staticBRemainingLoops <= DRAG_STATIC_B_LOOP_MAX
            && staticBFrameHoldTicks == 0 && staticBLastFrame.None?)
    }

    /**
     * What `maybe_trigger_static_cycle` does in the dynamic loop: count the
     * tick; on reaching the trigger, restart the count and enter the static
     * start segment if there is one, else a fresh B cycle if one can be set
     * up, else stay in the dynamic loop.
     */
    twostate predicate TriggerChecked()
      reads this
    {
      if old(dynamicDragTicks) + 1 < DragStaticTriggerTicks() then
        dynamicDragTicks == old(dynamicDragTicks) + 1 && playbackMode == DynamicLoop
        && staticStartIndex == old(staticStartIndex) && SameStaticB()
      else
        dynamicDragTicks == 0
        && (old(staticStartFiles) != [] ==>
              playbackMode == StaticStart && staticStartIndex == 0 && SameStaticB())
        && (old(staticStartFiles) == [] ==>
              staticStartIndex == old(staticStartIndex) && DrewStaticB()
              && (playbackMode == StaticLoop <==> staticBVariants != [] && staticBFiles != [])
              && (playbackMode != StaticLoop ==> playbackMode == DynamicLoop))
    }

    /** The dynamic loop restarted from its first frame and stepped once. */
    twostate predicate RestartedDynamic(new frame: Option<Path>)
      reads this
    {
      (loopFiles == [] ==>
         frame.None? && playbackMode == DragNone && loopIndex == 0 && dynamicDragTicks == 0)
      && (loopFiles != [] ==>
            frame == Some(loopFiles[0]) && playbackMode == DynamicLoop
            && loopIndex == 1 % |loopFiles| && dynamicDragTicks == 1)
    }

    /** `next_frame` in the dynamic loop: the frames round and round, counting ticks toward the static cycle. */
    twostate predicate DynamicStepped(new frame: Option<Path>)
      reads this
      requires old(Valid())
    {
      (old(loopFiles) == [] ==>
         frame.None? && playbackMode == DragNone && loopIndex == old(loopIndex)
         && dynamicDragTicks == old(dynamicDragTicks) && staticStartIndex == old(staticStartIndex) && SameStaticB())
      && (old(loopFiles) != [] ==>
            frame == Some(old(loopFiles)[old(loopIndex)])
            && loopIndex == (old(loopIndex) + 1) % |old(loopFiles)| && TriggerChecked())
    }

    /**
     * `next_frame` in the static start segment: its frames once, in order,
     * then a fresh B cycle or, failing that, the dynamic loop from its start.
     * Without start frames, the first frame of what follows is played at once.
     */
    twostate predicate StaticStartStepped(new frame: Option<Path>)
      reads this
      requires old(Valid())
    {
      (old(staticStartFiles) != [] ==>
         frame == Some(old(staticStartFiles)[old(staticStartIndex)])
         && (old(staticStartIndex) + 1 < |old(staticStartFiles)| ==>
               playbackMode == StaticStart && staticStartIndex == old(staticStartIndex) + 1 && SameStaticB()
               && loopIndex == old(loopIndex) && dynamicDragTicks == old(dynamicDragTicks))
         && (old(staticStartIndex) + 1 >= |old(staticStartFiles)| ==>
               staticStartIndex == old(staticStartIndex) && DrewStaticB()
               && (playbackMode == StaticLoop <==> staticBVariants != [] && staticBFiles != [])
               && (playbackMode == StaticLoop ==>
                     loopIndex == old(loopIndex) && dynamicDragTicks == old(dynamicDragTicks))
               && (playbackMode != StaticLoop ==>
                     playbackMode == DynamicLoop && loopIndex == 0 && dynamicDragTicks == 0)))
      && (old(staticStartFiles) == [] ==>
            staticStartIndex == old(staticStartIndex)
            && (staticBVariants != [] ==> staticBFiles in staticBVariants)
            && (playbackMode == StaticLoop <==> staticBVariants != [] && staticBFiles != [])
            && (playbackMode == StaticLoop ==>
                  frame == Some(staticBFiles[0]) && staticBLastFrame == frame
                  && staticBFrameHoldTicks == DRAG_STATIC_B_FRAME_HOLD_TICKS
                  && loopIndex == old(loopIndex) && dynamicDragTicks == old(dynamicDragTicks))
            && (playbackMode != StaticLoop ==> RestartedDynamic(frame)))
    }

    /**
     * `next_frame` in a running B cycle: a held call repeats the last frame;
     * otherwise the next B frame is shown and held, wrapping round to start
     * the next loop, and after the last frame of the last loop the dynamic
     * loop restarts. Each call takes exactly one call off the cycle.
     */
    twostate predicate CycleStepped(new frame: Option<Path>)
      reads this
      requires old(Valid()) && Valid()
    {
      StaticCallsLeft() == old(StaticCallsLeft()) - 1
      && (playbackMode == StaticLoop <==> StaticCallsLeft() > 0)
      && (playbackMode != StaticLoop ==>
            playbackMode == DynamicLoop && loopIndex == 0 && dynamicDragTicks == 0
            && staticBFiles == [] && staticBIndex == 0 && staticBRemainingLoops == 0)
      && (playbackMode == StaticLoop ==>
            loopIndex == old(loopIndex) && dynamicDragTicks == old(dynamicDragTicks)
            && staticBFiles == old(staticBFiles))
      && (old(staticBFrameHoldTicks) > 0 ==>
            frame == old(staticBLastFrame) && frame.Some?
            && staticBFrameHoldTicks == old(staticBFrameHoldTicks) - 1
            && staticBIndex == old(staticBIndex) && staticBRemainingLoops == old(staticBRemainingLoops)
            && staticBLastFrame == old(staticBLastFrame))
      && (old(staticBFrameHoldTicks) == 0 ==>
            frame == Some(old(staticBFiles)[old(staticBIndex)]) && staticBLastFrame == frame
            && staticBFrameHoldTicks == DRAG_STATIC_B_FRAME_HOLD_TICKS
            && (playbackMode == StaticLoop ==>
                  staticBIndex == (old(staticBIndex) + 1) % |staticBFiles|
                  && staticBRemainingLoops ==
                     (if old(staticBIndex) + 1 < |staticBFiles| then old(staticBRemainingLoops)
                      else old(staticBRemainingLoops) - 1)))
    }

    /** `next_frame` in the static loop: a running cycle steps; a spent one restarts the dynamic loop. */
    twostate predicate StaticLoopStepped(new frame: Option<Path>)
      reads this
      requires old(Valid()) && Valid()
    {
      (old(CycleOn()) ==> CycleStepped(frame))
      && (!old(CycleOn()) ==>
            staticBFiles == old(staticBFiles) && staticBIndex == old(staticBIndex)
            && staticBRemainingLoops == old(staticBRemainingLoops)
            && staticBFrameHoldTicks == 0 && staticBLastFrame.None? && RestartedDynamic(frame))
    }

    /** `next_frame` in the end segment: its frames once, in order, then idle. */
    twostate predicate EndStepped(new frame: Option<Path>)
      reads this
      requires old(Valid())
    {
      endFiles == old(endFiles)
      && (old(endFiles) == [] ==> frame.None? && playbackMode == DragNone && endIndex == old(endIndex))
      && (old(endFiles) != [] ==>
            frame == Some(old(endFiles)[old(endIndex)])
            && (old(endIndex) + 1 < |old(endFiles)| ==> playbackMode == DragEnd && endIndex == old(endIndex) + 1)
            && (old(endIndex) + 1 >= |old(endFiles)| ==> playbackMode == DragNone && endIndex == old(endIndex)))
    }

    /** `interrupt(skip_to_end)` plays the end segment instead of resetting. */
    function InterruptPlaysEnd(skipToEnd: bool): bool
      reads this
    {
      !skipToEnd && playbackMode in {DynamicLoop, StaticStart, StaticLoop} && endVariants != []
    }

    /**
     * `new`; `collect_drag_raise_static_b_variants` is not part of this model,
     * so the B variants it would find are a parameter.
     */
    constructor (fs: Dir, raiseDynamicRoot: Path, raiseStaticRoot: Path, mode: Mode,
                 staticBVariants: seq<seq<Path>>)
      ensures Valid() && !IsActive()
      ensures this.raiseDynamicRoot == raiseDynamicRoot && this.raiseStaticRoot == raiseStaticRoot
      ensures DragSegmentsFor(fs, raiseDynamicRoot, raiseStaticRoot, mode, staticStartFiles, loopFiles, endVariants)
      ensures this.staticBVariants == staticBVariants
      ensures Reset()
    {
      var startFiles, dynamicFiles, endPaths := LoadDragSegments(fs, raiseDynamicRoot, raiseStaticRoot, mode);
      this.raiseDynamicRoot := raiseDynamicRoot;
      this.raiseStaticRoot := raiseStaticRoot;
      staticStartFiles := startFiles;
      staticStartIndex := 0;
      loopFiles := dynamicFiles;
      loopIndex := 0;
      this.staticBVariants := staticBVariants;
      staticBFiles := [];
      staticBIndex := 0;
      staticBRemainingLoops := 0;
      staticBFrameHoldTicks := 0;
      staticBLastFrame := None;
      dynamicDragTicks := 0;
      endVariants := endPaths;
      endFiles := [];
      endIndex := 0;
      playbackMode := DragNone;
    }

    /**
     * `prepare_static_b_cycle`: draws a B variant and a loop count; succeeds
     * iff the variant has frames. A fresh cycle of `R` loops over `n` frames
     * takes `2 R n - 1` calls.
     */
    method PrepareStaticBCycle() returns (ok: bool)
      requires Valid()
      modifies this
      ensures Valid() && SameAssets() && SameEnd() && DrewStaticB()
      ensures playbackMode == old(playbackMode) && staticStartIndex == old(staticStartIndex)
      ensures loopIndex == old(loopIndex) && dynamicDragTicks == old(dynamicDragTicks)
      ensures ok <==> staticBVariants != [] && staticBFiles != []
      ensures ok ==> CycleCallsLeft(|staticBFiles|, 0, staticBRemainingLoops, 0)
                     == 2 * staticBRemainingLoops * |staticBFiles| - 1
    {
      if staticBVariants == [] {
        return false;
      }
      var nanos := ReadClock();
      var variantIndex := PseudoRandomIndex(|staticBVariants|, nanos);
      staticBFiles := staticBVariants[variantIndex];
      staticBIndex := 0;
      var countNanos := ReadClock();
      staticBRemainingLoops := ChooseStaticBLoopCount(countNanos);
      staticBFrameHoldTicks := 0;
      staticBLastFrame := None;
      ok := staticBFiles != [] && staticBRemainingLoops > 0;
    }

    /** `maybe_trigger_static_cycle` */
    method MaybeTriggerStaticCycle()
      requires Valid()
      modifies this
      ensures Valid() && SameAssets() && SameEnd() && loopIndex == old(loopIndex)
      ensures old(playbackMode) != DynamicLoop ==> unchanged(this)
      ensures old(playbackMode) == DynamicLoop ==> TriggerChecked()
    {
      if playbackMode != DynamicLoop {
        return;
      }
      dynamicDragTicks := SaturatingAddU32(dynamicDragTicks, 1);
      if dynamicDragTicks < DragStaticTriggerTicks() {
        return;
      }
      dynamicDragTicks := 0;
      if staticStartFiles != [] {
        playbackMode := StaticStart;
        staticStartIndex := 0;
        return;
      }
      var ok := PrepareStaticBCycle();
      if ok {
        playbackMode := StaticLoop;
      }
    }

    /**
     * `start`: with dynamic frames, startup, pinch and touch stop and the
     * dynamic loop starts from its first frame; without, nothing changes.
     */
    method Start(pinch: PinchPlayer, touch: TouchPlayer, startup: StartupPlayer)
      requires Valid() && touch.Valid() && pinch.Valid() && startup.Valid()
      modifies this, pinch, touch, startup
      ensures Valid() && touch.Valid() && pinch.Valid() && startup.Valid()
      ensures SameAssets() && SameStaticB() && SameEnd()
      ensures staticStartIndex == old(staticStartIndex)
      ensures loopFiles == [] ==> unchanged(this) && unchanged(pinch) && unchanged(touch) && unchanged(startup)
      ensures loopFiles != [] ==>
        playbackMode == DynamicLoop && loopIndex == 0 && dynamicDragTicks == 0
        && !startup.active && startup.files == [] && !pinch.IsActive() && touch.Stopped()
    {
      if loopFiles != [] {
        StopOthers(pinch, touch, startup);
        playbackMode := DynamicLoop;
        loopIndex := 0;
        dynamicDragTicks := 0;
      }
    }

    /**
     * `continue_loop`: ignored without dynamic frames or during a static
     * cycle; otherwise the others stop and the dynamic loop plays on, from
     * its start unless it was already playing.
     */
    method ContinueLoop(pinch: PinchPlayer, touch: TouchPlayer, startup: StartupPlayer)
      requires Valid() && touch.Valid() && pinch.Valid() && startup.Valid()
      modifies this, pinch, touch, startup
      ensures Valid() && touch.Valid() && pinch.Valid() && startup.Valid()
      ensures SameAssets() && SameStaticB() && SameEnd()
      ensures staticStartIndex == old(staticStartIndex)
      ensures loopFiles == [] || old(playbackMode) in {StaticStart, StaticLoop} ==>
        unchanged(this) && unchanged(pinch) && unchanged(touch) && unchanged(startup)
      ensures loopFiles != [] && old(playbackMode) !in {StaticStart, StaticLoop} ==>
        playbackMode == DynamicLoop
        && !startup.active && startup.files == [] && !pinch.IsActive() && touch.Stopped()
      ensures old(playbackMode) == DynamicLoop ==>
        loopIndex == old(loopIndex) && dynamicDragTicks == old(dynamicDragTicks)
      ensures loopFiles != [] && old(playbackMode) in {DragNone, DragEnd} ==>
        loopIndex == 0 && dynamicDragTicks == 0
    {
      if loopFiles == [] {
        return;
      }
      if playbackMode == StaticStart || playbackMode == StaticLoop {
        return;
      }
      StopOthers(pinch, touch, startup);
      if playbackMode != DynamicLoop {
        loopIndex := 0;
        dynamicDragTicks := 0;
      }
      playbackMode := DynamicLoop;
    }

    /** Draws an end variant and plays it from its first frame. */
    method PlayEnd()
      requires Valid() && endVariants != []
      modifies this
      ensures Valid() && SameAssets() && SameStaticB()
      ensures playbackMode == DragEnd && endFiles in endVariants && endIndex == 0
      ensures staticStartIndex == old(staticStartIndex)
      ensures loopIndex == old(loopIndex) && dynamicDragTicks == old(dynamicDragTicks)
    {
      var nanos := ReadClock();
      var variantIndex := PseudoRandomIndex(|endVariants|, nanos);
      endFiles := endVariants[variantIndex];
      endIndex := 0;
      playbackMode := DragEnd;
    }

    /** `end`: an end variant from its first frame, or idle at once without end variants. */
    method End()
      requires Valid()
      modifies this
      ensures Valid() && SameAssets() && SameStaticB()
      ensures staticStartIndex == old(staticStartIndex)
      ensures loopIndex == old(loopIndex) && dynamicDragTicks == old(dynamicDragTicks)
      ensures endVariants == [] ==> playbackMode == DragNone && SameEnd()
      ensures endVariants != [] ==> playbackMode == DragEnd && endFiles in endVariants && endIndex == 0
    {
      if endVariants == [] {
        playbackMode := DragNone;
        return;
      }
      PlayEnd();
    }

    method DynamicLoopStep() returns (frame: Option<Path>)
      requires Valid() && playbackMode == DynamicLoop
      modifies this
      ensures Valid() && SameAssets() && SameEnd() && DynamicStepped(frame)
    {
      if loopFiles == [] {
        playbackMode := DragNone;
        return None;
      }
      frame := Some(loopFiles[loopIndex]);
      loopIndex := (loopIndex + 1) % |loopFiles|;
      MaybeTriggerStaticCycle();
    }

    /** The dynamic loop from its first frame, as after a static cycle. */
    method RestartDynamicStep() returns (frame: Option<Path>)
      requires Valid()
      modifies this
      ensures Valid() && SameAssets() && SameEnd() && RestartedDynamic(frame)
      ensures staticStartIndex == old(staticStartIndex) && SameStaticB()
    {
      playbackMode := DynamicLoop;
      loopIndex := 0;
      dynamicDragTicks := 0;
      frame := DynamicLoopStep();
    }

    method StaticLoopStep() returns (frame: Option<Path>)
      requires Valid() && playbackMode == StaticLoop
      modifies this
      ensures Valid() && SameAssets() && SameEnd() && staticStartIndex == old(staticStartIndex)
      ensures StaticLoopStepped(frame)
    {
      if staticBFiles == [] || staticBRemainingLoops == 0 {
        staticBFrameHoldTicks := 0;
        staticBLastFrame := None;
        frame := RestartDynamicStep();
        return;
      }
      if staticBFrameHoldTicks > 0 {
        staticBFrameHoldTicks := staticBFrameHoldTicks - 1;
        return staticBLastFrame;
      }
      frame := ShowBFrame();
    }

    /** A fresh B frame: shown, held for the next call, and the cycle advanced. */
    method ShowBFrame() returns (frame: Option<Path>)
      requires Valid() && playbackMode == StaticLoop && CycleOn() && staticBFrameHoldTicks == 0
      modifies this
      ensures Valid() && SameAssets() && SameEnd() && staticStartIndex == old(staticStartIndex)
      ensures CycleStepped(frame)
    {
      if staticBIndex + 1 < |staticBFiles| {
        frame := ShowBFrameWithin();
      } else if staticBRemainingLoops > 1 {
        frame := ShowBFrameWrapping();
      } else {
        frame := ShowLastBFrame();
      }
    }

    /** A frame of the B loop before its last one. */
    method ShowBFrameWithin() returns (frame: Option<Path>)
      requires staticBIndex + 1 < |staticBFiles|
      requires Valid() && playbackMode == StaticLoop && CycleOn() && staticBFrameHoldTicks == 0
      modifies this
      ensures Valid() && SameAssets() && SameEnd() && staticStartIndex == old(staticStartIndex)
      ensures CycleStepped(frame)
    {
      frame := Some(staticBFiles[staticBIndex]);
      CallsLeftAdvance(|staticBFiles|, staticBIndex, staticBRemainingLoops);
      staticBIndex := staticBIndex + 1;
      staticBLastFrame := frame;
      staticBFrameHoldTicks := DRAG_STATIC_B_FRAME_HOLD_TICKS;
    }

    /** The last frame of a B loop with more loops to go. */
    method ShowBFrameWrapping() returns (frame: Option<Path>)
      requires staticBIndex + 1 == |staticBFiles| && staticBRemainingLoops > 1
      requires Valid() && playbackMode == StaticLoop && CycleOn() && staticBFrameHoldTicks == 0
      modifies this
      ensures Valid() && SameAssets() && SameEnd() && staticStartIndex == old(staticStartIndex)
      ensures CycleStepped(frame)
    {
      frame := Some(staticBFiles[staticBIndex]);
      CallsLeftWrap(|staticBFiles|, staticBRemainingLoops);
      staticBRemainingLoops := staticBRemainingLoops - 1;
      staticBIndex := 0;
      staticBLastFrame := frame;
      staticBFrameHoldTicks := DRAG_STATIC_B_FRAME_HOLD_TICKS;
    }

    /** The last frame of the last B loop: the dynamic loop restarts behind it. */
    method ShowLastBFrame() returns (frame: Option<Path>)
      requires staticBIndex + 1 == |staticBFiles| && staticBRemainingLoops == 1
      requires Valid() && playbackMode == StaticLoop && CycleOn() && staticBFrameHoldTicks == 0
      modifies this
      ensures Valid() && SameAssets() && SameEnd() && staticStartIndex == old(staticStartIndex)
      ensures CycleStepped(frame)
    {
      frame := Some(staticBFiles[staticBIndex]);
      CallsLeftLast(|staticBFiles|);
      staticBRemainingLoops := 0;
      staticBIndex := 0;
      staticBFiles := [];
      playbackMode := DynamicLoop;
      loopIndex := 0;
      dynamicDragTicks := 0;
      staticBLastFrame := frame;
      staticBFrameHoldTicks := DRAG_STATIC_B_FRAME_HOLD_TICKS;
    }

    method StaticStartStep() returns (frame: Option<Path>)
      requires Valid() && playbackMode == StaticStart
      modifies this
      ensures Valid() && SameAssets() && SameEnd()
      ensures StaticStartStepped(frame)
    {
      if staticStartFiles == [] {
        var ok := PrepareStaticBCycle();
        if ok {
          playbackMode := StaticLoop;
          frame := StaticLoopStep();
          return;
        }
        frame := RestartDynamicStep();
        return;
      }
      frame := Some(staticStartFiles[staticStartIndex]);
      var next := staticStartIndex + 1;
      if next < |staticStartFiles| {
        staticStartIndex := next;
        return;
      }
      var ok := PrepareStaticBCycle();
      if ok {
        playbackMode := StaticLoop;
      } else {
        playbackMode := DynamicLoop;
        loopIndex := 0;
        dynamicDragTicks := 0;
      }
    }

    method EndStep() returns (frame: Option<Path>)
      requires Valid() && playbackMode == DragEnd
      modifies this
      ensures Valid() && SameAssets() && SameStaticB() && EndStepped(frame)
      ensures staticStartIndex == old(staticStartIndex)
      ensures loopIndex == old(loopIndex) && dynamicDragTicks == old(dynamicDragTicks)
    {
      if endFiles == [] {
        playbackMode := DragNone;
        return None;
      }
      frame := Some(endFiles[endIndex]);
      var next := endIndex + 1;
      if next < |endFiles| {
        endIndex := next;
      } else {
        playbackMode := DragNone;
      }
    }

    /**
     * `next_frame`: one step of the current mode. Nothing comes out only when
     * the player ends idle, and an idle player stays idle.
     */
    method NextFrame() returns (frame: Option<Path>)
      requires Valid()
      modifies this
      ensures Valid() && SameAssets()
      ensures old(playbackMode) == DragNone ==> frame.None? && unchanged(this)
      ensures frame.None? ==> playbackMode == DragNone
      ensures old(playbackMode) == DynamicLoop ==> DynamicStepped(frame)
      ensures old(playbackMode) == StaticStart ==> StaticStartStepped(frame)
      ensures old(playbackMode) == StaticLoop ==> StaticLoopStepped(frame)
      ensures old(playbackMode) == DragEnd ==> EndStepped(frame)
    {
      match playbackMode
      case DragNone =>
        return None;
      case DynamicLoop =>
        frame := DynamicLoopStep();
      case StaticStart =>
        frame := StaticStartStep();
      case StaticLoop =>
        frame := StaticLoopStep();
      case DragEnd =>
        frame := EndStep();
    }

    /**
     * `interrupt`: without `skip_to_end`, a held pet with end variants plays
     * an end variant; in every other case the player is reset to idle.
     */
    method Interrupt(skipToEnd: bool)
      requires Valid()
      modifies this
      ensures Valid() && SameAssets()
      ensures old(InterruptPlaysEnd(skipToEnd)) ==>
        playbackMode == DragEnd && endFiles in endVariants && endIndex == 0 && SameStaticB()
        && staticStartIndex == old(staticStartIndex)
        && loopIndex == old(loopIndex) && dynamicDragTicks == old(dynamicDragTicks)
      ensures !old(InterruptPlaysEnd(skipToEnd)) ==> Reset()
    {
      if InterruptPlaysEnd(skipToEnd) {
        PlayEnd();
        return;
      }
      playbackMode := DragNone;
      ClearPlayback();
    }

    /** The clearing shared by `interrupt` and `reload`. */
    method ClearPlayback()
      modifies this
      ensures Valid() && SameAssets() && Cleared()
      ensures playbackMode == old(playbackMode)
    {
      staticStartIndex, loopIndex, dynamicDragTicks := 0, 0, 0;
      staticBFiles, staticBIndex, staticBRemainingLoops := [], 0, 0;
      staticBFrameHoldTicks, staticBLastFrame := 0, None;
      endFiles, endIndex := [], 0;
    }

    /** The trait's default `stop`, which is `interrupt(true)`: always a full reset. */
    method Stop()
      requires Valid()
      modifies this
      ensures Valid() && SameAssets() && Reset()
    {
      Interrupt(true);
    }

    /**
     * `reload`: every asset list re-collected for `mode` (the B variants
     * given), lists cleared and counters at 0; the playback mode is kept.
     */
    method Reload(fs: Dir, mode: Mode, staticBVariants: seq<seq<Path>>)
      modifies this
      ensures Valid() && Cleared()
      ensures playbackMode == old(playbackMode)
      ensures DragSegmentsFor(fs, raiseDynamicRoot, raiseStaticRoot, mode, staticStartFiles, loopFiles, endVariants)
      ensures this.staticBVariants == staticBVariants
    {
      var startFiles, dynamicFiles, endPaths := LoadDragSegments(fs, raiseDynamicRoot, raiseStaticRoot, mode);
      ReplaceAssets(startFiles, dynamicFiles, staticBVariants, endPaths);
      ClearPlayback();
    }

    /** The asset lists of `reload` once collected. */
    method ReplaceAssets(startFiles: seq<Path>, dynamicFiles: seq<Path>,
                         staticBVariants: seq<seq<Path>>, endPaths: seq<seq<Path>>)
      modifies this
      ensures playbackMode == old(playbackMode)
      ensures staticStartFiles == startFiles && loopFiles == dynamicFiles
      ensures this.staticBVariants == staticBVariants && endVariants == endPaths
    {
      staticStartFiles, loopFiles, this.staticBVariants, endVariants := startFiles, dynamicFiles, staticBVariants, endPaths;
    }
  }
}
