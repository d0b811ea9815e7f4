/**
 * `PinchPlayer` of src/animation/player/pinch.rs: an optional start
 * segment, a loop that redraws its variant after every pass and never ends
 * by itself, and an end segment played once. It overrides `stop` and has no
 * `interrupt`.
 */
module Pinch {
  import opened Common
  import opened FileTree
  import opened Assets
  import opened Startup
  import opened Touch

  /** `PinchPlaybackMode`; `PinchNone` is the source's `None`. */
  datatype PinchPlaybackMode = PinchNone | PinchStart | PinchLoop | PinchEnd

  /**
   * The segments collected for `mode` under `pinchRoot`: the start and end
   * files as drawn at some clock reading each, and the loop variants.
   */
  ghost predicate PinchSegmentsFor(fs: Dir, pinchRoot: Path, mode: Mode,
                                   startFiles: seq<Path>, loopVariants: seq<seq<Path>>, endFiles: seq<Path>)
  {
    (exists nanos :: startFiles == CollectPinchStartFiles(fs, pinchRoot, mode, nanos))
    && loopVariants == CollectPinchLoopVariants(fs, pinchRoot, mode)
    && (exists nanos :: endFiles == CollectPinchEndFiles(fs, pinchRoot, mode, nanos))
  }

  /** The three segments `new` and `reload` collect, each file list at its own clock reading. */
  method LoadPinchSegments(fs: Dir, pinchRoot: Path, mode: Mode)
    returns (startFiles: seq<Path>, loopVariants: seq<seq<Path>>, endFiles: seq<Path>)
    ensures PinchSegmentsFor(fs, pinchRoot, mode, startFiles, loopVariants, endFiles)
  {
    var startNanos := ReadClock();
    startFiles := CollectPinchStartFiles(fs, pinchRoot, mode, startNanos);
    loopVariants := CollectPinchLoopVariants(fs, pinchRoot, mode);
    var endNanos := ReadClock();
    endFiles := CollectPinchEndFiles(fs, pinchRoot, mode, endNanos);
  }

  class PinchPlayer {
    const pinchRoot: Path
    var pinchStartFiles: seq<Path>
    var pinchStartIndex: nat
    var pinchLoopVariants: seq<seq<Path>>
    var pinchLoopFiles: seq<Path>
    var pinchLoopIndex: nat
    var pinchEndFiles: seq<Path>
    var pinchEndIndex: nat
    var playbackMode: PinchPlaybackMode

    ghost predicate Valid()
      reads this
    {
      CursorIn(pinchStartFiles, pinchStartIndex)
      && CursorIn(pinchLoopFiles, pinchLoopIndex)
      && CursorIn(pinchEndFiles, pinchEndIndex)
    }

    function IsActive(): bool
      reads this
    {
      playbackMode != PinchNone
    }

    /** The collected segments stay as they are. */
    twostate predicate SameAssets()
      reads this
    {
      pinchStartFiles == old(pinchStartFiles) && pinchLoopVariants == old(pinchLoopVariants)
      && pinchEndFiles == old(pinchEndFiles)
    }

    constructor (fs: Dir, pinchRoot: Path, mode: Mode)
      ensures Valid() && !IsActive()
      ensures this.pinchRoot == pinchRoot
      ensures PinchSegmentsFor(fs, pinchRoot, mode, pinchStartFiles, pinchLoopVariants, pinchEndFiles)
      ensures pinchLoopFiles == [] && pinchStartIndex == 0 && pinchLoopIndex == 0 && pinchEndIndex == 0
    {
      var startFiles, loopVariants, endFiles := LoadPinchSegments(fs, pinchRoot, mode);
      this.pinchRoot := pinchRoot;
      pinchStartFiles := startFiles;
      pinchStartIndex := 0;
      pinchLoopVariants := loopVariants;
      pinchLoopFiles := [];
      pinchLoopIndex := 0;
      pinchEndFiles := endFiles;
      pinchEndIndex := 0;
      playbackMode := PinchNone;
    }

    /** Draws a loop variant and rewinds the loop cursor. */
    method RedrawLoop()
      requires Valid() && pinchLoopVariants != []
      modifies this
      ensures Valid() && SameAssets()
      ensures pinchLoopFiles in pinchLoopVariants && pinchLoopIndex == 0
      ensures playbackMode == old(playbackMode)
      ensures pinchStartIndex == old(pinchStartIndex) && pinchEndIndex == old(pinchEndIndex)
    {
      var nanos := ReadClock();
      var variantIndex := PseudoRandomIndex(|pinchLoopVariants|, nanos);
      pinchLoopFiles := pinchLoopVariants[variantIndex];
      pinchLoopIndex := 0;
    }

    /**
     * `start`: the start segment from its first frame if there is one, else
     * the loop with a fresh variant, else nothing at all. Starting stops
     * startup and touch.
     */
    method Start(touch: TouchPlayer, startup: StartupPlayer)
      requires Valid() && touch.Valid() && startup.Valid()
      modifies this, touch, startup
      ensures Valid() && touch.Valid() && startup.Valid() && SameAssets()
      ensures pinchStartFiles != [] ==>
        playbackMode == PinchStart && pinchStartIndex == 0
        && pinchLoopFiles == old(pinchLoopFiles) && pinchLoopIndex == old(pinchLoopIndex)
      ensures pinchStartFiles == [] && pinchLoopVariants != [] ==>
        playbackMode == PinchLoop && pinchLoopFiles in pinchLoopVariants && pinchLoopIndex == 0
      ensures pinchStartFiles != [] || pinchLoopVariants != [] ==>
        touch.Stopped() && !startup.active && startup.files == []
      ensures pinchStartFiles == [] && pinchLoopVariants == [] ==>
        unchanged(this) && unchanged(touch) && unchanged(startup)
      ensures pinchEndIndex == old(pinchEndIndex)
      ensures pinchStartFiles == [] ==> pinchStartIndex == old(pinchStartIndex)
    {
      if pinchStartFiles != [] {
        startup.Stop();
        touch.Stop();
        playbackMode := PinchStart;
        pinchStartIndex := 0;
        return;
      }
      if pinchLoopVariants != [] {
        startup.Stop();
        touch.Stop();
        RedrawLoop();
        playbackMode := PinchLoop;
      }
    }

    /**
     * `continue_loop`: ignored during the start segment or without loop
     * variants; otherwise startup and touch stop and the player is in the
     * loop, keeping a running loop's variant and cursor.
     */
    method ContinueLoop(touch: TouchPlayer, startup: StartupPlayer)
      requires Valid() && touch.Valid() && startup.Valid()
      modifies this, touch, startup
      ensures Valid() && touch.Valid() && startup.Valid() && SameAssets()
      ensures old(playbackMode) == PinchStart || pinchLoopVariants == [] ==>
        unchanged(this) && unchanged(touch) && unchanged(startup)
      ensures old(playbackMode) != PinchStart && pinchLoopVariants != [] ==>
        playbackMode == PinchLoop && touch.Stopped() && !startup.active && startup.files == []
      ensures old(playbackMode) == PinchLoop && old(pinchLoopFiles) != [] ==>
        pinchLoopFiles == old(pinchLoopFiles) && pinchLoopIndex == old(pinchLoopIndex)
      ensures old(playbackMode) != PinchStart && pinchLoopVariants != []
              && (old(playbackMode) != PinchLoop || old(pinchLoopFiles) == []) ==>
        pinchLoopFiles in pinchLoopVariants && pinchLoopIndex == 0
      ensures pinchStartIndex == old(pinchStartIndex) && pinchEndIndex == old(pinchEndIndex)
    {
      if playbackMode == PinchStart || pinchLoopVariants == [] {
        return;
      }
      startup.Stop();
      touch.Stop();
      if playbackMode != PinchLoop || pinchLoopFiles == [] {
        RedrawLoop();
      }
      playbackMode := PinchLoop;
    }

    /** `end`: the end segment from its first frame, or idle at once when there is none. */
    method End(touch: TouchPlayer, startup: StartupPlayer)
      requires Valid() && touch.Valid() && startup.Valid()
      modifies this, touch, startup
      ensures Valid() && touch.Valid() && startup.Valid() && SameAssets()
      ensures pinchLoopFiles == old(pinchLoopFiles) && pinchLoopIndex == old(pinchLoopIndex)
      ensures pinchEndFiles == [] ==>
        playbackMode == PinchNone && pinchEndIndex == old(pinchEndIndex)
        && unchanged(touch) && unchanged(startup)
      ensures pinchEndFiles != [] ==>
        playbackMode == PinchEnd && pinchEndIndex == 0
        && touch.Stopped() && !startup.active && startup.files == []
      ensures pinchStartIndex == old(pinchStartIndex)
    {
      if pinchEndFiles == [] {
        playbackMode := PinchNone;
        return;
      }
      startup.Stop();
      touch.Stop();
      playbackMode := PinchEnd;
      pinchEndIndex := 0;
    }

    /**
     * `next_frame`: the start and end segments are played once each, in
     * order; the start segment hands over to the loop when there are loop
     * variants; the loop redraws its variant after every pass and stays in
     * the loop. A segment without frames makes the player idle.
     */
    method NextFrame() returns (frame: Option<Path>)
      requires Valid()
      modifies this
      ensures Valid() && SameAssets()
      ensures old(playbackMode) == PinchNone ==> frame.None? && unchanged(this)
      ensures frame.None? ==> playbackMode == PinchNone
      ensures old(playbackMode) == PinchStart ==>
        (old(pinchStartFiles) == [] ==> frame.None?)
        && (old(pinchStartFiles) != [] ==>
              frame == Some(pinchStartFiles[old(pinchStartIndex)])
              && (old(pinchStartIndex) + 1 < |pinchStartFiles| ==>
                    playbackMode == PinchStart && pinchStartIndex == old(pinchStartIndex) + 1)
              && (old(pinchStartIndex) + 1 == |pinchStartFiles| && pinchLoopVariants != [] ==>
                    playbackMode == PinchLoop && pinchLoopFiles in pinchLoopVariants && pinchLoopIndex == 0)
              && (old(pinchStartIndex) + 1 == |pinchStartFiles| && pinchLoopVariants == [] ==>
                    playbackMode == PinchNone))
      ensures old(playbackMode) == PinchLoop ==>
        (old(pinchLoopFiles) == [] ==> frame.None?)
        && (old(pinchLoopFiles) != [] ==>
              frame == Some(old(pinchLoopFiles[pinchLoopIndex])) && playbackMode == PinchLoop
              && (old(pinchLoopIndex) + 1 < |old(pinchLoopFiles)| ==>
                    pinchLoopFiles == old(pinchLoopFiles) && pinchLoopIndex == old(pinchLoopIndex) + 1)
              && (old(pinchLoopIndex) + 1 == |old(pinchLoopFiles)| && pinchLoopVariants != [] ==>
                    pinchLoopFiles in pinchLoopVariants && pinchLoopIndex == 0)
              && (old(pinchLoopIndex) + 1 == |old(pinchLoopFiles)| && pinchLoopVariants == [] ==>
                    pinchLoopFiles == old(pinchLoopFiles) && pinchLoopIndex == old(pinchLoopIndex)))
      ensures old(playbackMode) == PinchEnd ==>
        (old(pinchEndFiles) == [] ==> frame.None?)
        && (old(pinchEndFiles) != [] ==>
              frame == Some(pinchEndFiles[old(pinchEndIndex)])
              && (old(pinchEndIndex) + 1 < |pinchEndFiles| ==>
                    playbackMode == PinchEnd && pinchEndIndex == old(pinchEndIndex) + 1)
              && (old(pinchEndIndex) + 1 == |pinchEndFiles| ==> playbackMode == PinchNone))
      ensures old(playbackMode) != PinchStart ==> pinchStartIndex == old(pinchStartIndex)
      ensures old(playbackMode) != PinchEnd ==> pinchEndIndex == old(pinchEndIndex)
      ensures old(playbackMode) == PinchEnd ==>
        pinchLoopFiles == old(pinchLoopFiles) && pinchLoopIndex == old(pinchLoopIndex)
      ensures old(playbackMode) == PinchStart && playbackMode != PinchLoop ==>
        pinchLoopFiles == old(pinchLoopFiles) && pinchLoopIndex == old(pinchLoopIndex)
    {
      match playbackMode
      case PinchNone =>
        return None;
      case PinchStart =>
        if pinchStartFiles == [] {
          playbackMode := PinchNone;
          return None;
        }
        frame := Some(pinchStartFiles[pinchStartIndex]);
        var next := pinchStartIndex + 1;
        if next < |pinchStartFiles| {
          pinchStartIndex := next;
        } else if pinchLoopVariants != [] {
          RedrawLoop();
          playbackMode := PinchLoop;
        } else {
          playbackMode := PinchNone;
        }
      case PinchLoop =>
        if pinchLoopFiles == [] {
          playbackMode := PinchNone;
          return None;
        }
        frame := Some(pinchLoopFiles[pinchLoopIndex]);
        var next := pinchLoopIndex + 1;
        if next < |pinchLoopFiles| {
          pinchLoopIndex := next;
        } else if pinchLoopVariants != [] {
          RedrawLoop();
        }
      case PinchEnd =>
        if pinchEndFiles == [] {
          playbackMode := PinchNone;
          return None;
        }
        frame := Some(pinchEndFiles[pinchEndIndex]);
        var next := pinchEndIndex + 1;
        if next < |pinchEndFiles| {
          pinchEndIndex := next;
        } else {
          playbackMode := PinchNone;
        }
    }

    /**
     * `stop` (overriding the trait's default): idle, loop frames dropped, all
     * cursors at 0; the start and end segments and the loop variants stay.
     */
    method Stop()
      modifies this
      ensures Valid() && SameAssets() && !IsActive()
      ensures pinchLoopFiles == [] && pinchStartIndex == 0 && pinchLoopIndex == 0 && pinchEndIndex == 0
    {
      playbackMode := PinchNone;
      pinchLoopFiles := [];
      pinchStartIndex := 0;
      pinchLoopIndex := 0;
      pinchEndIndex := 0;
    }

    /** `reload`: every segment re-collected for `mode`, cursors at 0, the playback mode kept. */
    method Reload(fs: Dir, mode: Mode)
      modifies this
      ensures Valid()
      ensures playbackMode == old(playbackMode)
      ensures PinchSegmentsFor(fs, pinchRoot, mode, pinchStartFiles, pinchLoopVariants, pinchEndFiles)
      ensures pinchLoopFiles == [] && pinchStartIndex == 0 && pinchLoopIndex == 0 && pinchEndIndex == 0
    {
      var startFiles, loopVariants, endFiles := LoadPinchSegments(fs, pinchRoot, mode);
      ReplaceSegments(startFiles, loopVariants, endFiles);
    }

    /** The state change of `reload` once the segments are collected. */
    method ReplaceSegments(startFiles: seq<Path>, loopVariants: seq<seq<Path>>, endFiles: seq<Path>)
      modifies this
      ensures Valid()
      ensures playbackMode == old(playbackMode)
      ensures pinchStartFiles == startFiles && pinchLoopVariants == loopVariants && pinchEndFiles == endFiles
      ensures pinchLoopFiles == [] && pinchStartIndex == 0 && pinchLoopIndex == 0 && pinchEndIndex == 0
    {
      pinchStartFiles, pinchLoopVariants, pinchEndFiles := startFiles, loopVariants, endFiles;
      pinchStartIndex, pinchLoopIndex, pinchEndIndex := 0, 0, 0;
      pinchLoopFiles := [];
    }
  }
}
