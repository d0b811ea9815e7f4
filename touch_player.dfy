/**
 * `TouchPlayer` of src/animation/player/touch.rs: on a head or body touch it
 * builds one A ++ B ++ C touch sequence and plays it once.
 */
module Touch {
  import opened Common
  import opened FileTree
  import opened Assets
  import opened Startup

  /** `TouchPlaybackMode`; `TouchNone` is the source's `None`. */
  datatype TouchPlaybackMode = TouchNone | Head | Body

  class TouchPlayer {
    const touchHeadRoot: Path
    const touchBodyRoot: Path
    var touchHeadVariants: TouchStageVariants
    var touchBodyVariants: TouchStageVariants
    var touchFiles: seq<Path>
    var touchIndex: nat
    var playbackMode: TouchPlaybackMode

    /**
     * A playing player has frames left at its cursor; a stopped one has none.
     * The variants always come from `collect_touch_variants`.
     */
    ghost predicate Valid()
      reads this
    {
      (playbackMode == TouchNone <==> touchFiles == [])
      && (if touchFiles == [] then touchIndex == 0 else touchIndex < |touchFiles|)
      && FramesNonEmpty(touchHeadVariants) && FramesNonEmpty(touchBodyVariants)
    }

    function IsActive(): bool
      reads this
    {
      playbackMode != TouchNone
    }

    /** The frames still to be emitted, in order. */
    function Remaining(): (r: seq<Path>)
      requires Valid()
      reads this
      ensures r == [] <==> !IsActive()
    {
      if IsActive() then touchFiles[touchIndex..] else []
    }

    predicate Stopped()
      reads this
    {
      playbackMode == TouchNone && touchFiles == [] && touchIndex == 0
    }

    constructor (fs: Dir, touchHeadRoot: Path, touchBodyRoot: Path, mode: Mode)
      ensures Valid() && Stopped()
      ensures this.touchHeadRoot == touchHeadRoot && this.touchBodyRoot == touchBodyRoot
      ensures touchHeadVariants == CollectTouchVariants(fs, touchHeadRoot, mode)
      ensures touchBodyVariants == CollectTouchVariants(fs, touchBodyRoot, mode)
    {
      this.touchHeadRoot := touchHeadRoot;
      this.touchBodyRoot := touchBodyRoot;
      touchHeadVariants := CollectTouchVariants(fs, touchHeadRoot, mode);
      touchBodyVariants := CollectTouchVariants(fs, touchBodyRoot, mode);
      touchFiles := [];
      touchIndex := 0;
      playbackMode := TouchNone;
    }

    /**
     * `start_head`: with no head touch variants nothing changes and startup
     * keeps playing; otherwise startup is stopped and a head touch sequence
     * starts from its first frame.
     */
    method StartHead(startup: StartupPlayer)
      requires Valid()
      modifies this, startup
      ensures Valid()
      ensures touchHeadVariants == old(touchHeadVariants) && touchBodyVariants == old(touchBodyVariants)
      ensures NoStages(touchHeadVariants) ==> unchanged(this) && unchanged(startup)
      ensures !NoStages(touchHeadVariants) ==>
        playbackMode == Head && touchIndex == 0 && touchFiles != []
        && IsTouchSequence(touchHeadVariants, touchFiles)
        && !startup.active && startup.files == [] && startup.index == 0
    {
      var sequence := BuildTouchSequence(touchHeadVariants);
      if sequence == [] {
        return;
      }
      startup.Stop();
      playbackMode := Head;
      touchFiles := sequence;
      touchIndex := 0;
    }

    /** `start_body`: as `start_head`, with the body variants and mode `Body`. */
    method StartBody(startup: StartupPlayer)
      requires Valid()
      modifies this, startup
      ensures Valid()
      ensures touchHeadVariants == old(touchHeadVariants) && touchBodyVariants == old(touchBodyVariants)
      ensures NoStages(touchBodyVariants) ==> unchanged(this) && unchanged(startup)
      ensures !NoStages(touchBodyVariants) ==>
        playbackMode == Body && touchIndex == 0 && touchFiles != []
        && IsTouchSequence(touchBodyVariants, touchFiles)
        && !startup.active && startup.files == [] && startup.index == 0
    {
      var sequence := BuildTouchSequence(touchBodyVariants);
      if sequence == [] {
        return;
      }
      startup.Stop();
      playbackMode := Body;
      touchFiles := sequence;
      touchIndex := 0;
    }

    /**
     * `next_frame`: each frame of the sequence once, in order; after the last
     * one the player is stopped. A stopped player stays stopped and returns
     * nothing.
     */
    method NextFrame() returns (frame: Option<Path>)
      requires Valid()
      modifies this
      ensures Valid()
      ensures touchHeadVariants == old(touchHeadVariants) && touchBodyVariants == old(touchBodyVariants)
      ensures frame.None? <==> !old(IsActive())
      ensures old(IsActive()) ==> frame == Some(old(touchFiles[touchIndex]))
      ensures old(Remaining()) == (if frame.Some? then [frame.value] else []) + Remaining()
      ensures !IsActive() ==> Stopped()
    {
      if !IsActive() || touchFiles == [] {
        Interrupt(true);
        return None;
      }
      frame := Some(touchFiles[touchIndex]);
      var next := touchIndex + 1;
      if next < |touchFiles| {
        touchIndex := next;
        assert old(touchFiles[touchIndex..]) == [touchFiles[old(touchIndex)]] + touchFiles[touchIndex..];
      } else {
        Interrupt(true);
      }
    }

    /** `interrupt`: whatever `skip_to_end` says, the player stops. */
    method Interrupt(skipToEnd: bool)
      requires Valid()
      modifies this
      ensures Valid() && Stopped()
      ensures touchHeadVariants == old(touchHeadVariants) && touchBodyVariants == old(touchBodyVariants)
    {
      playbackMode := TouchNone;
      touchFiles := [];
      touchIndex := 0;
    }

    /** The trait's default `stop`, which is `interrupt(true)`. */
    method Stop()
      requires Valid()
      modifies this
      ensures Valid() && Stopped()
      ensures touchHeadVariants == old(touchHeadVariants) && touchBodyVariants == old(touchBodyVariants)
    {
      Interrupt(true);
    }

    /** `reload`: re-collects both variant sets for `mode` and leaves the player stopped. */
    method Reload(fs: Dir, mode: Mode)
      requires Valid()
      modifies this
      ensures Valid() && Stopped()
      ensures touchHeadVariants == CollectTouchVariants(fs, touchHeadRoot, mode)
      ensures touchBodyVariants == CollectTouchVariants(fs, touchBodyRoot, mode)
    {
      touchHeadVariants := CollectTouchVariants(fs, touchHeadRoot, mode);
      touchBodyVariants := CollectTouchVariants(fs, touchBodyRoot, mode);
      Interrupt(true);
    }
  }
}
