/**
 * The older, single-struct animation engine of src/animation.rs:
 * `CarouselState` holds every sequence, cursor and playback flag of the
 * startup, default idle, drag raise, pinch, touch and shutdown animations,
 * and one timer tick drains the request channels, reloads on a mode change,
 * dispatches the requests and then advances the first active source.
 *
 * The process-wide request statics of that file behave as the `Mailbox` of
 * `Requests`, which the tick is handed; the mode the stats service computes
 * and the asset tree are parameters of the tick.
 */
module LegacyCarousel {
  import opened Common
  import opened FileTree
  import opened Assets
  import opened LegacyAssets
  import opened Requests

  datatype DragPlaybackMode = DragNone | DragStart | DragLoop | DragEnd
  datatype PinchPlaybackMode = PinchNone | PinchStart | PinchLoop | PinchEnd
  datatype TouchPlaybackMode = TouchNone | Head | Body

  /** The asset roots `load_carousel_images` joins to the body root and the tick closure captures. */
  datatype CarouselRoots = CarouselRoots(startup: Path, raiseDynamic: Path, raiseStatic: Path, pinch: Path,
                                         shutdown: Path, touchHead: Path, touchBody: Path)

  /** Why `load_carousel_images` fails. */
  datatype LoadError = HappyIdleUnreadable(cause: FsError) | NoHappyIdleFrames

  /** The branch of the advance step that produces the frame when no frame was forced. */
  datatype FrameSource =
    | ShutdownPlaying | ShutdownHeld | DragStarting | DragLooping | DragEnding
    | PinchStarting | PinchLooping | PinchEnding | Touching | StartingUp | DefaultIdling

  /** Every cursor of the state, to compare the state before and after a step. */
  datatype CursorSet = CursorSet(startup: nat, default: nat, dragStart: nat, dragLoop: nat, dragEnd: nat,
                                 pinchStart: nat, pinchLoop: nat, pinchEnd: nat, touch: nat, shutdown: nat)

  predicate AllNonEmpty(variants: seq<seq<Path>>)
  {
    forall v :: v in variants ==> v != []
  }

  /** `files.first().cloned()` */
  function FirstOf(files: seq<Path>): (r: Option<Path>)
    ensures r.Some? <==> files != []
    ensures r.Some? ==> r.value == files[0]
  {
    if files == [] then None else Some(files[0])
  }

  // ---------------------------------------------------------------------
  // The looping step of the drag loop and the default idle loop
  // ---------------------------------------------------------------------

  /** `(index + 1) % len` */
  function WrapNext(index: nat, len: nat): (r: nat)
    requires len > 0
    ensures r < len
    ensures index + 1 < len ==> r == index + 1
    ensures index + 1 == len ==> r == 0
  {
    (index + 1) % len
  }

  /** The cursor after `k` looping steps. */
  function WrapSteps(index: nat, len: nat, k: nat): nat
    requires len > 0
  {
    if k == 0 then index else WrapNext(WrapSteps(index, len, k - 1), len)
  }

  /** Within one pass the cursor moves by one frame per step. */
  lemma {:induction false} WrapStepsWithinPass(index: nat, len: nat, k: nat)
    requires index + k < len
    ensures WrapSteps(index, len, k) == index + k
  {
    if k > 0 {
      WrapStepsWithinPass(index, len, k - 1);
    }
  }

  lemma {:induction false} WrapStepsAdd(index: nat, len: nat, a: nat, b: nat)
    requires len > 0
    ensures WrapSteps(index, len, a + b) == WrapSteps(WrapSteps(index, len, a), len, b)
  {
    if b > 0 {
      WrapStepsAdd(index, len, a, b - 1);
    }
  }

  /** A looping cursor comes back to where it was after exactly `len` steps and shows every frame on the way. */
  lemma {:induction false} WrapStepsCycle(index: nat, len: nat, j: nat)
    requires index < len && j < len
    ensures WrapSteps(index, len, len) == index
    ensures exists k: nat :: k < len && WrapSteps(index, len, k) == j
  {
    WrapStepsWithinPass(index, len, len - 1 - index);
    WrapStepsAdd(index, len, len - 1 - index, 1);
    assert WrapSteps(index, len, len - index) == 0;
    WrapStepsWithinPass(0, len, index);
    WrapStepsAdd(index, len, len - index, index);
    var k: nat := if j >= index then j - index else len - index + j;
    if j >= index {
      WrapStepsWithinPass(index, len, k);
    } else {
      WrapStepsWithinPass(0, len, j);
      WrapStepsAdd(index, len, len - index, j);
    }
    assert k < len && WrapSteps(index, len, k) == j;
  }

  // ---------------------------------------------------------------------
  // What a mode reload collects
  // ---------------------------------------------------------------------

  // Each collection fact below is stated for every mode equal to `mode`, so
  // that the collectors' own facts enter a proof only where a collection is
  // compared with what a collector gives.

  /** `files` is the drag raise loop list for `mode` at some clock reading. */
  ghost predicate DrawnDragLoopFiles(fs: Dir, roots: CarouselRoots, mode: Mode, files: seq<Path>)
  {
    exists nanos :: files == LegacyCollectDragRaiseLoopFiles(fs, roots.raiseDynamic, mode, nanos)
  }

  /** `files` is the pinch start list for `mode` at some clock reading. */
  ghost predicate DrawnPinchStartFiles(fs: Dir, roots: CarouselRoots, mode: Mode, files: seq<Path>)
  {
    exists nanos :: files == LegacyCollectPinchStartFiles(fs, roots.pinch, mode, nanos)
  }

  /** `files` is the pinch end list for `mode` at some clock reading. */
  ghost predicate DrawnPinchEndFiles(fs: Dir, roots: CarouselRoots, mode: Mode, files: seq<Path>)
  {
    exists nanos :: files == LegacyCollectPinchEndFiles(fs, roots.pinch, mode, nanos)
  }

  /** `files` is a default idle sequence `select_default_files_for_mode` draws for `mode`. */
  ghost predicate DrawnDefaultFiles(mode: Mode, happy: seq<seq<Path>>, nomal: seq<seq<Path>>,
                                    poorCondition: seq<seq<Path>>, ill: seq<seq<Path>>, files: seq<Path>)
  {
    exists nanos :: files == LegacySelectDefaultFilesForMode(mode, happy, nomal, poorCondition, ill, nanos)
  }

  ghost predicate DragAssetsOf(fs: Dir, roots: CarouselRoots, mode: Mode,
                               startFiles: seq<Path>, loopFiles: seq<Path>, endVariants: seq<seq<Path>>)
  {
    (forall m :: m == mode ==> startFiles == CollectDragRaiseStartFiles(fs, roots.raiseStatic, m))
    && (forall m :: m == mode ==> DrawnDragLoopFiles(fs, roots, m, loopFiles))
    && (forall m :: m == mode ==> endVariants == CollectDragRaiseEndVariants(fs, roots.raiseStatic, m))
  }

  ghost predicate PinchAssetsOf(fs: Dir, roots: CarouselRoots, mode: Mode,
                                startFiles: seq<Path>, loopVariants: seq<seq<Path>>, endFiles: seq<Path>)
  {
    (forall m :: m == mode ==> DrawnPinchStartFiles(fs, roots, m, startFiles))
    && (forall m :: m == mode ==> loopVariants == LegacyCollectPinchLoopVariants(fs, roots.pinch, m))
    && (forall m :: m == mode ==> DrawnPinchEndFiles(fs, roots, m, endFiles))
  }

  ghost predicate TouchAssetsOf(fs: Dir, roots: CarouselRoots, mode: Mode,
                                head: TouchStageVariants, body: TouchStageVariants)
  {
    (forall m :: m == mode ==> head == CollectTouchVariants(fs, roots.touchHead, m))
    && (forall m :: m == mode ==> body == CollectTouchVariants(fs, roots.touchBody, m))
  }

  ghost predicate ShutdownAssetsOf(fs: Dir, roots: CarouselRoots, mode: Mode, variants: seq<seq<Path>>)
  {
    forall m :: m == mode ==> variants == LegacyCollectShutdownVariants(fs, roots.shutdown, m)
  }

  ghost predicate DefaultDrawnOf(mode: Mode, happy: seq<seq<Path>>, nomal: seq<seq<Path>>,
                                 poorCondition: seq<seq<Path>>, ill: seq<seq<Path>>, files: seq<Path>)
  {
    forall m :: m == mode ==> DrawnDefaultFiles(m, happy, nomal, poorCondition, ill, files)
  }

  /** `select_default_files_for_mode` at the current clock reading: never empty when every variant has a frame. */
  method DrawDefaultFiles(mode: Mode, happy: seq<seq<Path>>, nomal: seq<seq<Path>>,
                          poorCondition: seq<seq<Path>>, ill: seq<seq<Path>>) returns (files: seq<Path>)
    requires happy != [] && AllNonEmpty(happy) && AllNonEmpty(nomal)
    requires AllNonEmpty(poorCondition) && AllNonEmpty(ill)
    ensures DefaultDrawnOf(mode, happy, nomal, poorCondition, ill, files) && files != []
  {
    var nanos := ReadClock();
    DefaultFilesNonEmpty(mode, happy, nomal, poorCondition, ill, nanos);
    files := LegacySelectDefaultFilesForMode(mode, happy, nomal, poorCondition, ill, nanos);
  }

  /** The drag raise start, loop and end lists for `mode`; the loop directory is drawn from the clock. */
  method LoadDragAssets(fs: Dir, roots: CarouselRoots, mode: Mode)
    returns (startFiles: seq<Path>, loopFiles: seq<Path>, endVariants: seq<seq<Path>>)
    ensures DragAssetsOf(fs, roots, mode, startFiles, loopFiles, endVariants)
  {
    startFiles := CollectDragRaiseStartFiles(fs, roots.raiseStatic, mode);
    var nanos := ReadClock();
    loopFiles := LegacyCollectDragRaiseLoopFiles(fs, roots.raiseDynamic, mode, nanos);
    endVariants := CollectDragRaiseEndVariants(fs, roots.raiseStatic, mode);
  }

  /** The pinch start files, loop variants and end files for `mode`; start and end are drawn from the clock. */
  method LoadPinchAssets(fs: Dir, roots: CarouselRoots, mode: Mode)
    returns (startFiles: seq<Path>, loopVariants: seq<seq<Path>>, endFiles: seq<Path>)
    ensures PinchAssetsOf(fs, roots, mode, startFiles, loopVariants, endFiles)
  {
    var startNanos := ReadClock();
    startFiles := LegacyCollectPinchStartFiles(fs, roots.pinch, mode, startNanos);
    loopVariants := LegacyCollectPinchLoopVariants(fs, roots.pinch, mode);
    var endNanos := ReadClock();
    endFiles := LegacyCollectPinchEndFiles(fs, roots.pinch, mode, endNanos);
  }

  method LoadTouchAssets(fs: Dir, roots: CarouselRoots, mode: Mode)
    returns (head: TouchStageVariants, body: TouchStageVariants)
    ensures TouchAssetsOf(fs, roots, mode, head, body) && FramesNonEmpty(head) && FramesNonEmpty(body)
  {
    head := CollectTouchVariants(fs, roots.touchHead, mode);
    body := CollectTouchVariants(fs, roots.touchBody, mode);
  }

  method LoadShutdownAssets(fs: Dir, roots: CarouselRoots, mode: Mode) returns (variants: seq<seq<Path>>)
    ensures ShutdownAssetsOf(fs, roots, mode, variants) && AllNonEmpty(variants)
  {
    variants := LegacyCollectShutdownVariants(fs, roots.shutdown, mode);
  }

  // ---------------------------------------------------------------------
  // The fields of CarouselState, grouped by the animation they belong to
  // ---------------------------------------------------------------------

  /** `startup_files`, `startup_index`, `playing_startup` */
  datatype StartupTrack = StartupTrack(files: seq<Path>, index: nat, playing: bool)

  /** `default_files`, `default_index` */
  datatype DefaultTrack = DefaultTrack(files: seq<Path>, index: nat)

  /** The `drag_raise_*` fields and `drag_playback_mode`. */
  datatype DragTrack = DragTrack(startFiles: seq<Path>, startIndex: nat, loopFiles: seq<Path>, loopIndex: nat,
                                 endVariants: seq<seq<Path>>, endFiles: seq<Path>, endIndex: nat,
                                 mode: DragPlaybackMode)

  /** The `pinch_*` fields and `pinch_playback_mode`. */
  datatype PinchTrack = PinchTrack(startFiles: seq<Path>, startIndex: nat, loopVariants: seq<seq<Path>>,
                                   loopFiles: seq<Path>, loopIndex: nat, endFiles: seq<Path>, endIndex: nat,
                                   mode: PinchPlaybackMode)

  /** The `touch_*` fields and `touch_playback_mode`. */
  datatype TouchTrack = TouchTrack(headVariants: TouchStageVariants, bodyVariants: TouchStageVariants,
                                   files: seq<Path>, index: nat, mode: TouchPlaybackMode)

  /** The `shutdown_*` fields and `playing_shutdown`. */
  datatype ShutdownTrack = ShutdownTrack(variants: seq<seq<Path>>, files: seq<Path>, index: nat,
                                         holdFrame: Option<Path>, playing: bool)

  /** `stop_startup_playback` leaves the startup fields like this. */
  const STARTUP_STOPPED: StartupTrack := StartupTrack([], 0, false)

  /** `stop_touch_playback`: the collected variants stay. */
  function TouchStopped(t: TouchTrack): TouchTrack
  {
    t.(files := [], index := 0, mode := TouchNone)
  }

  /** `stop_pinch_playback`: the start and end files and the loop variants stay. */
  function PinchStopped(p: PinchTrack): PinchTrack
  {
    p.(mode := PinchNone, loopFiles := [], startIndex := 0, loopIndex := 0, endIndex := 0)
  }

  /** What a shutdown request does to the drag fields: the collected lists stay. */
  function DragCleared(d: DragTrack): DragTrack
  {
    d.(mode := DragNone, startIndex := 0, loopIndex := 0, endIndex := 0, endFiles := [])
  }

  predicate StartupTrackOk(s: StartupTrack)
  {
    s.playing ==> s.index < |s.files|
  }

  predicate DefaultTrackOk(d: DefaultTrack)
  {
    d.index < |d.files|
  }

  predicate DragTrackOk(d: DragTrack)
  {
    d.loopFiles != [] ==> d.loopIndex < |d.loopFiles|
  }

  predicate PinchTrackOk(p: PinchTrack)
  {
    p.loopFiles != [] ==> p.loopVariants != []
  }

  predicate TouchTrackOk(t: TouchTrack)
  {
    FramesNonEmpty(t.headVariants) && FramesNonEmpty(t.bodyVariants)
  }

  /** While shutdown plays, its cursor is in bounds and its hold frame is the frame under the cursor. */
  predicate ShutdownTrackOk(s: ShutdownTrack)
  {
    AllNonEmpty(s.variants)
    && (s.playing ==> s.index < |s.files| && s.holdFrame == Some(s.files[s.index]))
  }

  /** Nothing else plays while shutdown does. */
  predicate ShutdownExclusive(s: ShutdownTrack, startup: StartupTrack, d: DragTrack, p: PinchTrack, t: TouchTrack)
  {
    s.playing ==> !startup.playing && d.mode == DragNone && p.mode == PinchNone && t.mode == TouchNone
  }

  /** The mode and the mode-dependent collections of the state. */
  datatype Collections = Collections(mode: Mode, dragStart: seq<Path>, dragLoop: seq<Path>,
                                     dragEnd: seq<seq<Path>>, pinchStart: seq<Path>,
                                     pinchLoop: seq<seq<Path>>, pinchEnd: seq<Path>,
                                     touchHead: TouchStageVariants, touchBody: TouchStageVariants,
                                     shutdown: seq<seq<Path>>)

  /** The collections are the ones the collectors give for `mode`. */
  ghost predicate CollectedFor(fs: Dir, roots: CarouselRoots, mode: Mode, c: Collections)
  {
    c.mode == mode
    && DragAssetsOf(fs, roots, mode, c.dragStart, c.dragLoop, c.dragEnd)
    && PinchAssetsOf(fs, roots, mode, c.pinchStart, c.pinchLoop, c.pinchEnd)
    && TouchAssetsOf(fs, roots, mode, c.touchHead, c.touchBody)
    && ShutdownAssetsOf(fs, roots, mode, c.shutdown)
  }

  // ---------------------------------------------------------------------
  // CarouselState
  // ---------------------------------------------------------------------

  class CarouselState {
    var startup: StartupTrack
    var currentMode: Mode
    const defaultHappyVariants: seq<seq<Path>>
    const defaultNomalVariants: seq<seq<Path>>
    const defaultPoorConditionVariants: seq<seq<Path>>
    const defaultIllVariants: seq<seq<Path>>
    var defaults: DefaultTrack
    var drag: DragTrack
    var pinch: PinchTrack
    var touch: TouchTrack
    var shutdown: ShutdownTrack
    const roots: CarouselRoots

    /** What keeps every indexed read of the tick in bounds, and the fact that nothing else plays while shutdown does. */
    ghost predicate Valid()
      reads this
    {
      DefaultVariantsOk() && DefaultTrackOk(defaults) && StartupTrackOk(startup) && DragTrackOk(drag)
      && PinchTrackOk(pinch) && TouchTrackOk(touch) && ShutdownTrackOk(shutdown)
      && ShutdownExclusive(shutdown, startup, drag, pinch, touch)
    }

    /** Every idle variant has a frame and Happy has a variant, so every default selection has a first frame. */
    predicate DefaultVariantsOk()
    {
      defaultHappyVariants != [] && AllNonEmpty(defaultHappyVariants) && AllNonEmpty(defaultNomalVariants)
      && AllNonEmpty(defaultPoorConditionVariants) && AllNonEmpty(defaultIllVariants)
    }

    /** The default idle sequence is one `select_default_files_for_mode` can draw for the current mode. */
    ghost predicate DefaultFilesDrawn()
      reads this
    {
      DefaultDrawnOf(currentMode, defaultHappyVariants, defaultNomalVariants, defaultPoorConditionVariants,
                     defaultIllVariants, defaults.files)
    }

    /** The mode and every collection a mode reload replaces, apart from the default idle sequence. */
    function Collected(): Collections
      reads this
    {
      Collections(currentMode, drag.startFiles, drag.loopFiles, drag.endVariants, pinch.startFiles,
                  pinch.loopVariants, pinch.endFiles, touch.headVariants, touch.bodyVariants, shutdown.variants)
    }

    /** Every mode-dependent collection is what the older collectors give for `mode` (some at a drawn index). */
    ghost predicate AssetsFor(fs: Dir, mode: Mode)
      reads this
    {
      CollectedFor(fs, roots, mode, Collected()) && DefaultFilesDrawn()
    }

    function Cursors(): CursorSet
      reads this
    {
      CursorSet(startup.index, defaults.index, drag.startIndex, drag.loopIndex, drag.endIndex,
                pinch.startIndex, pinch.loopIndex, pinch.endIndex, touch.index, shutdown.index)
    }

    /** The branch of the advance step the current state selects. */
    function Source(): FrameSource
      reads this
    {
      if shutdown.playing then ShutdownPlaying
      else if shutdown.holdFrame.Some? then ShutdownHeld
      else if drag.mode == DragStart then DragStarting
      else if drag.mode == DragLoop && drag.loopFiles != [] then DragLooping
      else if drag.mode == DragEnd then DragEnding
      else if pinch.mode == PinchStart then PinchStarting
      else if pinch.mode == PinchLoop && pinch.loopFiles != [] then PinchLooping
      else if pinch.mode == PinchEnd then PinchEnding
      else if touch.mode != TouchNone then Touching
      else if startup.playing then StartingUp
      else DefaultIdling
    }

    /**
     * The state `load_carousel_images` builds from the collected idle
     * variants: every mode-dependent collection for `mode`, a drawn startup
     * sequence that plays when it is non-empty, and nothing else playing.
     */
    constructor (fs: Dir, roots: CarouselRoots, mode: Mode, happy: seq<seq<Path>>, nomal: seq<seq<Path>>,
                 poorCondition: seq<seq<Path>>, ill: seq<seq<Path>>)
      requires happy != [] && AllNonEmpty(happy) && AllNonEmpty(nomal)
      requires AllNonEmpty(poorCondition) && AllNonEmpty(ill)
      ensures Valid() && AssetsFor(fs, mode)
      ensures this.roots == roots && defaultHappyVariants == happy && defaultNomalVariants == nomal
      ensures defaultPoorConditionVariants == poorCondition && defaultIllVariants == ill
      ensures exists nanos :: startup.files == ChooseStartupAnimationFiles(fs, roots.startup, mode, nanos).UnwrapOr([])
      ensures startup.playing <==> startup.files != []
      ensures Cursors() == CursorSet(0, 0, 0, 0, 0, 0, 0, 0, 0, 0)
      ensures drag.endFiles == [] && pinch.loopFiles == [] && touch.files == [] && shutdown.files == []
      ensures drag.mode == DragNone && pinch.mode == PinchNone && touch.mode == TouchNone
      ensures !shutdown.playing && shutdown.holdFrame == None
    {
      var files := DrawDefaultFiles(mode, happy, nomal, poorCondition, ill);
      var nanos := ReadClock();
      var startupFiles := ChooseStartupAnimationFiles(fs, roots.startup, mode, nanos).UnwrapOr([]);
      var startFiles, loopFiles, endVariants := LoadDragAssets(fs, roots, mode);
      var pinchStart, pinchLoop, pinchEnd := LoadPinchAssets(fs, roots, mode);
      var head, body := LoadTouchAssets(fs, roots, mode);
      var shutdownVariants := LoadShutdownAssets(fs, roots, mode);
      this.roots := roots;
      defaultHappyVariants, defaultNomalVariants := happy, nomal;
      defaultPoorConditionVariants, defaultIllVariants := poorCondition, ill;
      currentMode := mode;
      defaults := DefaultTrack(files, 0);
      startup := StartupTrack(startupFiles, 0, startupFiles != []);
      drag := DragTrack(startFiles, 0, loopFiles, 0, endVariants, [], 0, DragNone);
      pinch := PinchTrack(pinchStart, 0, pinchLoop, [], 0, pinchEnd, 0, PinchNone);
      touch := TouchTrack(head, body, [], 0, TouchNone);
      shutdown := ShutdownTrack(shutdownVariants, [], 0, None, false);
    }

    /** The frame shown before the first tick: the first startup frame while startup plays, else the first idle frame. */
    method FirstFrame() returns (frame: Path)
      requires Valid()
      ensures startup.playing ==> frame == startup.files[0]
      ensures !startup.playing ==> frame == defaults.files[0]
    {
      if startup.playing {
        frame := startup.files[0];
      } else {
        frame := defaults.files[0];
      }
    }

    // -------------------------------------------------------------------
    // Stopping and entering
    // -------------------------------------------------------------------

    /** `stop_touch_playback` */
    method StopTouchPlayback()
      requires Valid()
      modifies this`touch
      ensures Valid() && touch == TouchStopped(old(touch))
    {
      touch := TouchStopped(touch);
    }

    /** `stop_startup_playback` */
    method StopStartupPlayback()
      requires Valid()
      modifies this`startup
      ensures Valid() && startup == STARTUP_STOPPED
    {
      startup := STARTUP_STOPPED;
    }

    /** `stop_pinch_playback` */
    method StopPinchPlayback()
      requires Valid()
      modifies this`pinch
      ensures Valid() && pinch == PinchStopped(old(pinch))
    {
      pinch := PinchStopped(pinch);
    }

    /** `refresh_default_idle_selection`: a fresh draw for the current mode, from its first frame. */
    method RefreshDefaultIdleSelection()
      requires Valid()
      modifies this`defaults
      ensures Valid() && DefaultFilesDrawn() && defaults.index == 0
    {
      var files := DrawDefaultFiles(currentMode, defaultHappyVariants, defaultNomalVariants,
                                    defaultPoorConditionVariants, defaultIllVariants);
      defaults := DefaultTrack(files, 0);
    }

    /** `enter_default_idle`: refreshes the selection and returns its first frame, which exists. */
    method EnterDefaultIdle() returns (frame: Path)
      requires Valid()
      modifies this`defaults
      ensures Valid() && DefaultFilesDrawn() && defaults.index == 0
      ensures frame == defaults.files[0]
    {
      RefreshDefaultIdleSelection();
      frame := defaults.files[0];
    }

    // -------------------------------------------------------------------
    // Dispatch
    // -------------------------------------------------------------------

    /**
     * The mode reload of the tick: every mode-dependent collection anew,
     * every cursor of it at 0, touch stopped, and the forced frame set to
     * the first frame of a fresh default idle when shutdown, drag and pinch
     * are all idle. Playback modes and the sequences already playing stay.
     */
    method ReloadMode(fs: Dir, mode: Mode, forced: Option<Path>) returns (forcedOut: Option<Path>)
      requires Valid()
      modifies this`currentMode, this`defaults, this`drag, this`pinch, this`touch, this`shutdown
      ensures Valid() && AssetsFor(fs, mode) && defaults.index == 0
      ensures drag == old(drag).(startFiles := drag.startFiles, loopFiles := drag.loopFiles,
                                 endVariants := drag.endVariants, startIndex := 0, loopIndex := 0,
                                 endFiles := [], endIndex := 0)
      ensures pinch == old(pinch).(startFiles := pinch.startFiles, loopVariants := pinch.loopVariants,
                                   endFiles := pinch.endFiles, startIndex := 0, loopFiles := [],
                                   loopIndex := 0, endIndex := 0)
      ensures touch == TouchStopped(touch)
      ensures shutdown == old(shutdown).(variants := shutdown.variants)
      ensures !shutdown.playing && drag.mode == DragNone && pinch.mode == PinchNone ==>
        forcedOut == Some(defaults.files[0])
      ensures !(!shutdown.playing && drag.mode == DragNone && pinch.mode == PinchNone) ==>
        forcedOut == forced
    {
      currentMode := mode;
      RefreshDefaultIdleSelection();
      var startFiles, loopFiles, endVariants := LoadDragAssets(fs, roots, mode);
      var pinchStart, pinchLoop, pinchEnd := LoadPinchAssets(fs, roots, mode);
      var head, body := LoadTouchAssets(fs, roots, mode);
      var shutdownVariants := LoadShutdownAssets(fs, roots, mode);
      drag := drag.(startFiles := startFiles, startIndex := 0, loopFiles := loopFiles, loopIndex := 0,
                    endVariants := endVariants, endFiles := [], endIndex := 0);
      pinch := pinch.(startFiles := pinchStart, startIndex := 0, loopVariants := pinchLoop, loopFiles := [],
                      loopIndex := 0, endFiles := pinchEnd, endIndex := 0);
      touch := TouchTrack(head, body, [], 0, TouchNone);
      shutdown := shutdown.(variants := shutdownVariants);
      forcedOut := forced;
      if !shutdown.playing && drag.mode == DragNone && pinch.mode == PinchNone {
        var frame := EnterDefaultIdle();
        forcedOut := Some(frame);
      }
    }

    /** Shutdown, drag, pinch and touch are all idle: the condition for honouring a touch request. */
    predicate TouchAllowed()
      reads this
    {
      !shutdown.playing && drag.mode == DragNone && pinch.mode == PinchNone && touch.mode == TouchNone
    }

    /**
     * The touch dispatch: a head or body request is honoured exactly when
     * shutdown, drag, pinch and touch are idle and the requested variants
     * have a stage (so the built sequence is non-empty); then startup stops
     * and the sequence plays from its first frame, which is forced.
     */
    method DispatchTouch(touchRequest: int, forced: Option<Path>) returns (forcedOut: Option<Path>, ghost honoured: bool)
      requires Valid()
      modifies this`touch, this`startup
      ensures Collected() == old(Collected())
      ensures Valid()
      ensures honoured <==>
        old(TouchAllowed())
        && ((touchRequest == TOUCH_ANIM_HEAD_REQUESTED && !NoStages(touch.headVariants))
            || (touchRequest == TOUCH_ANIM_BODY_REQUESTED && !NoStages(touch.bodyVariants)))
      ensures honoured ==>
        touch == old(touch).(mode := touch.mode, files := touch.files, index := 0)
        && touch.mode == (if touchRequest == TOUCH_ANIM_HEAD_REQUESTED then Head else Body)
        && IsTouchSequence(if touchRequest == TOUCH_ANIM_HEAD_REQUESTED then touch.headVariants else touch.bodyVariants,
                           touch.files)
        && touch.files != [] && forcedOut == Some(touch.files[0]) && startup == STARTUP_STOPPED
      ensures !honoured ==> forcedOut == forced && touch == old(touch) && startup == old(startup)
    {
      forcedOut := forced;
      honoured := false;
      if TouchAllowed() {
        var playbackMode: TouchPlaybackMode := TouchNone;
        var sequence: seq<Path> := [];
        if touchRequest == TOUCH_ANIM_HEAD_REQUESTED {
          playbackMode := Head;
          sequence := BuildTouchSequence(touch.headVariants);
        } else if touchRequest == TOUCH_ANIM_BODY_REQUESTED {
          playbackMode := Body;
          sequence := BuildTouchSequence(touch.bodyVariants);
        }
        if playbackMode != TouchNone && sequence != [] {
          StopStartupPlayback();
          touch := touch.(mode := playbackMode, files := sequence, index := 0);
          forcedOut := FirstOf(touch.files);
          honoured := true;
        }
      }
    }

    /**
     * A shutdown request: with no variants it only marks the shutdown
     * finished; otherwise it stops startup, touch, pinch and drag and plays
     * a drawn variant from index 0, its first frame held and forced.
     */
    method DispatchShutdown(m: Mailbox, forced: Option<Path>) returns (forcedOut: Option<Path>)
      requires Valid() && m.Valid()
      modifies m, this`startup, this`touch, this`pinch, this`drag, this`shutdown
      ensures Collected() == old(Collected())
      ensures Valid() && m.Valid() && m.Pending() == old(m.Pending())
      ensures shutdown.variants == [] ==>
        m.shutdownFinished && forcedOut == forced && unchanged(this)
      ensures shutdown.variants != [] ==>
        m.shutdownFinished == old(m.shutdownFinished)
        && shutdown.files in shutdown.variants && shutdown.files != []
        && shutdown == old(shutdown).(files := shutdown.files, index := 0, playing := true,
                                      holdFrame := Some(shutdown.files[0]))
        && forcedOut == shutdown.holdFrame
        && startup == STARTUP_STOPPED && touch == TouchStopped(old(touch))
        && pinch == PinchStopped(old(pinch)) && drag == DragCleared(old(drag))
    {
      if shutdown.variants == [] {
        m.SetShutdownAnimationFinished(true);
        forcedOut := forced;
      } else {
        StopStartupPlayback();
        StopTouchPlayback();
        StopPinchPlayback();
        drag := DragCleared(drag);
        var nanos := ReadClock();
        var files := shutdown.variants[PseudoRandomIndex(|shutdown.variants|, nanos)];
        shutdown := shutdown.(files := files, index := 0, playing := true, holdFrame := FirstOf(files));
        forcedOut := shutdown.holdFrame;
      }
    }

    /** The stops a drag start or loop performs, in the source's order. */
    method StopForDrag()
      requires Valid()
      modifies this`startup, this`pinch, this`touch
      ensures Valid()
      ensures startup == STARTUP_STOPPED && pinch == PinchStopped(old(pinch)) && touch == TouchStopped(old(touch))
    {
      StopStartupPlayback();
      StopPinchPlayback();
      StopTouchPlayback();
    }

    /** The stops a pinch start, loop or end performs. */
    method StopForPinch()
      requires Valid()
      modifies this`startup, this`touch
      ensures Valid()
      ensures startup == STARTUP_STOPPED && touch == TouchStopped(old(touch))
    {
      StopStartupPlayback();
      StopTouchPlayback();
    }

    /**
     * The drag dispatch, reached only while shutdown is not playing. A start
     * plays the start files, else the loop files, from their first frame; a
     * loop request (not during Start) joins the loop, restarting it only
     * when it was not already looping; an end plays a drawn end variant, or
     * with none only sets the mode to None. Every other value does nothing.
     */
    method DispatchDrag(dragRequest: int, forced: Option<Path>) returns (forcedOut: Option<Path>)
      requires Valid() && !shutdown.playing
      modifies this`startup, this`pinch, this`touch, this`drag
      ensures Collected() == old(Collected())
      ensures Valid()
      ensures dragRequest == DRAG_ANIM_START_REQUESTED && drag.startFiles != [] ==>
        drag == old(drag).(mode := DragStart, startIndex := 0) && forcedOut == Some(drag.startFiles[0])
        && startup == STARTUP_STOPPED && pinch == PinchStopped(old(pinch)) && touch == TouchStopped(old(touch))
      ensures dragRequest == DRAG_ANIM_START_REQUESTED && drag.startFiles == [] && drag.loopFiles != [] ==>
        drag == old(drag).(mode := DragLoop, loopIndex := 0) && forcedOut == Some(drag.loopFiles[0])
        && startup == STARTUP_STOPPED && pinch == PinchStopped(old(pinch)) && touch == TouchStopped(old(touch))
      ensures dragRequest == DRAG_ANIM_LOOP_REQUESTED && old(drag.mode) != DragStart && drag.loopFiles != [] ==>
        startup == STARTUP_STOPPED && pinch == PinchStopped(old(pinch)) && touch == TouchStopped(old(touch))
        && (old(drag.mode) == DragLoop ==> drag == old(drag) && forcedOut == forced)
        && (old(drag.mode) != DragLoop ==>
              drag == old(drag).(mode := DragLoop, loopIndex := 0) && forcedOut == Some(drag.loopFiles[0]))
      ensures dragRequest == DRAG_ANIM_END_REQUESTED && drag.endVariants != [] ==>
        drag.endFiles in drag.endVariants
        && drag == old(drag).(mode := DragEnd, endFiles := drag.endFiles, endIndex := 0)
        && forcedOut == FirstOf(drag.endFiles)
        && startup == STARTUP_STOPPED && pinch == old(pinch) && touch == old(touch)
      ensures dragRequest == DRAG_ANIM_END_REQUESTED && drag.endVariants == [] ==>
        drag == old(drag).(mode := DragNone) && forcedOut == forced
        && startup == old(startup) && pinch == old(pinch) && touch == old(touch)
      ensures !(dragRequest == DRAG_ANIM_START_REQUESTED && (drag.startFiles != [] || drag.loopFiles != []))
              && !(dragRequest == DRAG_ANIM_LOOP_REQUESTED && old(drag.mode) != DragStart && drag.loopFiles != [])
              && dragRequest != DRAG_ANIM_END_REQUESTED ==>
        unchanged(this) && forcedOut == forced
    {
      forcedOut := forced;
      if dragRequest == DRAG_ANIM_START_REQUESTED {
        if drag.startFiles != [] {
          StopForDrag();
          drag := drag.(mode := DragStart, startIndex := 0);
          forcedOut := Some(drag.startFiles[0]);
        } else if drag.loopFiles != [] {
          StopForDrag();
          drag := drag.(mode := DragLoop, loopIndex := 0);
          forcedOut := Some(drag.loopFiles[0]);
        }
      } else if dragRequest == DRAG_ANIM_LOOP_REQUESTED {
        if drag.mode != DragStart && drag.loopFiles != [] {
          StopForDrag();
          if drag.mode != DragLoop {
            drag := drag.(loopIndex := 0);
            forcedOut := Some(drag.loopFiles[0]);
          }
          drag := drag.(mode := DragLoop);
        }
      } else if dragRequest == DRAG_ANIM_END_REQUESTED {
        if drag.endVariants != [] {
          StopStartupPlayback();
          var nanos := ReadClock();
          var files := drag.endVariants[PseudoRandomIndex(|drag.endVariants|, nanos)];
          drag := drag.(endFiles := files, endIndex := 0, mode := DragEnd);
          forcedOut := FirstOf(drag.endFiles);
        } else {
          drag := drag.(mode := DragNone);
        }
      }
    }

    /**
     * The pinch dispatch, reached only while shutdown is not playing and drag
     * is idle. A start plays the start files, else a drawn loop variant; a
     * loop request (not during Start) joins the loop, redrawing only when it
     * was not looping or its files are empty; an end plays the end files, or
     * with none only sets the mode to None.
     */
    method DispatchPinch(pinchRequest: int, forced: Option<Path>) returns (forcedOut: Option<Path>)
      requires Valid() && !shutdown.playing
      modifies this`startup, this`touch, this`pinch
      ensures Collected() == old(Collected())
      ensures Valid()
      ensures pinchRequest == PINCH_ANIM_START_REQUESTED && pinch.startFiles != [] ==>
        pinch == old(pinch).(mode := PinchStart, startIndex := 0) && forcedOut == Some(pinch.startFiles[0])
        && startup == STARTUP_STOPPED && touch == TouchStopped(old(touch))
      ensures pinchRequest == PINCH_ANIM_START_REQUESTED && pinch.startFiles == [] && pinch.loopVariants != [] ==>
        pinch.loopFiles in pinch.loopVariants
        && pinch == old(pinch).(mode := PinchLoop, loopFiles := pinch.loopFiles, loopIndex := 0)
        && forcedOut == FirstOf(pinch.loopFiles) && startup == STARTUP_STOPPED && touch == TouchStopped(old(touch))
      ensures pinchRequest == PINCH_ANIM_LOOP_REQUESTED && old(pinch.mode) != PinchStart && pinch.loopVariants != [] ==>
        startup == STARTUP_STOPPED && touch == TouchStopped(old(touch))
        && (old(pinch.mode) == PinchLoop && old(pinch.loopFiles) != [] ==> pinch == old(pinch) && forcedOut == forced)
        && (old(pinch.mode) != PinchLoop || old(pinch.loopFiles) == [] ==>
              pinch.loopFiles in pinch.loopVariants
              && pinch == old(pinch).(mode := PinchLoop, loopFiles := pinch.loopFiles, loopIndex := 0)
              && forcedOut == FirstOf(pinch.loopFiles))
      ensures pinchRequest == PINCH_ANIM_END_REQUESTED && pinch.endFiles != [] ==>
        pinch == old(pinch).(mode := PinchEnd, endIndex := 0) && forcedOut == Some(pinch.endFiles[0])
        && startup == STARTUP_STOPPED && touch == TouchStopped(old(touch))
      ensures pinchRequest == PINCH_ANIM_END_REQUESTED && pinch.endFiles == [] ==>
        pinch == old(pinch).(mode := PinchNone) && forcedOut == forced
        && startup == old(startup) && touch == old(touch)
      ensures !(pinchRequest == PINCH_ANIM_START_REQUESTED && (pinch.startFiles != [] || pinch.loopVariants != []))
              && !(pinchRequest == PINCH_ANIM_LOOP_REQUESTED && old(pinch.mode) != PinchStart && pinch.loopVariants != [])
              && pinchRequest != PINCH_ANIM_END_REQUESTED ==>
        unchanged(this) && forcedOut == forced
    {
      forcedOut := forced;
      if pinchRequest == PINCH_ANIM_START_REQUESTED {
        if pinch.startFiles != [] {
          StopForPinch();
          pinch := pinch.(mode := PinchStart, startIndex := 0);
          forcedOut := Some(pinch.startFiles[0]);
        } else if pinch.loopVariants != [] {
          StopForPinch();
          var nanos := ReadClock();
          var files := pinch.loopVariants[PseudoRandomIndex(|pinch.loopVariants|, nanos)];
          pinch := pinch.(loopFiles := files, loopIndex := 0, mode := PinchLoop);
          forcedOut := FirstOf(pinch.loopFiles);
        }
      } else if pinchRequest == PINCH_ANIM_LOOP_REQUESTED {
        if pinch.mode != PinchStart && pinch.loopVariants != [] {
          StopForPinch();
          if pinch.mode != PinchLoop || pinch.loopFiles == [] {
            var nanos := ReadClock();
            var files := pinch.loopVariants[PseudoRandomIndex(|pinch.loopVariants|, nanos)];
            pinch := pinch.(loopFiles := files, loopIndex := 0);
            forcedOut := FirstOf(pinch.loopFiles);
          }
          pinch := pinch.(mode := PinchLoop);
        }
      } else if pinchRequest == PINCH_ANIM_END_REQUESTED {
        if pinch.endFiles != [] {
          StopForPinch();
          pinch := pinch.(mode := PinchEnd, endIndex := 0);
          forcedOut := Some(pinch.endFiles[0]);
        } else {
          pinch := pinch.(mode := PinchNone);
        }
      }
    }

    // -------------------------------------------------------------------
    // Advance
    // -------------------------------------------------------------------

    /** While shutdown plays: the next frame becomes the hold frame; past the last, playback ends on the hold frame. */
    method AdvanceShutdown(m: Mailbox) returns (frame: Path)
      requires Valid() && m.Valid() && shutdown.playing
      modifies m, this`shutdown
      ensures Valid() && m.Valid() && m.Pending() == old(m.Pending())
      ensures old(shutdown.index) + 1 < |shutdown.files| ==>
        shutdown == old(shutdown).(index := old(shutdown.index) + 1, holdFrame := Some(frame))
        && frame == shutdown.files[shutdown.index] && m.shutdownFinished == old(m.shutdownFinished)
      ensures old(shutdown.index) + 1 >= |shutdown.files| ==>
        shutdown == old(shutdown).(playing := false) && m.shutdownFinished && frame == shutdown.holdFrame.value
    {
      var nextIndex := shutdown.index + 1;
      if nextIndex < |shutdown.files| {
        frame := shutdown.files[nextIndex];
        shutdown := shutdown.(index := nextIndex, holdFrame := Some(frame));
      } else {
        shutdown := shutdown.(playing := false);
        m.SetShutdownAnimationFinished(true);
        frame := shutdown.holdFrame.UnwrapOr(defaults.files[defaults.index]);
      }
    }

    /** Drag Start: the next start frame, else the loop from its first frame, else the default idle. */
    method AdvanceDragStart() returns (frame: Path)
      requires Valid() && !shutdown.playing && drag.mode == DragStart
      modifies this`drag, this`defaults
      ensures Valid()
      ensures old(drag.startIndex) + 1 < |drag.startFiles| ==>
        drag == old(drag).(startIndex := old(drag.startIndex) + 1) && defaults == old(defaults)
        && frame == drag.startFiles[drag.startIndex]
      ensures old(drag.startIndex) + 1 >= |drag.startFiles| && drag.loopFiles != [] ==>
        drag == old(drag).(mode := DragLoop, loopIndex := 0) && defaults == old(defaults)
        && frame == drag.loopFiles[0]
      ensures old(drag.startIndex) + 1 >= |drag.startFiles| && drag.loopFiles == [] ==>
        drag == old(drag).(mode := DragNone) && DefaultFilesDrawn() && defaults.index == 0
        && frame == defaults.files[0]
    {
      var nextIndex := drag.startIndex + 1;
      if nextIndex < |drag.startFiles| {
        drag := drag.(startIndex := nextIndex);
        frame := drag.startFiles[nextIndex];
      } else if drag.loopFiles != [] {
        drag := drag.(mode := DragLoop, loopIndex := 0);
        frame := drag.loopFiles[0];
      } else {
        drag := drag.(mode := DragNone);
        frame := EnterDefaultIdle();
      }
    }

    /** Drag Loop: the cursor steps modulo the loop length. */
    method AdvanceDragLoop() returns (frame: Path)
      requires Valid() && drag.loopFiles != []
      modifies this`drag
      ensures Valid()
      ensures drag == old(drag).(loopIndex := WrapNext(old(drag.loopIndex), |old(drag.loopFiles)|))
      ensures frame == drag.loopFiles[drag.loopIndex]
    {
      drag := drag.(loopIndex := WrapNext(drag.loopIndex, |drag.loopFiles|));
      frame := drag.loopFiles[drag.loopIndex];
    }

    /** The frame after a one-shot sequence ends: the current startup frame while startup plays, else the default idle. */
    method ResumeAfterOneShot() returns (frame: Path)
      requires Valid()
      modifies this`defaults
      ensures Valid()
      ensures startup.playing ==> frame == startup.files[startup.index] && defaults == old(defaults)
      ensures !startup.playing ==> DefaultFilesDrawn() && defaults.index == 0 && frame == defaults.files[0]
    {
      if startup.playing {
        frame := startup.files[startup.index];
      } else {
        frame := EnterDefaultIdle();
      }
    }

    /** Drag End: each end frame once, then drag stops. */
    method AdvanceDragEnd() returns (frame: Path)
      requires Valid() && !shutdown.playing && drag.mode == DragEnd
      modifies this`drag, this`defaults
      ensures Valid()
      ensures old(drag.endIndex) + 1 < |drag.endFiles| ==>
        drag == old(drag).(endIndex := old(drag.endIndex) + 1) && defaults == old(defaults)
        && frame == drag.endFiles[drag.endIndex]
      ensures old(drag.endIndex) + 1 >= |drag.endFiles| ==>
        drag == old(drag).(mode := DragNone)
        && (startup.playing ==> frame == startup.files[startup.index] && defaults == old(defaults))
        && (!startup.playing ==> DefaultFilesDrawn() && defaults.index == 0 && frame == defaults.files[0])
    {
      var nextIndex := drag.endIndex + 1;
      if nextIndex < |drag.endFiles| {
        drag := drag.(endIndex := nextIndex);
        frame := drag.endFiles[nextIndex];
      } else {
        drag := drag.(mode := DragNone);
        frame := ResumeAfterOneShot();
      }
    }

    /** Pinch Start: the next start frame, else a drawn loop variant, else the default idle. */
    method AdvancePinchStart() returns (frame: Path)
      requires Valid() && !shutdown.playing && pinch.mode == PinchStart
      modifies this`pinch, this`defaults
      ensures Valid()
      ensures old(pinch.startIndex) + 1 < |pinch.startFiles| ==>
        pinch == old(pinch).(startIndex := old(pinch.startIndex) + 1) && defaults == old(defaults)
        && frame == pinch.startFiles[pinch.startIndex]
      ensures old(pinch.startIndex) + 1 >= |pinch.startFiles| && pinch.loopVariants != [] ==>
        pinch.loopFiles in pinch.loopVariants
        && pinch == old(pinch).(mode := PinchLoop, loopFiles := pinch.loopFiles, loopIndex := 0)
        && (pinch.loopFiles != [] ==> frame == pinch.loopFiles[0] && defaults == old(defaults))
        && (pinch.loopFiles == [] ==> DefaultFilesDrawn() && defaults.index == 0 && frame == defaults.files[0])
      ensures old(pinch.startIndex) + 1 >= |pinch.startFiles| && pinch.loopVariants == [] ==>
        pinch == old(pinch).(mode := PinchNone) && DefaultFilesDrawn() && defaults.index == 0
        && frame == defaults.files[0]
    {
      var nextIndex := pinch.startIndex + 1;
      if nextIndex < |pinch.startFiles| {
        pinch := pinch.(startIndex := nextIndex);
        frame := pinch.startFiles[nextIndex];
      } else if pinch.loopVariants != [] {
        var nanos := ReadClock();
        var files := pinch.loopVariants[PseudoRandomIndex(|pinch.loopVariants|, nanos)];
        pinch := pinch.(loopFiles := files, loopIndex := 0, mode := PinchLoop);
        if pinch.loopFiles != [] {
          frame := pinch.loopFiles[0];
        } else {
          frame := EnterDefaultIdle();
        }
      } else {
        pinch := pinch.(mode := PinchNone);
        frame := EnterDefaultIdle();
      }
    }

    /** Pinch Loop: the next loop frame; past the last, a fresh variant from its first frame. */
    method AdvancePinchLoop() returns (frame: Path)
      requires Valid() && pinch.loopFiles != []
      modifies this`pinch
      ensures Valid()
      ensures old(pinch.loopIndex) + 1 < |old(pinch.loopFiles)| ==>
        pinch == old(pinch).(loopIndex := old(pinch.loopIndex) + 1) && frame == pinch.loopFiles[pinch.loopIndex]
      ensures old(pinch.loopIndex) + 1 >= |old(pinch.loopFiles)| ==>
        pinch.loopFiles in pinch.loopVariants
        && pinch == old(pinch).(loopFiles := pinch.loopFiles, loopIndex := 0)
        && frame == FirstOf(pinch.loopFiles).UnwrapOr(defaults.files[defaults.index])
    {
      var nextIndex := pinch.loopIndex + 1;
      if nextIndex < |pinch.loopFiles| {
        pinch := pinch.(loopIndex := nextIndex);
        frame := pinch.loopFiles[nextIndex];
      } else {
        var nanos := ReadClock();
        var files := pinch.loopVariants[PseudoRandomIndex(|pinch.loopVariants|, nanos)];
        pinch := pinch.(loopFiles := files, loopIndex := 0);
        frame := FirstOf(pinch.loopFiles).UnwrapOr(defaults.files[defaults.index]);
      }
    }

    /** Pinch End: each end frame once, then pinch stops. */
    method AdvancePinchEnd() returns (frame: Path)
      requires Valid() && !shutdown.playing && pinch.mode == PinchEnd
      modifies this`pinch, this`defaults
      ensures Valid()
      ensures old(pinch.endIndex) + 1 < |pinch.endFiles| ==>
        pinch == old(pinch).(endIndex := old(pinch.endIndex) + 1) && defaults == old(defaults)
        && frame == pinch.endFiles[pinch.endIndex]
      ensures old(pinch.endIndex) + 1 >= |pinch.endFiles| ==>
        pinch == old(pinch).(mode := PinchNone)
        && (startup.playing ==> frame == startup.files[startup.index] && defaults == old(defaults))
        && (!startup.playing ==> DefaultFilesDrawn() && defaults.index == 0 && frame == defaults.files[0])
    {
      var nextIndex := pinch.endIndex + 1;
      if nextIndex < |pinch.endFiles| {
        pinch := pinch.(endIndex := nextIndex);
        frame := pinch.endFiles[nextIndex];
      } else {
        pinch := pinch.(mode := PinchNone);
        frame := ResumeAfterOneShot();
      }
    }

    /** Touch: each touch frame once, then touch is cleared. */
    method AdvanceTouch() returns (frame: Path)
      requires Valid() && !shutdown.playing && touch.mode != TouchNone
      modifies this`touch, this`defaults
      ensures Valid()
      ensures old(touch.index) + 1 < |old(touch.files)| ==>
        touch == old(touch).(index := old(touch.index) + 1) && defaults == old(defaults)
        && frame == touch.files[touch.index]
      ensures old(touch.index) + 1 >= |old(touch.files)| ==>
        touch == TouchStopped(old(touch))
        && (startup.playing ==> frame == startup.files[startup.index] && defaults == old(defaults))
        && (!startup.playing ==> DefaultFilesDrawn() && defaults.index == 0 && frame == defaults.files[0])
    {
      var nextIndex := touch.index + 1;
      if nextIndex < |touch.files| {
        touch := touch.(index := nextIndex);
        frame := touch.files[nextIndex];
      } else {
        StopTouchPlayback();
        frame := ResumeAfterOneShot();
      }
    }

    /** Startup: each startup frame once, then the default idle. */
    method AdvanceStartup() returns (frame: Path)
      requires Valid() && startup.playing
      modifies this`startup, this`defaults
      ensures Valid()
      ensures old(startup.index) + 1 < |startup.files| ==>
        startup == old(startup).(index := old(startup.index) + 1) && defaults == old(defaults)
        && frame == startup.files[startup.index]
      ensures old(startup.index) + 1 >= |startup.files| ==>
        startup == old(startup).(playing := false)
        && DefaultFilesDrawn() && defaults.index == 0 && frame == defaults.files[0]
    {
      var nextIndex := startup.index + 1;
      if nextIndex < |startup.files| {
        startup := startup.(index := nextIndex);
        frame := startup.files[nextIndex];
      } else {
        startup := startup.(playing := false);
        frame := EnterDefaultIdle();
      }
    }

    /** Default idle: the cursor steps modulo the sequence length. */
    method AdvanceDefaultIdle() returns (frame: Path)
      requires Valid()
      modifies this`defaults
      ensures Valid()
      ensures defaults == old(defaults).(index := WrapNext(old(defaults.index), |defaults.files|))
      ensures frame == defaults.files[defaults.index]
    {
      defaults := defaults.(index := WrapNext(defaults.index, |defaults.files|));
      frame := defaults.files[defaults.index];
    }

    /** The advance step once shutdown and drag are idle: pinch Start/Loop/End, touch, startup, then the default idle. */
    method AdvanceBelowDrag() returns (frame: Path)
      requires Valid() && !shutdown.playing && shutdown.holdFrame.None?
      requires drag.mode != DragStart && drag.mode != DragEnd && !(drag.mode == DragLoop && drag.loopFiles != [])
      modifies this`startup, this`defaults, this`pinch, this`touch
      ensures Valid()
      ensures old(DefaultFilesDrawn()) ==> DefaultFilesDrawn()
      ensures Collected() == old(Collected())
      ensures old(touch.mode) == TouchNone ==> touch.mode == TouchNone
      ensures old(Source()) == DefaultIdling ==>
        defaults == old(defaults).(index := WrapNext(old(defaults.index), |old(defaults.files)|))
        && frame == defaults.files[defaults.index]
    {
      if pinch.mode == PinchStart {
        frame := AdvancePinchStart();
      } else if pinch.mode == PinchLoop && pinch.loopFiles != [] {
        frame := AdvancePinchLoop();
      } else if pinch.mode == PinchEnd {
        frame := AdvancePinchEnd();
      } else if touch.mode != TouchNone {
        frame := AdvanceTouch();
      } else if startup.playing {
        frame := AdvanceStartup();
      } else {
        frame := AdvanceDefaultIdle();
      }
    }

    /**
     * The advance step of a tick without a forced frame: the first of
     * shutdown playing, the held shutdown frame, drag Start/Loop/End, pinch
     * Start/Loop/End, touch, startup and the default idle produces the frame.
     */
    method Advance(m: Mailbox) returns (frame: Path, ghost source: FrameSource)
      requires Valid() && m.Valid()
      modifies this`startup, this`defaults, this`drag, this`pinch, this`touch, this`shutdown, m
      ensures old(DefaultFilesDrawn()) ==> DefaultFilesDrawn()
      ensures Collected() == old(Collected())
      ensures Valid() && m.Valid() && m.Pending() == old(m.Pending())
      ensures source == old(Source())
      ensures source != ShutdownPlaying ==> m.shutdownFinished == old(m.shutdownFinished) && shutdown == old(shutdown)
      ensures source == ShutdownPlaying && old(shutdown.index) + 1 < |shutdown.files| ==>
        shutdown == old(shutdown).(index := old(shutdown.index) + 1, holdFrame := Some(frame))
        && frame == shutdown.files[shutdown.index] && m.shutdownFinished == old(m.shutdownFinished)
      ensures old(touch.mode) == TouchNone ==> touch.mode == TouchNone
      ensures old(shutdown.holdFrame).Some? ==> shutdown.holdFrame.Some?
      ensures source == ShutdownPlaying && old(shutdown.index) + 1 >= |shutdown.files| ==>
        shutdown == old(shutdown).(playing := false) && m.shutdownFinished && frame == shutdown.holdFrame.value
      ensures source == ShutdownHeld ==>
        frame == shutdown.holdFrame.value && Cursors() == old(Cursors()) && defaults == old(defaults)
      ensures source == DragLooping ==>
        drag == old(drag).(loopIndex := WrapNext(old(drag.loopIndex), |old(drag.loopFiles)|))
        && frame == drag.loopFiles[drag.loopIndex]
      ensures source == DefaultIdling ==>
        defaults == old(defaults).(index := WrapNext(old(defaults.index), |old(defaults.files)|))
        && frame == defaults.files[defaults.index]
    {
      source := Source();
      if shutdown.playing {
        frame := AdvanceShutdown(m);
      } else if shutdown.holdFrame.Some? {
        frame := shutdown.holdFrame.value;
      } else if drag.mode == DragStart {
        frame := AdvanceDragStart();
      } else if drag.mode == DragLoop && drag.loopFiles != [] {
        frame := AdvanceDragLoop();
      } else if drag.mode == DragEnd {
        frame := AdvanceDragEnd();
      } else {
        frame := AdvanceBelowDrag();
      }
    }

    // -------------------------------------------------------------------
    // The tick
    // -------------------------------------------------------------------

    /**
     * The first half of a tick's dispatch: the reload for `nextMode`, only
     * when startup is not playing and the mode changed, then the touch
     * request. The result is the frame forced so far.
     */
    method ReloadAndTouch(fs: Dir, nextMode: Mode, touchRequest: int) returns (forced: Option<Path>, reloaded: bool)
      requires Valid()
      modifies this`currentMode, this`startup, this`defaults, this`drag, this`pinch, this`touch, this`shutdown
      ensures Valid()
      ensures reloaded <==> !old(startup.playing) && nextMode != old(currentMode)
      ensures reloaded ==> AssetsFor(fs, nextMode)
      ensures !reloaded ==> Collected() == old(Collected())
      ensures touchRequest == TOUCH_ANIM_IDLE && !reloaded ==> forced.None? && unchanged(this)
      ensures reloaded && touchRequest == TOUCH_ANIM_IDLE && !old(shutdown.playing)
              && old(drag.mode) == DragNone && old(pinch.mode) == PinchNone ==>
        forced == Some(defaults.files[0]) && defaults.index == 0
      ensures shutdown == old(shutdown).(variants := shutdown.variants)
      ensures old(touch.mode) == TouchNone && touch.mode != TouchNone ==>
        touchRequest == TOUCH_ANIM_HEAD_REQUESTED || touchRequest == TOUCH_ANIM_BODY_REQUESTED
    {
      reloaded := !startup.playing && nextMode != currentMode;
      forced := None;
      if reloaded {
        forced := ReloadMode(fs, nextMode, forced);
      }
      ghost var honoured: bool;
      forced, honoured := DispatchTouch(touchRequest, forced);
    }

    /**
     * The second half of a tick's dispatch: the shutdown request, and, while
     * shutdown is not playing, the drag request and (when drag is idle
     * afterwards) the pinch request.
     */
    method DispatchGestures(requests: AnimationRequests, m: Mailbox, forced: Option<Path>)
      returns (forcedOut: Option<Path>)
      requires Valid() && m.Valid()
      modifies this`startup, this`drag, this`pinch, this`touch, this`shutdown, m
      ensures Valid() && m.Valid() && m.Pending() == old(m.Pending())
      ensures Collected() == old(Collected())
      ensures requests.shutdown == SHUTDOWN_ANIM_IDLE && requests.drag == DRAG_ANIM_IDLE
              && requests.pinch == PINCH_ANIM_IDLE ==>
        forcedOut == forced && unchanged(this) && m.shutdownFinished == old(m.shutdownFinished)
      ensures requests.shutdown != SHUTDOWN_ANIM_REQUESTED || shutdown.variants == [] ==> shutdown == old(shutdown)
      ensures requests.shutdown == SHUTDOWN_ANIM_REQUESTED && shutdown.variants == [] ==> m.shutdownFinished
      ensures requests.shutdown == SHUTDOWN_ANIM_REQUESTED && shutdown.variants != [] ==>
        shutdown.playing && shutdown.files in shutdown.variants && shutdown.index == 0
        && shutdown.holdFrame == Some(shutdown.files[0]) && forcedOut == Some(shutdown.files[0])
        && m.shutdownFinished == old(m.shutdownFinished)
      ensures old(touch.mode) == TouchNone ==> touch.mode == TouchNone
    {
      forcedOut := forced;
      if requests.shutdown == SHUTDOWN_ANIM_REQUESTED {
        forcedOut := DispatchShutdown(m, forcedOut);
      }
      if !shutdown.playing {
        forcedOut := DispatchDrag(requests.drag, forcedOut);
        if drag.mode == DragNone {
          forcedOut := DispatchPinch(requests.pinch, forcedOut);
        }
      }
    }

    /**
     * The part of a tick before the frame is chosen: all four channels are
     * drained, the assets are reloaded on a mode change, and the requests
     * are dispatched. The result is the frame the dispatch forced, if any.
     */
    method DrainAndDispatch(fs: Dir, nextMode: Mode, m: Mailbox)
      returns (forced: Option<Path>, ghost requests: AnimationRequests, ghost reloaded: bool)
      requires Valid() && m.Valid()
      modifies this`currentMode, this`startup, this`defaults, this`drag, this`pinch, this`touch, this`shutdown, m
      ensures Valid() && m.Valid()
      ensures requests == old(m.Pending()) && m.Pending() == NoRequests
      ensures reloaded <==> !old(startup.playing) && nextMode != old(currentMode)
      ensures reloaded ==> AssetsFor(fs, nextMode)
      ensures !reloaded ==> Collected() == old(Collected())
      ensures requests.AllIdle() && !reloaded ==> forced.None? && unchanged(this)
      ensures reloaded && requests.AllIdle() && !old(shutdown.playing)
              && old(drag.mode) == DragNone && old(pinch.mode) == PinchNone ==>
        forced == Some(defaults.files[0]) && defaults.index == 0
      ensures requests.shutdown != SHUTDOWN_ANIM_REQUESTED || shutdown.variants == [] ==>
        shutdown == old(shutdown).(variants := shutdown.variants)
      ensures requests.shutdown == SHUTDOWN_ANIM_REQUESTED && shutdown.variants == [] ==> m.shutdownFinished
      ensures requests.shutdown == SHUTDOWN_ANIM_REQUESTED && shutdown.variants != [] ==>
        shutdown.playing && shutdown.files in shutdown.variants && shutdown.index == 0
        && shutdown.holdFrame == Some(shutdown.files[0]) && forced == Some(shutdown.files[0])
        && m.shutdownFinished == old(m.shutdownFinished)
      ensures old(touch.mode) == TouchNone && touch.mode != TouchNone ==>
        requests.touch == TOUCH_ANIM_HEAD_REQUESTED || requests.touch == TOUCH_ANIM_BODY_REQUESTED
    {
      var drained := m.ConsumeRequests();
      requests := drained;
      var reload: bool;
      forced, reload := ReloadAndTouch(fs, nextMode, drained.touch);
      reloaded := reload;
      forced := DispatchGestures(drained, m, forced);
    }

    /**
     * One timer tick. It drains all four channels, runs the reload and the
     * dispatches, and then returns the forced frame if one was set, else the
     * frame of the advance step, which a forced frame replaces: the cursors
     * are then left as the dispatch set them.
     */
    method Tick(fs: Dir, nextMode: Mode, m: Mailbox)
      returns (frame: Path, ghost requests: AnimationRequests, ghost reloaded: bool,
               ghost forced: Option<Path>, ghost dispatched: CursorSet)
      requires Valid() && m.Valid()
      modifies this`currentMode, this`startup, this`defaults, this`drag, this`pinch, this`touch, this`shutdown, m
      ensures Valid() && m.Valid()
      ensures requests == old(m.Pending()) && m.Pending() == NoRequests
      ensures reloaded <==> !old(startup.playing) && nextMode != old(currentMode)
      ensures reloaded ==> AssetsFor(fs, nextMode)
      ensures !reloaded ==> Collected() == old(Collected())
      ensures forced.Some? ==> frame == forced.value && Cursors() == dispatched
      ensures requests.AllIdle() && !reloaded ==> forced.None? && dispatched == old(Cursors())
      ensures reloaded && requests.AllIdle() && !old(shutdown.playing)
              && old(drag.mode) == DragNone && old(pinch.mode) == PinchNone ==>
        frame == defaults.files[0] && defaults.index == 0
      ensures old(shutdown.holdFrame).Some? ==> shutdown.holdFrame.Some?
      ensures !old(shutdown.playing) && old(shutdown.holdFrame).Some? && forced.None? ==>
        frame == old(shutdown.holdFrame).value
      ensures requests.shutdown == SHUTDOWN_ANIM_REQUESTED && shutdown.variants == [] ==> m.shutdownFinished
      ensures requests.shutdown == SHUTDOWN_ANIM_REQUESTED && shutdown.variants != [] ==>
        shutdown.playing && shutdown.files in shutdown.variants && shutdown.index == 0
        && shutdown.holdFrame == Some(shutdown.files[0]) && frame == shutdown.files[0]
        && forced == Some(frame) && m.shutdownFinished == old(m.shutdownFinished)
      ensures old(shutdown.playing) && forced.None? && old(shutdown.index) + 1 < |old(shutdown.files)| ==>
        shutdown.playing && shutdown.index == old(shutdown.index) + 1 && frame == shutdown.files[shutdown.index]
        && shutdown.holdFrame == Some(frame)
      ensures old(shutdown.playing) && forced.None? && old(shutdown.index) + 1 >= |old(shutdown.files)| ==>
        !shutdown.playing && m.shutdownFinished && frame == old(shutdown.holdFrame).value
      ensures old(touch.mode) == TouchNone && touch.mode != TouchNone ==>
        requests.touch == TOUCH_ANIM_HEAD_REQUESTED || requests.touch == TOUCH_ANIM_BODY_REQUESTED
      ensures requests.AllIdle() && !reloaded && old(Source()) == DefaultIdling ==>
        defaults.index == WrapNext(old(defaults.index), |defaults.files|) && frame == defaults.files[defaults.index]
      ensures requests.AllIdle() && !reloaded && old(Source()) == DragLooping ==>
        drag.loopIndex == WrapNext(old(drag.loopIndex), |drag.loopFiles|) && frame == drag.loopFiles[drag.loopIndex]
    {
      var f: Option<Path>;
      f, requests, reloaded := DrainAndDispatch(fs, nextMode, m);
      forced := f;
      dispatched := Cursors();
      if f.Some? {
        frame := f.value;
      } else {
        ghost var source: FrameSource;
        frame, source := Advance(m);
      }
    }
  }

  /** Every variant the default selection can draw is non-empty, so the default idle always has a first frame. */
  lemma DefaultFilesNonEmpty(mode: Mode, happy: seq<seq<Path>>, nomal: seq<seq<Path>>,
                             poorCondition: seq<seq<Path>>, ill: seq<seq<Path>>, nanos: nat)
    requires happy != [] && AllNonEmpty(happy) && AllNonEmpty(nomal)
    requires AllNonEmpty(poorCondition) && AllNonEmpty(ill)
    ensures LegacySelectDefaultFilesForMode(mode, happy, nomal, poorCondition, ill, nanos) != []
  {
    assert AllNonEmpty(VariantsForMode(mode, happy, nomal, poorCondition, ill));
  }

  /**
   * `load_carousel_images` without the widget: fails when the Happy idle
   * directories cannot be read or hold no frame, and otherwise builds the
   * state from the collected idle variants.
   */
  method LoadCarouselImages(fs: Dir, config: AnimationPathConfig, roots: CarouselRoots, mode: Mode)
    returns (r: Result<CarouselState, LoadError>)
    ensures HappyIdleVariants(fs, config.assetsBodyRoot, config.defaultHappyIdleVariants).Err? ==>
      r == Err(HappyIdleUnreadable(HappyIdleVariants(fs, config.assetsBodyRoot, config.defaultHappyIdleVariants).error))
    ensures HappyIdleVariants(fs, config.assetsBodyRoot, config.defaultHappyIdleVariants) == Ok([]) ==>
      r == Err(NoHappyIdleFrames)
    ensures r.Ok? ==>
      fresh(r.value) && r.value.Valid() && r.value.AssetsFor(fs, mode)
      && r.value.defaultHappyVariants == HappyIdleVariants(fs, config.assetsBodyRoot, config.defaultHappyIdleVariants).value
      && r.value.defaultNomalVariants == CollectDefaultModeIdleVariants(fs, config, Nomal)
      && r.value.defaultPoorConditionVariants == CollectDefaultModeIdleVariants(fs, config, PoorCondition)
      && r.value.defaultIllVariants == CollectDefaultModeIdleVariants(fs, config, Ill)
  {
    var happy := CollectDefaultHappyIdleVariants(fs, config);
    if happy.Err? {
      return Err(HappyIdleUnreadable(happy.error));
    }
    if happy.value == [] {
      return Err(NoHappyIdleFrames);
    }
    forall x | x in happy.value
      ensures x != []
    {
      HappyIdleVariantsOk(fs, config.assetsBodyRoot, config.defaultHappyIdleVariants, x);
    }
    var nomal := CollectDefaultModeIdleVariants(fs, config, Nomal);
    var poorCondition := CollectDefaultModeIdleVariants(fs, config, PoorCondition);
    var ill := CollectDefaultModeIdleVariants(fs, config, Ill);
    var state := new CarouselState(fs, roots, mode, happy.value, nomal, poorCondition, ill);
    return Ok(state);
  }
}
