// The coordinator of the animation engine: the set of players, how one
// drain of the request channels is dispatched to them, which player
// supplies the frame of a tick, and the order of the steps of a tick.

module Coordinator {
  import opened Common
  import opened FileTree
  import opened Assets
  import opened Requests
  import opened Shutdown
  import opened DragRaise
  import opened Pinch
  import opened Touch
  import opened Startup
  import opened DefaultIdle

  /** A call `dispatch_requests` makes on one of the players. */
  datatype Call =
    | StopDragRaise | StopPinch | StopTouch | StopStartup | StartShutdown
    | StartDragRaise | ContinueDragRaise | EndDragRaise
    | StartPinch | ContinuePinch | EndPinch
    | StartTouchHead | StartTouchBody

  /**
   * The request channel a call answers: 0 for the calls of a shutdown
   * request, then drag, pinch and touch.
   */
  function Channel(c: Call): nat
  {
    match c
    case StartDragRaise | ContinueDragRaise | EndDragRaise => 1
    case StartPinch | ContinuePinch | EndPinch => 2
    case StartTouchHead | StartTouchBody => 3
    case _ => 0
  }

  /** What a shutdown request does, in order. */
  const SHUTDOWN_CALLS: seq<Call> := [StopDragRaise, StopPinch, StopTouch, StopStartup, StartShutdown]

  /** The drag arm of the dispatch: which call a drag channel value makes. */
  function DragCall(code: int): (r: Option<Call>)
    ensures r.Some? <==> code in {DRAG_ANIM_START_REQUESTED, DRAG_ANIM_LOOP_REQUESTED, DRAG_ANIM_END_REQUESTED}
    ensures r.Some? ==> Channel(r.value) == 1
  {
    if code == DRAG_ANIM_START_REQUESTED then Some(StartDragRaise)
    else if code == DRAG_ANIM_LOOP_REQUESTED then Some(ContinueDragRaise)
    else if code == DRAG_ANIM_END_REQUESTED then Some(EndDragRaise)
    else None
  }

  /** The pinch arm of the dispatch. */
  function PinchCall(code: int): (r: Option<Call>)
    ensures r.Some? <==> code in {PINCH_ANIM_START_REQUESTED, PINCH_ANIM_LOOP_REQUESTED, PINCH_ANIM_END_REQUESTED}
    ensures r.Some? ==> Channel(r.value) == 2
  {
    if code == PINCH_ANIM_START_REQUESTED then Some(StartPinch)
    else if code == PINCH_ANIM_LOOP_REQUESTED then Some(ContinuePinch)
    else if code == PINCH_ANIM_END_REQUESTED then Some(EndPinch)
    else None
  }

  /** The touch arm of the dispatch. */
  function TouchCall(code: int): (r: Option<Call>)
    ensures r.Some? <==> code in {TOUCH_ANIM_HEAD_REQUESTED, TOUCH_ANIM_BODY_REQUESTED}
    ensures r.Some? ==> Channel(r.value) == 3
  {
    if code == TOUCH_ANIM_HEAD_REQUESTED then Some(StartTouchHead)
    else if code == TOUCH_ANIM_BODY_REQUESTED then Some(StartTouchBody)
    else None
  }

  function Calls(o: Option<Call>): seq<Call>
  {
    if o.Some? then [o.value] else []
  }

  /**
   * The calls `dispatch_requests` makes for one drain. `dragActive` is
   * whether drag is active once its own request is handled, and
   * `pinchActive` whether pinch is active once its request is handled.
   */
  function DispatchPlan(reqs: AnimationRequests, shutdownActive: bool, dragActive: bool, pinchActive: bool): seq<Call>
  {
    if reqs.shutdown == SHUTDOWN_ANIM_REQUESTED then SHUTDOWN_CALLS
    else if shutdownActive then []
    else
      Calls(DragCall(reqs.drag))
      + (if !dragActive then Calls(PinchCall(reqs.pinch)) else [])
      + (if !dragActive && !pinchActive then Calls(TouchCall(reqs.touch)) else [])
  }

  /**
   * A shutdown request decides the whole dispatch: whatever the other
   * channels hold and whatever is playing, the same five calls are made,
   * ending with the start of shutdown, and no other request is served.
   */
  lemma ShutdownRequestPreempts(reqs: AnimationRequests, other: AnimationRequests,
                                shutdownActive: bool, dragActive: bool, pinchActive: bool,
                                shutdownActive': bool, dragActive': bool, pinchActive': bool)
    requires reqs.shutdown == SHUTDOWN_ANIM_REQUESTED && other.shutdown == SHUTDOWN_ANIM_REQUESTED
    ensures DispatchPlan(reqs, shutdownActive, dragActive, pinchActive)
            == DispatchPlan(other, shutdownActive', dragActive', pinchActive')
    ensures var plan := DispatchPlan(reqs, shutdownActive, dragActive, pinchActive);
            plan[|plan| - 1] == StartShutdown && forall c :: c in plan ==> Channel(c) == 0
  {
  }

  /** While shutdown plays, requests other than a new shutdown are dropped. */
  lemma ActiveShutdownBlocks(reqs: AnimationRequests, dragActive: bool, pinchActive: bool)
    requires reqs.shutdown != SHUTDOWN_ANIM_REQUESTED
    ensures DispatchPlan(reqs, true, dragActive, pinchActive) == []
  {
  }

  /**
   * Which call the dispatch makes, both ways: a drag call exactly when no
   * shutdown is requested or playing and the drag channel asks for it; a
   * pinch call exactly when, in addition, drag is inactive; a touch call
   * exactly when, in addition, pinch is inactive too.
   */
  lemma DispatchPlanMembers(reqs: AnimationRequests, shutdownActive: bool, dragActive: bool, pinchActive: bool, c: Call)
    ensures var served := reqs.shutdown != SHUTDOWN_ANIM_REQUESTED && !shutdownActive;
            var plan := DispatchPlan(reqs, shutdownActive, dragActive, pinchActive);
            (Channel(c) == 1 ==> (c in plan <==> served && DragCall(reqs.drag) == Some(c)))
            && (Channel(c) == 2 ==> (c in plan <==> served && !dragActive && PinchCall(reqs.pinch) == Some(c)))
            && (Channel(c) == 3 ==>
                  (c in plan <==> served && !dragActive && !pinchActive && TouchCall(reqs.touch) == Some(c)))
  {
    var plan := DispatchPlan(reqs, shutdownActive, dragActive, pinchActive);
    if reqs.shutdown == SHUTDOWN_ANIM_REQUESTED {
      assert forall d :: d in plan ==> Channel(d) == 0;
    }
  }

  /**
   * Outside a shutdown request, drag is served before pinch and pinch
   * before touch, and each channel makes at most one call.
   */
  lemma DispatchOrder(reqs: AnimationRequests, shutdownActive: bool, dragActive: bool, pinchActive: bool)
    requires reqs.shutdown != SHUTDOWN_ANIM_REQUESTED
    ensures var plan := DispatchPlan(reqs, shutdownActive, dragActive, pinchActive);
            |plan| <= 3 && forall i, j :: 0 <= i < j < |plan| ==> 1 <= Channel(plan[i]) < Channel(plan[j])
  {
  }

  /** Which players are active, highest priority first. */
  datatype Activity = Activity(shutdown: bool, dragRaise: bool, pinch: bool, touch: bool, startup: bool)

  /** The player a tick takes its frame from. */
  datatype Source = FromShutdown | FromDragRaise | FromPinch | FromTouch | FromStartup | FromDefaultIdle

  /** The priority of a source: lower goes first. */
  function Rank(s: Source): nat
  {
    match s
    case FromShutdown => 0
    case FromDragRaise => 1
    case FromPinch => 2
    case FromTouch => 3
    case FromStartup => 4
    case FromDefaultIdle => 5
  }

  /** Whether the player behind `s` is active; the default idle player always is. */
  predicate Playing(a: Activity, s: Source)
  {
    match s
    case FromShutdown => a.shutdown
    case FromDragRaise => a.dragRaise
    case FromPinch => a.pinch
    case FromTouch => a.touch
    case FromStartup => a.startup
    case FromDefaultIdle => true
  }

  /** The player `advance_frame` asks for the frame: the first active one in priority order. */
  function AdvanceSource(a: Activity): (s: Source)
    ensures Playing(a, s)
    ensures forall t :: Rank(t) < Rank(s) ==> !Playing(a, t)
    ensures s == FromDefaultIdle <==> !a.shutdown && !a.dragRaise && !a.pinch && !a.touch && !a.startup
  {
    if a.shutdown then FromShutdown
    else if a.dragRaise then FromDragRaise
    else if a.pinch then FromPinch
    else if a.touch then FromTouch
    else if a.startup then FromStartup
    else FromDefaultIdle
  }

  /**
   * The source is determined by the priority rule alone: an active player
   * with no active player above it is the source.
   */
  lemma AdvanceSourceUnique(a: Activity, s: Source)
    requires Playing(a, s) && forall t :: Rank(t) < Rank(s) ==> !Playing(a, t)
    ensures AdvanceSource(a) == s
  {
  }

  // What the coordinator relies on from each player's `reload` and
  // `next_frame`: the players' own contracts say more; these keep the
  // coordinator's proofs to the facts it uses.

  method ReloadIdle(p: DefaultIdlePlayer, fs: Dir, mode: Mode)
    requires p.Valid()
    modifies p
    ensures p.Valid() && p.currentMode == mode && p.phase == IdleDefault
  {
    p.Reload(fs, mode);
  }

  method ReloadDragRaise(p: DragRaisePlayer, fs: Dir, mode: Mode, staticBVariants: seq<seq<Path>>)
    requires p.Valid()
    modifies p
    ensures p.Valid() && p.playbackMode == old(p.playbackMode)
  {
    p.Reload(fs, mode, staticBVariants);
  }

  method ReloadPinch(p: PinchPlayer, fs: Dir, mode: Mode)
    requires p.Valid()
    modifies p
    ensures p.Valid() && p.playbackMode == old(p.playbackMode)
  {
    p.Reload(fs, mode);
  }

  method ReloadTouch(p: TouchPlayer, fs: Dir, mode: Mode)
    requires p.Valid()
    modifies p
    ensures p.Valid() && p.Stopped()
  {
    p.Reload(fs, mode);
  }

  method ReloadShutdown(p: ShutdownPlayer, fs: Dir, mode: Mode)
    requires p.Valid()
    modifies p
    ensures p.Valid()
    ensures p.playingShutdown == old(p.playingShutdown) && p.shutdownHoldFrame == old(p.shutdownHoldFrame)
  {
    p.Reload(fs, mode);
  }

  method NextShutdownFrame(p: ShutdownPlayer, mailbox: Mailbox) returns (frame: Option<Path>)
    requires p.Valid() && mailbox.Valid()
    modifies p, mailbox
    ensures p.Valid() && mailbox.Valid() && mailbox.Pending() == old(mailbox.Pending())
    ensures p.shutdownVariants == old(p.shutdownVariants)
    ensures old(p.shutdownHoldFrame).Some? ==> frame.Some?
  {
    frame := p.NextFrame(mailbox);
  }

  method NextDragRaiseFrame(p: DragRaisePlayer) returns (frame: Option<Path>)
    requires p.Valid()
    modifies p
    ensures p.Valid()
  {
    frame := p.NextFrame();
  }

  method NextPinchFrame(p: PinchPlayer) returns (frame: Option<Path>)
    requires p.Valid()
    modifies p
    ensures p.Valid()
  {
    frame := p.NextFrame();
  }

  method NextTouchFrame(p: TouchPlayer) returns (frame: Option<Path>)
    requires p.Valid()
    modifies p
    ensures p.Valid()
    ensures old(p.IsActive()) ==> frame == Some(old(p.touchFiles[p.touchIndex]))
  {
    frame := p.NextFrame();
  }

  method NextIdleFrame(p: DefaultIdlePlayer, abc: Option<AbcSequence>) returns (frame: Option<Path>)
    requires p.Valid()
    modifies p
    ensures p.Valid()
  {
    frame := p.NextFrame(abc);
  }

  /** `PlayerSet`: the players of one pet window and the mode their assets were loaded for. */
  class PlayerSet {
    var currentMode: Mode
    const shutdown: ShutdownPlayer
    const dragRaise: DragRaisePlayer
    const pinch: PinchPlayer
    const touch: TouchPlayer
    const startup: StartupPlayer
    const defaultIdle: DefaultIdlePlayer
    /** The request channels and the shutdown-finished flag. */
    const mailbox: Mailbox

    ghost predicate Valid()
      reads shutdown, dragRaise, pinch, touch, startup, defaultIdle, mailbox
    {
      shutdown.Valid() && dragRaise.Valid() && pinch.Valid() && touch.Valid()
      && startup.Valid() && defaultIdle.Valid() && mailbox.Valid()
    }

    function Activities(): Activity
      reads shutdown, dragRaise, pinch, touch, startup
    {
      Activity(shutdown.IsActive(), dragRaise.IsActive(), pinch.IsActive(), touch.IsActive(), startup.IsActive())
    }

    /** The state `enter` leaves the default idle player in, and the frame it gives, defaulted to the empty path. */
    ghost predicate IdleEntered(frame: Path)
      reads defaultIdle
    {
      defaultIdle.SelectionDrawn(defaultIdle.defaultFiles) && defaultIdle.defaultIndex == 0
      && defaultIdle.phase == IdleDefault && defaultIdle.tick == 0
      && (defaultIdle.HasDefaultVariant() ==> defaultIdle.defaultFiles != [] && frame == defaultIdle.defaultFiles[0])
      && (!defaultIdle.HasDefaultVariant() ==> frame == [])
    }

    constructor (mode: Mode, shutdown: ShutdownPlayer, dragRaise: DragRaisePlayer, pinch: PinchPlayer,
                 touch: TouchPlayer, startup: StartupPlayer, defaultIdle: DefaultIdlePlayer, mailbox: Mailbox)
      ensures currentMode == mode
      ensures this.shutdown == shutdown && this.dragRaise == dragRaise && this.pinch == pinch
      ensures this.touch == touch && this.startup == startup && this.defaultIdle == defaultIdle
      ensures this.mailbox == mailbox
    {
      currentMode := mode;
      this.shutdown := shutdown;
      this.dragRaise := dragRaise;
      this.pinch := pinch;
      this.touch := touch;
      this.startup := startup;
      this.defaultIdle := defaultIdle;
      this.mailbox := mailbox;
    }

    /**
     * `reload_for_mode`: every player except startup reloads its assets
     * for `mode`; what plays goes on, except touch, whose reload stops it,
     * and the default idle player, which starts over from its default phase.
     */
    method ReloadForMode(fs: Dir, mode: Mode, staticBVariants: seq<seq<Path>>)
      requires Valid()
      modifies this, defaultIdle, dragRaise, pinch, touch, shutdown
      ensures Valid()
      ensures currentMode == mode && defaultIdle.currentMode == mode && defaultIdle.phase == IdleDefault
      ensures unchanged(startup) && unchanged(mailbox)
      ensures touch.Stopped()
      ensures Activities() == old(Activities()).(touch := false)
    {
      currentMode := mode;
      ReloadIdle(defaultIdle, fs, mode);
      ReloadDragRaise(dragRaise, fs, mode, staticBVariants);
      ReloadPinch(pinch, fs, mode);
      ReloadTouch(touch, fs, mode);
      ReloadShutdown(shutdown, fs, mode);
    }

    /**
     * `initial_frame`: while startup is active, its first frame, which it
     * does not consume; otherwise the default idle player is entered.
     */
    method InitialFrame() returns (frame: Option<Path>)
      requires Valid()
      modifies defaultIdle
      ensures Valid()
      ensures startup.IsActive() ==> frame == Some(startup.files[0]) && unchanged(defaultIdle)
      ensures !startup.IsActive() ==> IdleEntered(frame.UnwrapOr([]))
      ensures !startup.IsActive() ==> (frame.Some? <==> defaultIdle.HasDefaultVariant())
    {
      if startup.IsActive() {
        frame := startup.PeekFirstFrame();
      } else {
        frame := defaultIdle.Enter();
      }
    }

    /** What `start` and `continue_loop` of the drag player do to the others: startup, pinch and touch stop. */
    predicate StoppedByDrag()
      reads pinch, touch, startup
    {
      !startup.active && startup.files == [] && !pinch.IsActive() && touch.Stopped()
    }

    /** Whether the drag arm for `code` stops the other players: a start or a continued loop that plays. */
    predicate DragStopsOthers(code: int)
      reads dragRaise
    {
      dragRaise.loopFiles != []
      && (code == DRAG_ANIM_START_REQUESTED
          || (code == DRAG_ANIM_LOOP_REQUESTED && dragRaise.playbackMode !in {StaticStart, StaticLoop}))
    }

    /**
     * The drag player after the drag arm for `code`: `start` plays the
     * dynamic loop from its first frame, `continue_loop` keeps a running loop
     * where it is, `end` plays an end variant or stops at once; without
     * dynamic frames (or during a static cycle, for a continued loop), and
     * for any other code, the drag player is as it was.
     */
    twostate predicate DragServed(code: int)
      reads dragRaise, pinch, touch, startup
    {
      (code == DRAG_ANIM_START_REQUESTED ==>
         if old(dragRaise.loopFiles) == [] then unchanged(dragRaise)
         else dragRaise.playbackMode == DynamicLoop && dragRaise.loopIndex == 0 && dragRaise.dynamicDragTicks == 0
              && StoppedByDrag())
      && (code == DRAG_ANIM_LOOP_REQUESTED ==>
         if old(dragRaise.loopFiles) == [] || old(dragRaise.playbackMode) in {StaticStart, StaticLoop} then unchanged(dragRaise)
         else dragRaise.playbackMode == DynamicLoop && StoppedByDrag()
              && (old(dragRaise.playbackMode) == DynamicLoop ==>
                    dragRaise.loopIndex == old(dragRaise.loopIndex) && dragRaise.dynamicDragTicks == old(dragRaise.dynamicDragTicks))
              && (old(dragRaise.playbackMode) != DynamicLoop ==> dragRaise.loopIndex == 0 && dragRaise.dynamicDragTicks == 0))
      && (code == DRAG_ANIM_END_REQUESTED ==>
         dragRaise.loopIndex == old(dragRaise.loopIndex) && dragRaise.dynamicDragTicks == old(dragRaise.dynamicDragTicks)
         && (old(dragRaise.endVariants) == [] ==> dragRaise.playbackMode == DragNone)
         && (old(dragRaise.endVariants) != [] ==>
               dragRaise.playbackMode == DragEnd && dragRaise.endFiles in dragRaise.endVariants && dragRaise.endIndex == 0))
      && (DragCall(code).None? ==> unchanged(dragRaise))
      && dragRaise.loopFiles == old(dragRaise.loopFiles) && dragRaise.endVariants == old(dragRaise.endVariants)
    }

    /** What `start`, `continue_loop` and `end` of the pinch player do to the others: startup and touch stop. */
    predicate StoppedByPinch()
      reads touch, startup
    {
      !startup.active && startup.files == [] && touch.Stopped()
    }

    /** Whether the pinch arm for `code` stops startup and touch: whenever it makes the pinch player play. */
    predicate PinchStopsOthers(code: int)
      reads pinch
    {
      (code == PINCH_ANIM_START_REQUESTED && (pinch.pinchStartFiles != [] || pinch.pinchLoopVariants != []))
      || (code == PINCH_ANIM_LOOP_REQUESTED && pinch.playbackMode != PinchStart && pinch.pinchLoopVariants != [])
      || (code == PINCH_ANIM_END_REQUESTED && pinch.pinchEndFiles != [])
    }

    /**
     * The pinch player after the pinch arm for `code`: `start` plays the
     * start segment, else a fresh loop variant; `continue_loop` keeps a
     * running loop and otherwise draws one; `end` plays the end segment or
     * stops at once; a request it cannot serve leaves it as it was.
     */
    twostate predicate PinchServed(code: int)
      reads pinch, touch, startup
    {
      (code == PINCH_ANIM_START_REQUESTED ==>
         if old(pinch.pinchStartFiles) != [] then
           pinch.playbackMode == PinchStart && pinch.pinchStartIndex == 0
           && pinch.pinchLoopFiles == old(pinch.pinchLoopFiles) && pinch.pinchLoopIndex == old(pinch.pinchLoopIndex)
           && StoppedByPinch()
         else if old(pinch.pinchLoopVariants) != [] then
           pinch.playbackMode == PinchLoop && pinch.pinchLoopFiles in pinch.pinchLoopVariants && pinch.pinchLoopIndex == 0
           && StoppedByPinch()
         else unchanged(pinch))
      && (code == PINCH_ANIM_LOOP_REQUESTED ==>
         if old(pinch.playbackMode) == PinchStart || old(pinch.pinchLoopVariants) == [] then unchanged(pinch)
         else pinch.playbackMode == PinchLoop && StoppedByPinch()
              && (old(pinch.playbackMode) == PinchLoop && old(pinch.pinchLoopFiles) != [] ==>
                    pinch.pinchLoopFiles == old(pinch.pinchLoopFiles) && pinch.pinchLoopIndex == old(pinch.pinchLoopIndex))
              && (old(pinch.playbackMode) != PinchLoop || old(pinch.pinchLoopFiles) == [] ==>
                    pinch.pinchLoopFiles in pinch.pinchLoopVariants && pinch.pinchLoopIndex == 0))
      && (code == PINCH_ANIM_END_REQUESTED ==>
         pinch.pinchLoopFiles == old(pinch.pinchLoopFiles) && pinch.pinchLoopIndex == old(pinch.pinchLoopIndex)
         && (old(pinch.pinchEndFiles) == [] ==> pinch.playbackMode == PinchNone && pinch.pinchEndIndex == old(pinch.pinchEndIndex))
         && (old(pinch.pinchEndFiles) != [] ==> pinch.playbackMode == PinchEnd && pinch.pinchEndIndex == 0 && StoppedByPinch()))
      && (PinchCall(code).None? ==> unchanged(pinch))
      && pinch.pinchStartFiles == old(pinch.pinchStartFiles) && pinch.pinchLoopVariants == old(pinch.pinchLoopVariants)
      && pinch.pinchEndFiles == old(pinch.pinchEndFiles)
    }

    /**
     * The touch player after the touch arm for `code`: a head or body touch
     * whose variants build a sequence plays it from its first frame and
     * stops startup; otherwise touch and startup are as they were.
     */
    twostate predicate TouchServed(code: int)
      reads touch, startup
    {
      (code == TOUCH_ANIM_HEAD_REQUESTED ==>
         if NoStages(old(touch.touchHeadVariants)) then unchanged(touch) && unchanged(startup)
         else touch.playbackMode == Head && touch.touchIndex == 0 && IsTouchSequence(touch.touchHeadVariants, touch.touchFiles)
              && !startup.active && startup.files == [] && startup.index == 0)
      && (code == TOUCH_ANIM_BODY_REQUESTED ==>
         if NoStages(old(touch.touchBodyVariants)) then unchanged(touch) && unchanged(startup)
         else touch.playbackMode == Body && touch.touchIndex == 0 && IsTouchSequence(touch.touchBodyVariants, touch.touchFiles)
              && !startup.active && startup.files == [] && startup.index == 0)
      && (TouchCall(code).None? ==> unchanged(touch) && unchanged(startup))
      && touch.touchHeadVariants == old(touch.touchHeadVariants) && touch.touchBodyVariants == old(touch.touchBodyVariants)
    }

    /**
     * `dispatch_requests`, with the calls it makes as a ghost trace: the
     * trace is the plan for the drained requests. A shutdown request stops
     * every other player it names and starts shutdown; a playing shutdown
     * leaves everything as it is.
     */
    method DispatchRequests(reqs: AnimationRequests) returns (ghost calls: seq<Call>)
      requires Valid()
      modifies shutdown, dragRaise, pinch, touch, startup, mailbox
      ensures Valid()
      ensures calls == DispatchPlan(reqs, old(shutdown.IsActive()), dragRaise.IsActive(), pinch.IsActive())
      ensures mailbox.Pending() == old(mailbox.Pending())
      ensures reqs.shutdown == SHUTDOWN_ANIM_REQUESTED ==>
        !dragRaise.IsActive() && !pinch.IsActive() && touch.Stopped() && !startup.IsActive()
        && shutdown.shutdownVariants == old(shutdown.shutdownVariants)
        && (shutdown.playingShutdown <==> shutdown.shutdownVariants != [])
      ensures reqs.shutdown != SHUTDOWN_ANIM_REQUESTED ==> unchanged(shutdown) && unchanged(mailbox)
      ensures reqs.shutdown != SHUTDOWN_ANIM_REQUESTED && old(shutdown.IsActive()) ==>
        unchanged(dragRaise) && unchanged(pinch) && unchanged(touch) && unchanged(startup)
      ensures reqs.shutdown != SHUTDOWN_ANIM_REQUESTED && !old(shutdown.IsActive()) ==>
        DragServed(reqs.drag)
        && (dragRaise.IsActive() && !old(DragStopsOthers(reqs.drag)) ==>
              unchanged(pinch) && unchanged(touch) && unchanged(startup))
        && (!dragRaise.IsActive() ==> PinchServed(reqs.pinch))
        && (!dragRaise.IsActive() && pinch.IsActive() && !old(PinchStopsOthers(reqs.pinch)) ==>
              unchanged(touch) && unchanged(startup))
        && (!dragRaise.IsActive() && !pinch.IsActive() ==> TouchServed(reqs.touch))
    {
      if reqs.shutdown == SHUTDOWN_ANIM_REQUESTED {
        dragRaise.Stop();
        pinch.Stop();
        touch.Stop();
        startup.Stop();
        shutdown.Start(mailbox);
        calls := SHUTDOWN_CALLS;
        return;
      }
      if shutdown.IsActive() {
        calls := [];
        return;
      }
      calls := DispatchGestures(reqs);
    }

    /**
     * The gesture arms of `dispatch_requests`, once no shutdown is requested
     * or playing: drag, then pinch while drag is inactive, then touch while
     * both are inactive.
     */
    method DispatchGestures(reqs: AnimationRequests) returns (ghost calls: seq<Call>)
      requires Valid()
      modifies dragRaise, pinch, touch, startup
      ensures Valid()
      ensures calls == DispatchPlan(reqs.(shutdown := SHUTDOWN_ANIM_IDLE), false, dragRaise.IsActive(), pinch.IsActive())
      ensures DragServed(reqs.drag)
      ensures dragRaise.IsActive() && !old(DragStopsOthers(reqs.drag)) ==>
        unchanged(pinch) && unchanged(touch) && unchanged(startup)
      ensures !dragRaise.IsActive() ==> PinchServed(reqs.pinch)
      ensures !dragRaise.IsActive() && pinch.IsActive() && !old(PinchStopsOthers(reqs.pinch)) ==>
        unchanged(touch) && unchanged(startup)
      ensures !dragRaise.IsActive() && !pinch.IsActive() ==> TouchServed(reqs.touch)
    {
      calls := DispatchDrag(reqs.drag);
      if dragRaise.IsActive() {
        return;
      }
      var belowCalls := DispatchBelowDrag(reqs.pinch, reqs.touch);
      calls := calls + belowCalls;
    }

    /** The pinch arm, then the touch arm while pinch is inactive; drag is not touched. */
    method DispatchBelowDrag(pinchCode: int, touchCode: int) returns (ghost calls: seq<Call>)
      requires Valid()
      modifies pinch, touch, startup
      ensures Valid()
      ensures calls == Calls(PinchCall(pinchCode)) + (if !pinch.IsActive() then Calls(TouchCall(touchCode)) else [])
      ensures PinchServed(pinchCode)
      ensures pinch.IsActive() && !old(PinchStopsOthers(pinchCode)) ==> unchanged(touch) && unchanged(startup)
      ensures !pinch.IsActive() ==> TouchServed(touchCode)
    {
      calls := DispatchPinch(pinchCode);
      if pinch.IsActive() {
        return;
      }
      var touchCalls := DispatchTouch(touchCode);
      calls := calls + touchCalls;
    }

    /** The drag arm of `dispatch_requests`. */
    method DispatchDrag(code: int) returns (ghost calls: seq<Call>)
      requires Valid()
      modifies dragRaise, pinch, touch, startup
      ensures Valid()
      ensures calls == Calls(DragCall(code))
      ensures DragServed(code)
      ensures !old(DragStopsOthers(code)) ==> unchanged(pinch) && unchanged(touch) && unchanged(startup)
      ensures old(DragStopsOthers(code)) ==> dragRaise.IsActive()
    {
      if code == DRAG_ANIM_START_REQUESTED {
        dragRaise.Start(pinch, touch, startup);
        calls := [StartDragRaise];
      } else if code == DRAG_ANIM_LOOP_REQUESTED {
        dragRaise.ContinueLoop(pinch, touch, startup);
        calls := [ContinueDragRaise];
      } else if code == DRAG_ANIM_END_REQUESTED {
        dragRaise.End();
        calls := [EndDragRaise];
      } else {
        calls := [];
      }
    }

    /** The pinch arm of `dispatch_requests`; drag is not touched. */
    method DispatchPinch(code: int) returns (ghost calls: seq<Call>)
      requires Valid()
      modifies pinch, touch, startup
      ensures Valid()
      ensures calls == Calls(PinchCall(code))
      ensures PinchServed(code)
      ensures !old(PinchStopsOthers(code)) ==> unchanged(touch) && unchanged(startup)
      ensures old(PinchStopsOthers(code)) ==> pinch.IsActive()
    {
      if code == PINCH_ANIM_START_REQUESTED {
        pinch.Start(touch, startup);
        calls := [StartPinch];
      } else if code == PINCH_ANIM_LOOP_REQUESTED {
        pinch.ContinueLoop(touch, startup);
        calls := [ContinuePinch];
      } else if code == PINCH_ANIM_END_REQUESTED {
        pinch.End(touch, startup);
        calls := [EndPinch];
      } else {
        calls := [];
      }
    }

    /** The touch arm of `dispatch_requests`; drag and pinch are not touched. */
    method DispatchTouch(code: int) returns (ghost calls: seq<Call>)
      requires Valid()
      modifies touch, startup
      ensures Valid()
      ensures calls == Calls(TouchCall(code))
      ensures TouchServed(code)
    {
      if code == TOUCH_ANIM_HEAD_REQUESTED {
        touch.StartHead(startup);
        calls := [StartTouchHead];
      } else if code == TOUCH_ANIM_BODY_REQUESTED {
        touch.StartBody(startup);
        calls := [StartTouchBody];
      } else {
        calls := [];
      }
    }

    /** `enter` on the default idle player, defaulting to the empty path. */
    method EnterIdle() returns (frame: Path)
      requires Valid()
      modifies defaultIdle
      ensures Valid() && IdleEntered(frame)
    {
      var entered := defaultIdle.Enter();
      frame := entered.UnwrapOr([]);
    }

    /**
     * `advance_frame`: the first active player in priority order gives the
     * frame; when it has none left it is stopped and the default idle player
     * is entered instead. With no other player active, the default idle
     * player steps, and is entered when stepping gives nothing. `played` is
     * what the asked player's `next_frame` returned.
     */
    method AdvanceFrame(abc: Option<AbcSequence>) returns (frame: Path, ghost source: Source, ghost played: Option<Path>)
      requires Valid()
      modifies shutdown, dragRaise, pinch, touch, startup, defaultIdle, mailbox
      ensures Valid()
      ensures source == AdvanceSource(old(Activities()))
      ensures mailbox.Pending() == old(mailbox.Pending())
      ensures source != FromShutdown ==> unchanged(shutdown) && unchanged(mailbox)
      ensures source != FromDragRaise ==> unchanged(dragRaise)
      ensures source != FromPinch ==> unchanged(pinch)
      ensures source != FromTouch ==> unchanged(touch)
      ensures source != FromStartup ==> unchanged(startup)
      ensures shutdown.shutdownVariants == old(shutdown.shutdownVariants)
      ensures played.Some? ==> frame == played.value
      ensures source != FromDefaultIdle && played.Some? ==> unchanged(defaultIdle)
      ensures source != FromDefaultIdle && played.None? ==> !Playing(Activities(), source) && IdleEntered(frame)
      ensures source == FromDefaultIdle && played.None? ==> IdleEntered(frame)
      ensures source == FromShutdown && old(shutdown.shutdownHoldFrame).Some? ==> played.Some?
      ensures source == FromTouch ==> played == Some(old(touch.touchFiles[touch.touchIndex]))
      ensures source == FromStartup ==> played == Some(old(startup.files[startup.index]))
    {
      source := AdvanceSource(Activities());
      if shutdown.IsActive() {
        frame, played := AdvanceShutdown();
      } else if dragRaise.IsActive() {
        frame, played := AdvanceDragRaise();
      } else if pinch.IsActive() {
        frame, played := AdvancePinch();
      } else if touch.IsActive() {
        frame, played := AdvanceTouch();
      } else if startup.IsActive() {
        frame, played := AdvanceStartup();
      } else {
        frame, played := AdvanceIdle(abc);
      }
    }

    /** The shutdown branch of `advance_frame`. */
    method AdvanceShutdown() returns (frame: Path, ghost played: Option<Path>)
      requires Valid() && shutdown.IsActive()
      modifies shutdown, mailbox, defaultIdle
      ensures Valid() && mailbox.Pending() == old(mailbox.Pending())
      ensures shutdown.shutdownVariants == old(shutdown.shutdownVariants)
      ensures played.Some? ==> frame == played.value && unchanged(defaultIdle)
      ensures played.None? ==> !shutdown.IsActive() && IdleEntered(frame)
      ensures old(shutdown.shutdownHoldFrame).Some? ==> played.Some?
    {
      var next := NextShutdownFrame(shutdown, mailbox);
      played := next;
      if next.Some? {
        return next.value, played;
      }
      shutdown.Stop();
      frame := EnterIdle();
    }

    /** The drag branch of `advance_frame`. */
    method AdvanceDragRaise() returns (frame: Path, ghost played: Option<Path>)
      requires Valid() && dragRaise.IsActive()
      modifies dragRaise, defaultIdle
      ensures Valid()
      ensures played.Some? ==> frame == played.value && unchanged(defaultIdle)
      ensures played.None? ==> !dragRaise.IsActive() && IdleEntered(frame)
    {
      var next := NextDragRaiseFrame(dragRaise);
      played := next;
      if next.Some? {
        return next.value, played;
      }
      dragRaise.Stop();
      frame := EnterIdle();
    }

    /** The pinch branch of `advance_frame`. */
    method AdvancePinch() returns (frame: Path, ghost played: Option<Path>)
      requires Valid() && pinch.IsActive()
      modifies pinch, defaultIdle
      ensures Valid()
      ensures played.Some? ==> frame == played.value && unchanged(defaultIdle)
      ensures played.None? ==> !pinch.IsActive() && IdleEntered(frame)
    {
      var next := NextPinchFrame(pinch);
      played := next;
      if next.Some? {
        return next.value, played;
      }
      pinch.Stop();
      frame := EnterIdle();
    }

    /** The touch branch of `advance_frame`; it never falls back to the default idle player. */
    method AdvanceTouch() returns (frame: Path, ghost played: Option<Path>)
      requires Valid() && touch.IsActive()
      modifies touch
      ensures Valid()
      ensures played == Some(old(touch.touchFiles[touch.touchIndex])) && frame == played.value
    {
      var next := NextTouchFrame(touch);
      played := next;
      // An active touch player always has a frame, so the source's fallback
      // to stopping it and entering the default idle player is never taken.
      frame := next.value;
    }

    /** The startup branch of `advance_frame`; it never falls back to the default idle player. */
    method AdvanceStartup() returns (frame: Path, ghost played: Option<Path>)
      requires Valid() && startup.IsActive()
      modifies startup
      ensures Valid()
      ensures played == Some(old(startup.files[startup.index])) && frame == played.value
    {
      var next := startup.NextFrame();
      played := next;
      // An active startup player always has a frame, so the source's fallback
      // to stopping it and entering the default idle player is never taken.
      frame := next.value;
    }

    /** The last branch of `advance_frame`: the default idle player steps, or is entered afresh. */
    method AdvanceIdle(abc: Option<AbcSequence>) returns (frame: Path, ghost played: Option<Path>)
      requires Valid()
      modifies defaultIdle
      ensures Valid()
      ensures played.Some? ==> frame == played.value
      ensures played.None? ==> IdleEntered(frame)
    {
      var next := NextIdleFrame(defaultIdle, abc);
      played := next;
      if next.Some? {
        return next.value, played;
      }
      frame := EnterIdle();
    }

    /**
     * One tick of the carousel timer: drain the request channels; unless
     * startup is playing, reload when the mode has changed; dispatch the
     * drained requests; advance. `nextMode` is what the stats service
     * reports now, `staticBVariants` the static drag B variants for it and
     * `abc` the idle sequence the default idle player would draw.
     */
    method Tick(fs: Dir, nextMode: Mode, staticBVariants: seq<seq<Path>>, abc: Option<AbcSequence>)
      returns (frame: Path, ghost requests: AnimationRequests, ghost reloaded: bool,
               ghost calls: seq<Call>, ghost dispatched: Activity, ghost source: Source)
      requires Valid()
      modifies this, shutdown, dragRaise, pinch, touch, startup, defaultIdle, mailbox
      ensures Valid()
      ensures requests == old(mailbox.Pending()) && mailbox.Pending() == NoRequests
      ensures reloaded <==> !old(startup.IsActive()) && nextMode != old(currentMode)
      ensures currentMode == (if reloaded then nextMode else old(currentMode))
      ensures calls == DispatchPlan(requests, old(shutdown.IsActive()), dispatched.dragRaise, dispatched.pinch)
      ensures source == AdvanceSource(dispatched)
      ensures requests.shutdown == SHUTDOWN_ANIM_REQUESTED && shutdown.shutdownVariants != [] ==>
        source == FromShutdown
    {
      var drained;
      drained, reloaded := BeginTick(fs, nextMode, staticBVariants);
      requests := drained;
      calls := DispatchRequests(drained);
      dispatched := Activities();
      ghost var played;
      frame, source, played := AdvanceFrame(abc);
    }

    /** The first half of a tick: the drain, then the reload when startup is not playing and the mode changed. */
    method BeginTick(fs: Dir, nextMode: Mode, staticBVariants: seq<seq<Path>>)
      returns (requests: AnimationRequests, ghost reloaded: bool)
      requires Valid()
      modifies this, shutdown, dragRaise, pinch, touch, defaultIdle, mailbox
      ensures Valid()
      ensures requests == old(mailbox.Pending()) && mailbox.Pending() == NoRequests
      ensures reloaded <==> !old(startup.IsActive()) && nextMode != old(currentMode)
      ensures currentMode == (if reloaded then nextMode else old(currentMode))
      ensures shutdown.IsActive() == old(shutdown.IsActive())
    {
      requests := mailbox.ConsumeRequests();
      reloaded := false;
      if !startup.IsActive() {
        if nextMode != currentMode {
          ReloadForMode(fs, nextMode, staticBVariants);
          reloaded := true;
        }
      }
    }
  }
}
