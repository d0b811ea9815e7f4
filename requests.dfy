/**
 * The request mailbox of src/animation/requests.rs: four one-slot channels
 * (drag, pinch, shutdown and touch phase requests) and the shutdown-finished
 * flag. Gesture handlers overwrite a channel; once per tick the coordinator
 * drains all four, reading each value and resetting it to idle.
 *
 * The process-wide atomics become the fields of one `Mailbox` object that
 * every part of the engine shares.
 */
module Requests {

  const DRAG_ANIM_IDLE: int := 0
  const DRAG_ANIM_START_REQUESTED: int := 1
  const DRAG_ANIM_LOOP_REQUESTED: int := 2
  const DRAG_ANIM_END_REQUESTED: int := 3

  const PINCH_ANIM_IDLE: int := 0
  const PINCH_ANIM_START_REQUESTED: int := 1
  const PINCH_ANIM_LOOP_REQUESTED: int := 2
  const PINCH_ANIM_END_REQUESTED: int := 3

  const SHUTDOWN_ANIM_IDLE: int := 0
  const SHUTDOWN_ANIM_REQUESTED: int := 1

  const TOUCH_ANIM_IDLE: int := 0
  const TOUCH_ANIM_HEAD_REQUESTED: int := 1
  const TOUCH_ANIM_BODY_REQUESTED: int := 2

  /** `AnimationRequests`: the four channel values read by one drain. */
  datatype AnimationRequests = AnimationRequests(drag: int, pinch: int, shutdown: int, touch: int)
  {
    predicate AllIdle()
    {
      drag == DRAG_ANIM_IDLE && pinch == PINCH_ANIM_IDLE
      && shutdown == SHUTDOWN_ANIM_IDLE && touch == TOUCH_ANIM_IDLE
    }

    /**
     * The values the triggers can leave in the channels: no trigger writes
     * `PINCH_ANIM_LOOP_REQUESTED`.
     */
    predicate Reachable()
    {
      drag in {DRAG_ANIM_IDLE, DRAG_ANIM_START_REQUESTED, DRAG_ANIM_LOOP_REQUESTED, DRAG_ANIM_END_REQUESTED}
      && pinch in {PINCH_ANIM_IDLE, PINCH_ANIM_START_REQUESTED, PINCH_ANIM_END_REQUESTED}
      && shutdown in {SHUTDOWN_ANIM_IDLE, SHUTDOWN_ANIM_REQUESTED}
      && touch in {TOUCH_ANIM_IDLE, TOUCH_ANIM_HEAD_REQUESTED, TOUCH_ANIM_BODY_REQUESTED}
    }
  }

  const NoRequests: AnimationRequests :=
    AnimationRequests(DRAG_ANIM_IDLE, PINCH_ANIM_IDLE, SHUTDOWN_ANIM_IDLE, TOUCH_ANIM_IDLE)

  class Mailbox {
    var dragPhase: int
    var pinchPhase: int
    var shutdownPhase: int
    var touchPhase: int
    var shutdownFinished: bool

    /** The four channels as a drain would read them now. */
    function Pending(): AnimationRequests
      reads this
    {
      AnimationRequests(dragPhase, pinchPhase, shutdownPhase, touchPhase)
    }

    ghost predicate Valid()
      reads this
    {
      Pending().Reachable()
    }

    /** The statics' initial values: every channel idle, not finished. */
    constructor ()
      ensures Valid()
      ensures Pending() == NoRequests && !shutdownFinished
    {
      dragPhase := DRAG_ANIM_IDLE;
      pinchPhase := PINCH_ANIM_IDLE;
      shutdownPhase := SHUTDOWN_ANIM_IDLE;
      touchPhase := TOUCH_ANIM_IDLE;
      shutdownFinished := false;
    }

    method RequestDragRaiseAnimationStart()
      requires Valid()
      modifies this
      ensures Valid()
      ensures Pending() == old(Pending()).(drag := DRAG_ANIM_START_REQUESTED)
      ensures shutdownFinished == old(shutdownFinished)
    {
      dragPhase := DRAG_ANIM_START_REQUESTED;
    }

    method RequestDragRaiseAnimationLoop()
      requires Valid()
      modifies this
      ensures Valid()
      ensures Pending() == old(Pending()).(drag := DRAG_ANIM_LOOP_REQUESTED)
      ensures shutdownFinished == old(shutdownFinished)
    {
      dragPhase := DRAG_ANIM_LOOP_REQUESTED;
    }

    method RequestDragRaiseAnimationEnd()
      requires Valid()
      modifies this
      ensures Valid()
      ensures Pending() == old(Pending()).(drag := DRAG_ANIM_END_REQUESTED)
      ensures shutdownFinished == old(shutdownFinished)
    {
      dragPhase := DRAG_ANIM_END_REQUESTED;
    }

    method RequestPinchAnimationStart()
      requires Valid()
      modifies this
      ensures Valid()
      ensures Pending() == old(Pending()).(pinch := PINCH_ANIM_START_REQUESTED)
      ensures shutdownFinished == old(shutdownFinished)
    {
      pinchPhase := PINCH_ANIM_START_REQUESTED;
    }

    method RequestPinchAnimationEnd()
      requires Valid()
      modifies this
      ensures Valid()
      ensures Pending() == old(Pending()).(pinch := PINCH_ANIM_END_REQUESTED)
      ensures shutdownFinished == old(shutdownFinished)
    {
      pinchPhase := PINCH_ANIM_END_REQUESTED;
    }

    /** The one trigger that touches two statics: it also clears the finished flag. */
    method RequestShutdownAnimation()
      requires Valid()
      modifies this
      ensures Valid()
      ensures Pending() == old(Pending()).(shutdown := SHUTDOWN_ANIM_REQUESTED)
      ensures !shutdownFinished
    {
      shutdownFinished := false;
      shutdownPhase := SHUTDOWN_ANIM_REQUESTED;
    }

    method RequestTouchHeadAnimation()
      requires Valid()
      modifies this
      ensures Valid()
      ensures Pending() == old(Pending()).(touch := TOUCH_ANIM_HEAD_REQUESTED)
      ensures shutdownFinished == old(shutdownFinished)
    {
      touchPhase := TOUCH_ANIM_HEAD_REQUESTED;
    }

    method RequestTouchBodyAnimation()
      requires Valid()
      modifies this
      ensures Valid()
      ensures Pending() == old(Pending()).(touch := TOUCH_ANIM_BODY_REQUESTED)
      ensures shutdownFinished == old(shutdownFinished)
    {
      touchPhase := TOUCH_ANIM_BODY_REQUESTED;
    }

    method IsShutdownAnimationFinished() returns (finished: bool)
      ensures finished == shutdownFinished
    {
      finished := shutdownFinished;
    }

    method SetShutdownAnimationFinished(value: bool)
      requires Valid()
      modifies this
      ensures Valid()
      ensures Pending() == old(Pending())
      ensures shutdownFinished == value
    {
      shutdownFinished := value;
    }

    /**
     * `consume_requests`: returns what every channel held and leaves every
     * channel idle, so a second drain with no trigger in between reads
     * `NoRequests`.
     */
    method ConsumeRequests() returns (requests: AnimationRequests)
      requires Valid()
      modifies this
      ensures Valid()
      ensures requests == old(Pending())
      ensures requests.Reachable()
      ensures Pending() == NoRequests
      ensures shutdownFinished == old(shutdownFinished)
    {
      requests := AnimationRequests(dragPhase, pinchPhase, shutdownPhase, touchPhase);
      dragPhase := DRAG_ANIM_IDLE;
      pinchPhase := PINCH_ANIM_IDLE;
      shutdownPhase := SHUTDOWN_ANIM_IDLE;
      touchPhase := TOUCH_ANIM_IDLE;
    }
  }

  /** A drain that follows a drain with no trigger in between reads nothing. */
  method DrainTwice(m: Mailbox) returns (first: AnimationRequests, second: AnimationRequests)
    requires m.Valid()
    modifies m
    ensures first == old(m.Pending())
    ensures second.AllIdle()
  {
    first := m.ConsumeRequests();
    second := m.ConsumeRequests();
  }

  /** Of two triggers on one channel before a drain, only the later is read. */
  method DragStartThenEnd(m: Mailbox) returns (requests: AnimationRequests)
    requires m.Valid()
    modifies m
    ensures requests == old(m.Pending()).(drag := DRAG_ANIM_END_REQUESTED)
  {
    m.RequestDragRaiseAnimationStart();
    m.RequestDragRaiseAnimationEnd();
    requests := m.ConsumeRequests();
  }
}
