/**
 * `StatePlayer` of src/animation/player/state.rs. After a cooldown of ticks
 * it looks, from a drawn starting point, for a state variant directory with
 * B frames. From the first one it finds it plays one cycle: A once, B a drawn
 * number of passes (each B frame held for a few ticks), C once. Then it draws
 * a new cooldown.
 *
 * What one call does to the cycle is specified by `PlayStep`, a function on
 * `Cycle`, which is a value holding the player's cycle fields. The player's
 * methods are proved to update those fields the way `PlayStep` says.
 */
module StateAnimation {
  import opened Common
  import opened FileTree
  import opened Assets

  /** `StatePhase`; `StateNone` is the source's `None` (no cycle running). */
  datatype StatePhase = StateNone | StateA(aIndex: nat) | StateB(bIndex: nat, remaining: U8) | StateC(cIndex: nat)

  /** The fields of the player that one call of the cycle logic reads and writes. */
  datatype Cycle = Cycle(phase: StatePhase, aFiles: seq<Path>, bFiles: seq<Path>, cFiles: seq<Path>,
                         holdTicks: U8, lastFrame: Option<Path>)

  /** What one call does: the new cycle fields, the frame shown, and whether `finish_cycle` ran. */
  datatype Played = Played(next: Cycle, frame: Option<Path>, finished: bool)

  /** The cycle fields as `finish_cycle` leaves them. */
  const CLEARED: Cycle := Cycle(StateNone, [], [], [], 0, None)

  /** `Vec::get(index).cloned()` */
  function Get(files: seq<Path>, index: nat): Option<Path>
  {
    if index < |files| then Some(files[index]) else None
  }

  /** The phase's cursor stays inside its segment, and a B phase has a pass to play. */
  predicate CycleInBounds(s: Cycle)
  {
    match s.phase
    case StateNone => true
    case StateA(i) => CursorIn(s.aFiles, i)
    case StateB(i, remaining) => CursorIn(s.bFiles, i) && remaining >= 1
    case StateC(i) => CursorIn(s.cFiles, i)
  }

  /** `frame` is shown: it becomes the last frame, and is held for `hold` more calls. */
  function Emit(s: Cycle, frame: Option<Path>, hold: U8, finished: bool): Played
  {
    Played(s.(lastFrame := frame, holdTicks := hold), frame, finished)
  }

  /** The A arm of `next_frame`; `loops` is the pass count drawn if B starts. */
  function PlayA(s: Cycle, index: nat, loops: U8): Played
  {
    if s.aFiles == [] then Emit(s.(phase := StateB(0, loops)), Get(s.bFiles, 0), 0, false)
    else
      var phase := if index + 1 < |s.aFiles| then StateA(index + 1) else StateB(0, loops);
      Emit(s.(phase := phase), Get(s.aFiles, index), 0, false)
  }

  /** The B arm of `next_frame`; every frame it shows is held for `bHold` more calls. */
  function PlayB(s: Cycle, index: nat, remaining: U8, bHold: U8): Played
  {
    if s.bFiles == [] then
      if s.cFiles == [] then Played(CLEARED, None, true)
      else Emit(s.(phase := StateC(0)), Get(s.cFiles, 0), bHold, false)
    else
      var frame := Get(s.bFiles, index);
      if index + 1 < |s.bFiles| then Emit(s.(phase := StateB(index + 1, remaining)), frame, bHold, false)
      else if remaining > 1 then Emit(s.(phase := StateB(0, remaining - 1)), frame, bHold, false)
      else if s.cFiles == [] then Emit(CLEARED, frame, bHold, true)
      else Emit(s.(phase := StateC(0)), frame, bHold, false)
  }

  /** The C arm of `next_frame`. */
  function PlayC(s: Cycle, index: nat): Played
  {
    if s.cFiles == [] then Played(CLEARED, None, true)
    else
      var frame := Get(s.cFiles, index);
      if index + 1 < |s.cFiles| then Emit(s.(phase := StateC(index + 1)), frame, 0, false)
      else Emit(CLEARED, frame, 0, true)
  }

  /**
   * The part of `next_frame` that runs once a cycle is under way: a held
   * frame is shown again, otherwise the phase plays its next frame. The
   * cursors stay in bounds.
   */
  function PlayStep(s: Cycle, loops: U8, bHold: U8): (r: Played)
    ensures CycleInBounds(s) && loops >= 1 ==> CycleInBounds(r.next)
  {
    if s.holdTicks > 0 then Played(s.(holdTicks := s.holdTicks - 1), s.lastFrame, false)
    else
      match s.phase
      case StateNone => Emit(s, None, 0, false)
      case StateA(i) => PlayA(s, i, loops)
      case StateB(i, remaining) => PlayB(s, i, remaining, bHold)
      case StateC(i) => PlayC(s, i)
  }

  predicate SameSegments(s: Cycle, t: Cycle)
  {
    s.aFiles == t.aFiles && s.bFiles == t.bFiles && s.cFiles == t.cFiles
  }

  /** The B frames a B phase still owes, counting the one at its cursor. */
  function BOwed(s: Cycle): nat
    requires s.phase.StateB? && s.phase.bIndex < |s.bFiles| && s.phase.remaining >= 1
  {
    (s.phase.remaining - 1) * |s.bFiles| + (|s.bFiles| - s.phase.bIndex)
  }

  // ---------------------------------------------------------------------
  // One call
  // ---------------------------------------------------------------------

  /** A held frame: the last frame again, one hold tick fewer, nothing else changes. */
  lemma HoldRepeatsLastFrame(s: Cycle, loops: U8, bHold: U8)
    requires s.holdTicks > 0
    ensures var r := PlayStep(s, loops, bHold);
      r.frame == s.lastFrame && !r.finished
      && r.next.phase == s.phase && SameSegments(s, r.next)
      && r.next.holdTicks == s.holdTicks - 1 && r.next.lastFrame == s.lastFrame
  {
  }

  /** Phase A shows its frames once, in order, unheld; after the last one B starts with `loops` passes. */
  lemma AStep(s: Cycle, loops: U8, bHold: U8)
    requires CycleInBounds(s) && s.holdTicks == 0 && s.phase.StateA? && s.aFiles != []
    ensures var r := PlayStep(s, loops, bHold);
      r.frame == Some(s.aFiles[s.phase.aIndex]) && r.next.lastFrame == r.frame && r.next.holdTicks == 0
      && !r.finished && SameSegments(s, r.next)
      && r.next.phase == (if s.phase.aIndex + 1 < |s.aFiles| then StateA(s.phase.aIndex + 1) else StateB(0, loops))
  {
  }

  /**
   * Phase B shows its frames in order, pass after pass, each held for
   * `bHold` calls, and owes one frame fewer per frame shown; once nothing is
   * owed C starts, or, without C frames, the cycle finishes. Finishing there
   * still leaves the last B frame and its hold behind.
   */
  lemma BStep(s: Cycle, loops: U8, bHold: U8)
    requires CycleInBounds(s) && s.holdTicks == 0 && s.phase.StateB? && s.bFiles != []
    ensures var r := PlayStep(s, loops, bHold);
      r.frame == Some(s.bFiles[s.phase.bIndex]) && r.next.lastFrame == r.frame && r.next.holdTicks == bHold
      && (r.next.phase.StateB? <==> BOwed(s) > 1)
      && (r.next.phase.StateB? ==>
            r.next.phase == (if s.phase.bIndex + 1 < |s.bFiles| then StateB(s.phase.bIndex + 1, s.phase.remaining)
                             else StateB(0, s.phase.remaining - 1))
            && SameSegments(s, r.next) && CycleInBounds(r.next) && BOwed(r.next) == BOwed(s) - 1 && !r.finished)
      && (BOwed(s) == 1 && s.cFiles != [] ==> r.next.phase == StateC(0) && SameSegments(s, r.next) && !r.finished)
      && (BOwed(s) == 1 && s.cFiles == [] ==> r.finished && r.next == CLEARED.(lastFrame := r.frame, holdTicks := bHold))
  {
    var i, remaining, n := s.phase.bIndex, s.phase.remaining, |s.bFiles|;
    var frame := Some(s.bFiles[i]);
    assert PlayStep(s, loops, bHold) == PlayB(s, i, remaining, bHold);
    if i + 1 < n {
      assert PlayB(s, i, remaining, bHold) == Emit(s.(phase := StateB(i + 1, remaining)), frame, bHold, false);
      assert (remaining - 1) * n >= 0;
    } else if remaining > 1 {
      assert PlayB(s, i, remaining, bHold) == Emit(s.(phase := StateB(0, remaining - 1)), frame, bHold, false);
      BOwedWrap(n, remaining);
    } else {
      assert BOwed(s) == 1;
    }
  }

  lemma BOwedWrap(n: nat, remaining: nat)
    requires remaining > 1
    ensures (remaining - 2) * n + n == (remaining - 1) * n
    ensures (remaining - 1) * n >= n
  {
    assert (remaining - 1) * n == (remaining - 2) * n + n;
  }

  /** Phase C shows its frames once, in order, unheld; after the last one the cycle finishes. */
  lemma CStep(s: Cycle, loops: U8, bHold: U8)
    requires CycleInBounds(s) && s.holdTicks == 0 && s.phase.StateC? && s.cFiles != []
    ensures var r := PlayStep(s, loops, bHold);
      r.frame == Some(s.cFiles[s.phase.cIndex]) && r.next.lastFrame == r.frame && r.next.holdTicks == 0
      && (r.finished <==> s.phase.cIndex + 1 == |s.cFiles|)
      && (!r.finished ==> r.next.phase == StateC(s.phase.cIndex + 1) && SameSegments(s, r.next))
      && (r.finished ==> r.next == CLEARED.(lastFrame := r.frame))
  {
  }

  /**
   * Empty segments are skipped: an empty A goes straight to B and shows its
   * first frame; an empty B goes to C and shows C's first frame, which C then
   * shows again as its own first frame; an empty C finishes at once with no
   * frame.
   */
  lemma EmptySegmentsSkipped(s: Cycle, loops: U8, bHold: U8)
    requires s.holdTicks == 0
    ensures var r := PlayStep(s, loops, bHold);
      (s.phase.StateA? && s.aFiles == [] ==>
         r.next.phase == StateB(0, loops) && r.frame == Get(s.bFiles, 0) && !r.finished)
      && (s.phase.StateB? && s.bFiles == [] && s.cFiles != [] ==>
            r.next.phase == StateC(0) && r.frame == Some(s.cFiles[0]) && !r.finished
            && PlayStep(r.next.(holdTicks := 0), loops, bHold).frame == Some(s.cFiles[0]))
      && (s.phase.StateB? && s.bFiles == [] && s.cFiles == [] ==> r == Played(CLEARED, None, true))
      && (s.phase.StateC? && s.cFiles == [] ==> r == Played(CLEARED, None, true))
  {
  }

  // ---------------------------------------------------------------------
  // Several calls
  // ---------------------------------------------------------------------

  /** The cycle fields after `n` calls. */
  function Run(s: Cycle, n: nat, loops: U8, bHold: U8): Cycle
    decreases n
  {
    if n == 0 then s else Run(PlayStep(s, loops, bHold).next, n - 1, loops, bHold)
  }

  /** The frames `n` calls show. */
  function Emitted(s: Cycle, n: nat, loops: U8, bHold: U8): seq<Option<Path>>
    decreases n
  {
    if n == 0 then [] else [PlayStep(s, loops, bHold).frame] + Emitted(PlayStep(s, loops, bHold).next, n - 1, loops, bHold)
  }

  lemma {:induction false} RunAppend(s: Cycle, m: nat, n: nat, loops: U8, bHold: U8)
    decreases m
    ensures Run(s, m + n, loops, bHold) == Run(Run(s, m, loops, bHold), n, loops, bHold)
    ensures Emitted(s, m + n, loops, bHold) == Emitted(s, m, loops, bHold) + Emitted(Run(s, m, loops, bHold), n, loops, bHold)
  {
    if m > 0 {
      RunAppend(PlayStep(s, loops, bHold).next, m - 1, n, loops, bHold);
    }
  }

  /** From `StateA(i)`, the rest of A is shown once; then B is about to start with `loops` passes. */
  lemma {:induction false} ARun(s: Cycle, loops: U8, bHold: U8)
    requires s.phase.StateA? && s.phase.aIndex < |s.aFiles| && s.holdTicks == 0
    ensures Emitted(s, |s.aFiles| - s.phase.aIndex, loops, bHold) == Shown(s.aFiles[s.phase.aIndex..])
    ensures Run(s, |s.aFiles| - s.phase.aIndex, loops, bHold)
            == s.(phase := StateB(0, loops), lastFrame := Some(s.aFiles[|s.aFiles| - 1]))
    decreases |s.aFiles| - s.phase.aIndex
  {
    var i := s.phase.aIndex;
    var t := PlayStep(s, loops, bHold).next;
    AStep(s, loops, bHold);
    if i + 1 < |s.aFiles| {
      ARun(t, loops, bHold);
      assert s.aFiles[i..] == [s.aFiles[i]] + s.aFiles[i + 1..];
    } else {
      assert s.aFiles[i..] == [s.aFiles[i]];
    }
  }


  /**
   * With no hold on B frames, from a B phase the frames it owes are shown:
   * the rest of the current pass and `remaining - 1` whole passes; then C is
   * about to start, or, without C frames, the cycle is over.
   */
  lemma {:induction false} BRun(s: Cycle, loops: U8)
    requires s.phase.StateB? && s.phase.bIndex < |s.bFiles| && s.phase.remaining >= 1 && s.holdTicks == 0
    ensures Emitted(s, BOwed(s), loops, 0) == Shown(Owed(s.bFiles, s.phase.bIndex, s.phase.remaining))
    ensures s.cFiles != [] ==>
      Run(s, BOwed(s), loops, 0) == s.(phase := StateC(0), lastFrame := Some(s.bFiles[|s.bFiles| - 1]))
    ensures s.cFiles == [] ==>
      Run(s, BOwed(s), loops, 0) == CLEARED.(lastFrame := Some(s.bFiles[|s.bFiles| - 1]))
    decreases BOwed(s)
  {
    var i, remaining, b := s.phase.bIndex, s.phase.remaining, s.bFiles;
    var t := PlayStep(s, loops, 0).next;
    BStep(s, loops, 0);
    if BOwed(s) > 1 {
      BRun(t, loops);
      OwedStep(b, i, remaining);
      ShownCons(b[i], Owed(b, t.phase.bIndex, t.phase.remaining));
    } else {
      assert remaining > 1 ==> (remaining - 1) * |b| >= |b|;
      assert i + 1 == |b| && remaining == 1;
      assert Owed(b, i, remaining) == [b[i]];
    }
  }

  /** From `StateC(i)`, the rest of C is shown once and the cycle finishes. */
  lemma {:induction false} CRun(s: Cycle, loops: U8, bHold: U8)
    requires s.phase.StateC? && s.phase.cIndex < |s.cFiles| && s.holdTicks == 0
    ensures Emitted(s, |s.cFiles| - s.phase.cIndex, loops, bHold) == Shown(s.cFiles[s.phase.cIndex..])
    ensures Run(s, |s.cFiles| - s.phase.cIndex, loops, bHold) == CLEARED.(lastFrame := Some(s.cFiles[|s.cFiles| - 1]))
    decreases |s.cFiles| - s.phase.cIndex
  {
    var i := s.phase.cIndex;
    var t := PlayStep(s, loops, bHold).next;
    CStep(s, loops, bHold);
    if i + 1 < |s.cFiles| {
      CRun(t, loops, bHold);
      assert s.cFiles[i..] == [s.cFiles[i]] + s.cFiles[i + 1..];
    } else {
      assert s.cFiles[i..] == [s.cFiles[i]];
    }
  }

  /**
   * A whole cycle with no hold on B frames: from its first A frame it shows
   * A once, B `loops` times and C once, in `|A| + loops * |B| + |C|` calls,
   * and ends cleared, remembering the last C frame.
   */
  lemma WholeCycle(s: Cycle, loops: U8)
    requires s.phase == StateA(0) && s.holdTicks == 0 && loops >= 1
    requires s.aFiles != [] && s.bFiles != [] && s.cFiles != []
    ensures var n := |s.aFiles| + loops * |s.bFiles| + |s.cFiles|;
      Emitted(s, n, loops, 0) == Shown(s.aFiles + Repeat(s.bFiles, loops) + s.cFiles)
      && Run(s, n, loops, 0) == CLEARED.(lastFrame := Some(s.cFiles[|s.cFiles| - 1]))
  {
    var a, b, c := s.aFiles, s.bFiles, s.cFiles;
    ARun(s, loops, 0);
    var sb := Run(s, |a|, loops, 0);
    assert BOwed(sb) == loops * |b| by {
      assert (loops - 1) * |b| + |b| == loops * |b|;
    }
    BRun(sb, loops);
    var sc := Run(sb, loops * |b|, loops, 0);
    CRun(sc, loops, 0);
    RunAppend(s, |a|, loops * |b|, loops, 0);
    RunAppend(s, |a| + loops * |b|, |c|, loops, 0);
    assert Owed(b, 0, loops) == Repeat(b, loops);
    assert a[0..] == a && c[0..] == c;
    ShownAppend(a, Repeat(b, loops));
    ShownAppend(a + Repeat(b, loops), c);
  }

  // ---------------------------------------------------------------------
  // Configuration and variants
  // ---------------------------------------------------------------------

  /** `collect_state_variants`: the sub-directories of the state root, sorted. */
  function CollectStateVariants(fs: Dir, stateRoot: Path): (r: seq<Path>)
    ensures SortedPaths(r)
    ensures multiset(r) == multiset(CollectDirPaths(fs, stateRoot))
  {
    SortPaths(CollectDirPaths(fs, stateRoot))
  }

  /**
   * The B pass bounds `new` derives from the configuration: always
   * `1 <= min <= max <= 255`, and the configured values wherever they fit.
   */
  function LoopBounds(loopMin: U32, loopMax: U32): (r: (U8, U8))
    ensures 1 <= r.0 <= r.1
    ensures 1 <= loopMin < U8_LIMIT ==> r.0 == loopMin
    ensures loopMin <= loopMax < U8_LIMIT && 1 <= loopMax ==> r.1 == loopMax
    ensures loopMax < loopMin ==> r.1 == r.0
  {
    (Min(Max(loopMin, 1), U8_LIMIT - 1), Min(Max(Max(loopMax, loopMin), 1), U8_LIMIT - 1))
  }

  /** `state_b_frame_hold_ticks`, saturated to a `u8`. */
  function HoldBound(ticks: U32): (r: U8)
    ensures ticks < U8_LIMIT ==> r == ticks
    ensures ticks >= U8_LIMIT ==> r == U8_LIMIT - 1
  {
    Min(ticks, U8_LIMIT - 1)
  }

  /** `root` has B frames for `mode`, which `load_frames_with_fallback` finds whatever the clock says. */
  predicate HasBFrames(fs: Dir, root: Path, mode: Mode)
  {
    FallbackVariants(fs, root, mode, B) != [] || LoadFramesFlat(fs, root) != []
  }

  lemma BFramesLoaded(fs: Dir, root: Path, mode: Mode, nanos: nat)
    ensures LoadFramesWithFallback(fs, root, mode, B, nanos) != [] <==> HasBFrames(fs, root, mode)
  {
  }

  /** The variant `try_start_cycle` examines at `step`, when it starts from `offset`. */
  function RotatedIndex(offset: nat, step: nat, total: nat): (r: nat)
    requires total > 0
    ensures r < total
  {
    (offset + step) % total
  }

  /**
   * What `load_frames_with_fallback` can return: a variant of the first
   * non-empty tier, or, when every tier is empty, all frames under `root`.
   */
  predicate LoadableFrames(fs: Dir, root: Path, mode: Mode, segment: Segment, files: seq<Path>)
  {
    var variants := FallbackVariants(fs, root, mode, segment);
    if variants == [] then files == LoadFramesFlat(fs, root) else files in variants
  }

  lemma FramesLoadable(fs: Dir, root: Path, mode: Mode, segment: Segment, nanos: nat)
    ensures LoadableFrames(fs, root, mode, segment, LoadFramesWithFallback(fs, root, mode, segment, nanos))
  {
  }

  /** The variant at `step` of the rotation from `offset` is the first one with B frames. */
  predicate FirstWithBFrames(fs: Dir, variants: seq<Path>, mode: Mode, offset: nat, step: nat)
  {
    offset < |variants| && step < |variants|
    && HasBFrames(fs, variants[RotatedIndex(offset, step, |variants|)], mode)
    && forall k :: 0 <= k < step ==> !HasBFrames(fs, variants[RotatedIndex(offset, k, |variants|)], mode)
  }

  /**
   * `s` is a cycle as `try_start_cycle` starts it from `root`: the three
   * segments loaded, B with frames, and the first phase A, or B when A is
   * empty.
   */
  predicate StartsCycle(fs: Dir, root: Path, mode: Mode, s: Cycle)
  {
    LoadableFrames(fs, root, mode, A, s.aFiles) && LoadableFrames(fs, root, mode, B, s.bFiles)
    && LoadableFrames(fs, root, mode, C, s.cFiles)
    && s.bFiles != []
    && (s.aFiles != [] ==> s.phase == StateA(0))
    && (s.aFiles == [] ==> s.phase.StateB? && s.phase.bIndex == 0)
  }

  /** Some variant has B frames in `mode`. */
  predicate AnyHasBFrames(fs: Dir, variants: seq<Path>, mode: Mode)
  {
    exists i :: 0 <= i < |variants| && HasBFrames(fs, variants[i], mode)
  }

  /**
   * `s` was started from the variant reached at `step` of the rotation from
   * `offset`, the first variant with B frames in that order.
   */
  predicate BegunFrom(fs: Dir, variants: seq<Path>, mode: Mode, offset: nat, step: nat, s: Cycle)
  {
    FirstWithBFrames(fs, variants, mode, offset, step)
    && StartsCycle(fs, variants[RotatedIndex(offset, step, |variants|)], mode, s)
  }

  /** The segments `a`, `b`, `c` load from the first variant with B frames from `offset`. */
  predicate StartVariantFound(fs: Dir, variants: seq<Path>, mode: Mode, offset: nat, step: nat,
                              a: seq<Path>, b: seq<Path>, c: seq<Path>)
  {
    FirstWithBFrames(fs, variants, mode, offset, step)
    && var root := variants[RotatedIndex(offset, step, |variants|)];
    LoadableFrames(fs, root, mode, A, a) && LoadableFrames(fs, root, mode, B, b)
    && LoadableFrames(fs, root, mode, C, c) && b != []
  }

  /** A cycle on the segments found, entered at A, or at B when A is empty, is begun from that variant. */
  lemma FoundBegins(fs: Dir, variants: seq<Path>, mode: Mode, offset: nat, step: nat, s: Cycle)
    requires StartVariantFound(fs, variants, mode, offset, step, s.aFiles, s.bFiles, s.cFiles)
    requires s.aFiles != [] ==> s.phase == StateA(0)
    requires s.aFiles == [] ==> s.phase.StateB? && s.phase.bIndex == 0
    ensures BegunFrom(fs, variants, mode, offset, step, s)
  {
  }

  /**
   * The search of `try_start_cycle`: from a drawn offset, each variant once,
   * in rotation, until one has B frames; its three segments are returned.
   */
  method FindStartVariant(fs: Dir, variants: seq<Path>, mode: Mode)
    returns (found: bool, a: seq<Path>, b: seq<Path>, c: seq<Path>, ghost offset: nat, ghost step: nat)
    ensures found <==> AnyHasBFrames(fs, variants, mode)
    ensures found ==> StartVariantFound(fs, variants, mode, offset, step, a, b, c)
  {
    if variants == [] {
      return false, [], [], [], 0, 0;
    }
    var total := |variants|;
    var nanos := ReadClock();
    var start := PseudoRandomIndex(total, nanos);
    for i := 0 to total
      invariant forall k :: 0 <= k < i ==> !HasBFrames(fs, variants[RotatedIndex(start, k, total)], mode)
    {
      var root := variants[RotatedIndex(start, i, total)];
      a, b, c := LoadSegments(fs, root, mode);
      if b != [] {
        return true, a, b, c, start, i;
      }
      NoBFramesExtend(fs, variants, mode, start, total, i);
    }
    forall j | 0 <= j < total
      ensures !HasBFrames(fs, variants[j], mode)
    {
      RotationVisitsAll(start, total, j);
    }
    return false, [], [], [], start, 0;
  }

  /**
   * `try_start_cycle` on values: the search, then the first phase, A or,
   * when A is empty, B with a pass count drawn from `loopMin..=loopMax`.
   */
  method StartCycle(fs: Dir, variants: seq<Path>, mode: Mode, loopMin: U8, loopMax: U8, hold: U8, last: Option<Path>)
    returns (found: bool, s: Cycle, ghost offset: nat, ghost step: nat)
    requires 1 <= loopMin <= loopMax
    ensures found <==> AnyHasBFrames(fs, variants, mode)
    ensures found ==> BegunFrom(fs, variants, mode, offset, step, s) && CycleInBounds(s)
    ensures found ==> s.holdTicks == hold && s.lastFrame == last
    ensures found && s.aFiles == [] ==> LoopCountDrawnIn(loopMin, loopMax, s.phase.remaining)
  {
    var a, b, c;
    found, a, b, c, offset, step := FindStartVariant(fs, variants, mode);
    if !found {
      return found, CLEARED, offset, step;
    }
    var first;
    if a == [] {
      var loopNanos := ReadClock();
      first := StateB(0, LoopCountIn(loopMin, loopMax, loopNanos));
    } else {
      first := StateA(0);
    }
    s := Cycle(first, a, b, c, hold, last);
    FoundBegins(fs, variants, mode, offset, step, s);
  }

  /** `choose_loop_count` for the clock reading `nanos`, from `loopMin..=loopMax`. */
  function LoopCountIn(loopMin: U8, loopMax: U8, nanos: nat): (r: U8)
    ensures loopMin <= r <= Max(loopMax, loopMin)
  {
    loopMin + PseudoRandomIndex(Max(loopMax, loopMin) - loopMin + 1, nanos)
  }

  /** `count` is a pass count `choose_loop_count` can draw from `loopMin..=loopMax`. */
  ghost predicate LoopCountDrawnIn(loopMin: U8, loopMax: U8, count: U8)
  {
    exists nanos :: count == LoopCountIn(loopMin, loopMax, nanos)
  }

  /** The three `load_frames_with_fallback` calls of one step of `try_start_cycle`. */
  method LoadSegments(fs: Dir, root: Path, mode: Mode) returns (a: seq<Path>, b: seq<Path>, c: seq<Path>)
    ensures LoadableFrames(fs, root, mode, A, a) && LoadableFrames(fs, root, mode, B, b)
    ensures LoadableFrames(fs, root, mode, C, c)
    ensures b != [] <==> HasBFrames(fs, root, mode)
  {
    var aNanos := ReadClock();
    a := LoadFramesWithFallback(fs, root, mode, A, aNanos);
    var bNanos := ReadClock();
    b := LoadFramesWithFallback(fs, root, mode, B, bNanos);
    var cNanos := ReadClock();
    c := LoadFramesWithFallback(fs, root, mode, C, cNanos);
    BFramesLoaded(fs, root, mode, bNanos);
    FramesLoadable(fs, root, mode, A, aNanos);
    FramesLoadable(fs, root, mode, B, bNanos);
    FramesLoadable(fs, root, mode, C, cNanos);
  }

  lemma NoBFramesExtend(fs: Dir, variants: seq<Path>, mode: Mode, start: nat, total: nat, i: nat)
    requires total == |variants| && total > 0 && i < total
    requires forall k :: 0 <= k < i ==> !HasBFrames(fs, variants[RotatedIndex(start, k, total)], mode)
    requires !HasBFrames(fs, variants[RotatedIndex(start, i, total)], mode)
    ensures forall k :: 0 <= k < i + 1 ==> !HasBFrames(fs, variants[RotatedIndex(start, k, total)], mode)
  {
  }

  /** In `total` steps the rotation visits every variant. */
  lemma RotationVisitsAll(offset: nat, total: nat, index: nat)
    requires offset < total && index < total
    ensures exists step: nat :: step < total && RotatedIndex(offset, step, total) == index
  {
    if offset <= index {
      assert RotatedIndex(offset, index - offset, total) == index;
    } else {
      var step := index + total - offset;
      assert offset + step == index + total;
      assert RotatedIndex(offset, step, total) == index;
    }
  }

  class StatePlayer {
    const stateRoot: Path
    var currentMode: Mode
    var stateVariants: seq<Path>
    var phase: StatePhase
    var cooldownTicks: U32
    var aFiles: seq<Path>
    var bFiles: seq<Path>
    var cFiles: seq<Path>
    var frameHoldTicks: U8
    var lastFrame: Option<Path>
    const cooldownMinTicks: U32
    const cooldownMaxTicks: U32
    const loopMinCount: U8
    const loopMaxCount: U8
    const bFrameHoldTicks: U8

    /** The cursors stay in bounds; without state variants, no cycle and no C frames are left. */
    ghost predicate Valid()
      reads this
    {
      CycleInBounds(Snapshot())
      && (stateVariants == [] ==> phase == StateNone && cFiles == [])
      && cooldownMinTicks <= cooldownMaxTicks && 1 <= loopMinCount <= loopMaxCount
    }

    function Snapshot(): Cycle
      reads this`phase, this`aFiles, this`bFiles, this`cFiles, this`frameHoldTicks, this`lastFrame
    {
      Cycle(phase, aFiles, bFiles, cFiles, frameHoldTicks, lastFrame)
    }

    /** `is_active`: there are state variants to play. */
    function IsActive(): bool
      reads this`stateVariants
    {
      stateVariants != []
    }

    /** `choose_cooldown_ticks` for the clock reading `nanos`. */
    function ChooseCooldownTicks(nanos: nat): (r: U32)
      ensures cooldownMinTicks <= r <= Max(cooldownMaxTicks, cooldownMinTicks)
    {
      cooldownMinTicks + PseudoRandomIndex(Max(cooldownMaxTicks, cooldownMinTicks) - cooldownMinTicks + 1, nanos)
    }

    /** `choose_loop_count` for the clock reading `nanos`. */
    function ChooseLoopCount(nanos: nat): (r: U8)
      ensures loopMinCount <= r <= Max(loopMaxCount, loopMinCount)
    {
      LoopCountIn(loopMinCount, loopMaxCount, nanos)
    }

    lemma CooldownCoversRange(ticks: U32)
      requires cooldownMinTicks <= ticks <= Max(cooldownMaxTicks, cooldownMinTicks)
      ensures exists nanos :: ChooseCooldownTicks(nanos) == ticks
    {
      PseudoRandomIndexReachesAll(Max(cooldownMaxTicks, cooldownMinTicks) - cooldownMinTicks + 1, ticks - cooldownMinTicks);
      assert ChooseCooldownTicks(ticks - cooldownMinTicks) == ticks;
    }

    lemma LoopCountCoversRange(count: U8)
      requires loopMinCount <= count <= Max(loopMaxCount, loopMinCount)
      ensures exists nanos :: ChooseLoopCount(nanos) == count
    {
      PseudoRandomIndexReachesAll(Max(loopMaxCount, loopMinCount) - loopMinCount + 1, count - loopMinCount);
      assert ChooseLoopCount(count - loopMinCount) == count;
    }

    ghost predicate CooldownDrawn(ticks: U32)
    {
      exists nanos :: ticks == ChooseCooldownTicks(nanos)
    }

    ghost predicate LoopCountDrawn(count: U8)
    {
      LoopCountDrawnIn(loopMinCount, loopMaxCount, count)
    }

    /** Some state variant has B frames for the current mode. */
    ghost predicate AnyVariantHasB(fs: Dir)
      reads this`stateVariants, this`currentMode
    {
      AnyHasBFrames(fs, stateVariants, currentMode)
    }

    /**
     * The player's cycle fields and cooldown are what one call of the cycle
     * logic makes of `s` and the cooldown `cooldown`: a cooldown is drawn
     * when the cycle finishes.
     */
    ghost predicate PlayedFrom(s: Cycle, cooldown: U32, frame: Option<Path>)
      reads this
    {
      exists loops :: LoopCountDrawn(loops) &&
        var r := PlayStep(s, loops, bFrameHoldTicks);
        Snapshot() == r.next && frame == r.frame
        && (r.finished ==> CooldownDrawn(cooldownTicks)) && (!r.finished ==> cooldownTicks == cooldown)
    }

    /** `new`: the variants are collected and the configuration clamped; no cycle runs yet. */
    constructor (fs: Dir, stateRoot: Path, mode: Mode, config: AnimationPathConfig)
      ensures Valid()
      ensures this.stateRoot == stateRoot && currentMode == mode
      ensures stateVariants == CollectStateVariants(fs, stateRoot)
      ensures cooldownMinTicks == config.stateCooldownMinTicks
      ensures cooldownMaxTicks == Max(config.stateCooldownMaxTicks, config.stateCooldownMinTicks)
      ensures (loopMinCount, loopMaxCount) == LoopBounds(config.stateBLoopMin, config.stateBLoopMax)
      ensures bFrameHoldTicks == HoldBound(config.stateBFrameHoldTicks)
      ensures Snapshot() == CLEARED && CooldownDrawn(cooldownTicks)
    {
      var minTicks := config.stateCooldownMinTicks;
      var maxTicks := Max(config.stateCooldownMaxTicks, minTicks);
      var bounds := LoopBounds(config.stateBLoopMin, config.stateBLoopMax);
      var nanos := ReadClock();
      this.stateRoot := stateRoot;
      currentMode := mode;
      stateVariants := CollectStateVariants(fs, stateRoot);
      phase := StateNone;
      cooldownTicks := minTicks + PseudoRandomIndex(maxTicks - minTicks + 1, nanos);
      aFiles, bFiles, cFiles := [], [], [];
      frameHoldTicks := 0;
      lastFrame := None;
      cooldownMinTicks := minTicks;
      cooldownMaxTicks := maxTicks;
      loopMinCount := bounds.0;
      loopMaxCount := bounds.1;
      bFrameHoldTicks := HoldBound(config.stateBFrameHoldTicks);
      new;
      assert cooldownTicks == ChooseCooldownTicks(nanos);
    }

    /** `finish_cycle`: no phase, a new cooldown, no hold, no last frame, no segments. */
    method FinishCycle()
      modifies this`phase, this`cooldownTicks, this`frameHoldTicks, this`lastFrame, this`aFiles, this`bFiles, this`cFiles
      ensures Snapshot() == CLEARED && CooldownDrawn(cooldownTicks)
    {
      phase := StateNone;
      var nanos := ReadClock();
      cooldownTicks := ChooseCooldownTicks(nanos);
      frameHoldTicks := 0;
      lastFrame := None;
      aFiles, bFiles, cFiles := [], [], [];
    }

    /**
     * `try_start_cycle`: from a drawn offset it tries each variant once, in
     * rotation, and starts a cycle from the first one with B frames; it
     * succeeds exactly when some variant has them, and otherwise changes
     * nothing.
     */
    method TryStartCycle(fs: Dir) returns (started: bool, ghost offset: nat, ghost step: nat)
      requires Valid()
      modifies this`phase, this`aFiles, this`bFiles, this`cFiles
      ensures Valid()
      ensures started <==> old(AnyVariantHasB(fs))
      ensures !started ==> Snapshot() == old(Snapshot())
      ensures started ==> BegunFrom(fs, old(stateVariants), old(currentMode), offset, step, Snapshot())
      ensures started && Snapshot().aFiles == [] ==> LoopCountDrawn(Snapshot().phase.remaining)
      ensures stateVariants == old(stateVariants) && currentMode == old(currentMode)
      ensures cooldownTicks == old(cooldownTicks)
      ensures Snapshot().holdTicks == old(frameHoldTicks) && Snapshot().lastFrame == old(lastFrame)
    {
      var s;
      started, s, offset, step := StartCycle(fs, stateVariants, currentMode, loopMinCount, loopMaxCount, frameHoldTicks, lastFrame);
      if started {
        Begin(s);
      }
    }

    /** Installs the segments and first phase of `s`. */
    method Begin(s: Cycle)
      requires Valid() && CycleInBounds(s) && stateVariants != []
      requires s.holdTicks == frameHoldTicks && s.lastFrame == lastFrame
      modifies this`phase, this`aFiles, this`bFiles, this`cFiles
      ensures Valid() && Snapshot() == s
      ensures stateVariants == old(stateVariants) && currentMode == old(currentMode)
      ensures cooldownTicks == old(cooldownTicks)
    {
      phase, aFiles, bFiles, cFiles := s.phase, s.aFiles, s.bFiles, s.cFiles;
    }

    /** A new cooldown is drawn; nothing else changes. */
    method DrawCooldown()
      requires Valid()
      modifies this`cooldownTicks
      ensures Valid() && CooldownDrawn(cooldownTicks) && Snapshot() == old(Snapshot())
      ensures stateVariants == old(stateVariants) && currentMode == old(currentMode)
    {
      var nanos := ReadClock();
      cooldownTicks := ChooseCooldownTicks(nanos);
    }

    /** The A arm: the phase moves on; `loops` is the pass count drawn should B start. */
    method AdvanceA(index: nat) returns (frame: Option<Path>, ghost loops: U8)
      requires Valid() && phase == StateA(index)
      modifies this`phase
      ensures LoopCountDrawn(loops)
      ensures PlayA(old(Snapshot()), index, loops) == Emit(Snapshot(), frame, 0, false)
    {
      var nanos := ReadClock();
      var count := ChooseLoopCount(nanos);
      loops := count;
      if aFiles == [] {
        phase := StateB(0, count);
        return Get(bFiles, 0), loops;
      }
      frame := Get(aFiles, index);
      if index + 1 < |aFiles| {
        phase := StateA(index + 1);
      } else {
        phase := StateB(0, count);
      }
    }

    /** The B arm, once B or C has frames. */
    method AdvanceB(index: nat, remaining: U8) returns (frame: Option<Path>, ghost finished: bool)
      requires Valid() && phase == StateB(index, remaining) && (bFiles != [] || cFiles != [])
      modifies this`phase, this`cooldownTicks, this`frameHoldTicks, this`lastFrame, this`aFiles, this`bFiles, this`cFiles
      ensures PlayB(old(Snapshot()), index, remaining, bFrameHoldTicks) == Emit(Snapshot(), frame, bFrameHoldTicks, finished)
      ensures finished ==> CooldownDrawn(cooldownTicks)
      ensures !finished ==> cooldownTicks == old(cooldownTicks)
    {
      finished := false;
      if bFiles == [] {
        phase := StateC(0);
        return Get(cFiles, 0), false;
      }
      frame := Get(bFiles, index);
      if index + 1 < |bFiles| {
        phase := StateB(index + 1, remaining);
      } else if remaining > 1 {
        phase := StateB(0, remaining - 1);
      } else if cFiles == [] {
        FinishCycle();
        finished := true;
      } else {
        phase := StateC(0);
      }
    }

    /** The C arm, once C has frames. */
    method AdvanceC(index: nat) returns (frame: Option<Path>, ghost finished: bool)
      requires Valid() && phase == StateC(index) && cFiles != []
      modifies this`phase, this`cooldownTicks, this`frameHoldTicks, this`lastFrame, this`aFiles, this`bFiles, this`cFiles
      ensures PlayC(old(Snapshot()), index) == Emit(Snapshot(), frame, 0, finished)
      ensures finished ==> CooldownDrawn(cooldownTicks)
      ensures !finished ==> cooldownTicks == old(cooldownTicks)
    {
      finished := false;
      frame := Get(cFiles, index);
      if index + 1 < |cFiles| {
        phase := StateC(index + 1);
      } else {
        FinishCycle();
        finished := true;
      }
    }

    /** The part of `next_frame` after the cooldown: the hold, then the phase's arm, as `PlayStep` says. */
    method Play() returns (frame: Option<Path>, ghost loops: U8, ghost finished: bool)
      requires Valid()
      modifies this`phase, this`cooldownTicks, this`frameHoldTicks, this`lastFrame, this`aFiles, this`bFiles, this`cFiles
      ensures Valid() && stateVariants == old(stateVariants) && currentMode == old(currentMode)
      ensures LoopCountDrawn(loops)
      ensures PlayStep(old(Snapshot()), loops, bFrameHoldTicks) == Played(Snapshot(), frame, finished)
      ensures finished ==> CooldownDrawn(cooldownTicks)
      ensures !finished ==> cooldownTicks == old(cooldownTicks)
    {
      if frameHoldTicks > 0 {
        frameHoldTicks := frameHoldTicks - 1;
        loops := ChooseLoopCount(0);
        return lastFrame, loops, false;
      }
      frame, loops, finished := PlayPhase();
    }

    /** The phase's arm of `next_frame`, then the new last frame and its hold. */
    method PlayPhase() returns (frame: Option<Path>, ghost loops: U8, ghost finished: bool)
      requires Valid() && frameHoldTicks == 0
      modifies this`phase, this`cooldownTicks, this`frameHoldTicks, this`lastFrame, this`aFiles, this`bFiles, this`cFiles
      ensures LoopCountDrawn(loops)
      ensures PlayStep(old(Snapshot()), loops, bFrameHoldTicks) == Played(Snapshot(), frame, finished)
      ensures finished ==> CooldownDrawn(cooldownTicks)
      ensures !finished ==> cooldownTicks == old(cooldownTicks)
    {
      loops, finished := ChooseLoopCount(0), false;
      var phaseBefore := phase;
      match phase {
        case StateNone =>
          frame := None;
        case StateA(i) =>
          frame, loops := AdvanceA(i);
        case StateB(i, remaining) =>
          if bFiles == [] && cFiles == [] {
            FinishCycle();
            return None, loops, true;
          }
          frame, finished := AdvanceB(i, remaining);
        case StateC(i) =>
          if cFiles == [] {
            FinishCycle();
            return None, loops, true;
          }
          frame, finished := AdvanceC(i);
      }
      lastFrame := frame;
      frameHoldTicks := if phaseBefore.StateB? then bFrameHoldTicks else 0;
    }

    /**
     * `next_frame`. With no cycle running, the cooldown counts down to 0;
     * at 0 a cycle is started, or a new cooldown drawn when no variant has B
     * frames; nothing is shown meanwhile. A running or just started cycle
     * plays one call of `PlayStep`. Without state variants nothing is ever
     * shown.
     */
    method NextFrame(fs: Dir) returns (frame: Option<Path>)
      requires Valid()
      modifies this
      ensures Valid() && stateVariants == old(stateVariants) && currentMode == old(currentMode)
      ensures !old(IsActive()) ==> frame.None?
      ensures old(phase) == StateNone && old(cooldownTicks) > 0 ==>
        frame.None? && cooldownTicks == old(cooldownTicks) - 1 && Snapshot() == old(Snapshot())
      ensures old(phase) == StateNone && old(cooldownTicks) == 0 && !old(AnyVariantHasB(fs)) ==>
        frame.None? && CooldownDrawn(cooldownTicks) && Snapshot() == old(Snapshot())
      ensures old(phase) == StateNone && old(cooldownTicks) == 0 && old(AnyVariantHasB(fs)) ==>
        exists offset, step, s :: BegunFrom(fs, old(stateVariants), old(currentMode), offset, step, s)
          && (s.aFiles == [] ==> LoopCountDrawn(s.phase.remaining))
          && s.holdTicks == old(frameHoldTicks) && s.lastFrame == old(lastFrame) && PlayedFrom(s, 0, frame)
      ensures old(phase) != StateNone ==> PlayedFrom(old(Snapshot()), old(cooldownTicks), frame)
    {
      if phase == StateNone {
        if cooldownTicks > 0 {
          cooldownTicks := cooldownTicks - 1;
          return None;
        }
        var started;
        ghost var offset, step;
        started, offset, step := TryStartCycle(fs);
        if !started {
          DrawCooldown();
          return None;
        }
        ghost var s := Snapshot();
        ghost var loops, finished;
        frame, loops, finished := Play();
        return;
      }
      ghost var loops, finished;
      frame, loops, finished := Play();
    }

    /**
     * `interrupt`: without `skip_to_end`, a cycle with C frames jumps to the
     * start of C with no cooldown; otherwise the cycle is dropped, as by
     * `finish_cycle`.
     */
    method Interrupt(skipToEnd: bool)
      requires Valid()
      modifies this
      ensures Valid() && stateVariants == old(stateVariants) && currentMode == old(currentMode)
      ensures !skipToEnd && old(cFiles) != [] ==>
        Snapshot() == old(Snapshot()).(phase := StateC(0)) && cooldownTicks == 0
      ensures skipToEnd || old(cFiles) == [] ==> Snapshot() == CLEARED && CooldownDrawn(cooldownTicks)
    {
      if !skipToEnd && cFiles != [] {
        phase := StateC(0);
        cooldownTicks := 0;
        return;
      }
      FinishCycle();
    }

    /** The trait's default `stop`, which is `interrupt(true)`. */
    method Stop()
      requires Valid()
      modifies this
      ensures Valid() && stateVariants == old(stateVariants) && currentMode == old(currentMode)
      ensures Snapshot() == CLEARED && CooldownDrawn(cooldownTicks)
    {
      Interrupt(true);
    }

    /** `reload`: the variants are collected again for `mode` and the cycle is dropped. */
    method Reload(fs: Dir, mode: Mode)
      requires Valid()
      modifies this
      ensures Valid()
      ensures currentMode == mode && stateVariants == CollectStateVariants(fs, stateRoot)
      ensures Snapshot() == CLEARED && CooldownDrawn(cooldownTicks)
    {
      currentMode := mode;
      stateVariants := CollectStateVariants(fs, stateRoot);
      FinishCycle();
    }
  }
}
