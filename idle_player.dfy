/**
 * `IdlePlayer` of src/animation/player/idle.rs: on `start` it picks one
 * variant directory of the idle root at random, finds the directory of the
 * current mode inside it (falling back to Nomal), and plays either its
 * frames once (a "Single" animation) or its A, B and C sub-directories: A
 * once, B two to four times, C once. An interruption stops it, except that
 * C always plays out and B may be asked to skip to C.
 */
module IdleAnimation {
  import opened Common
  import opened FileTree
  import opened Assets
  import opened Startup

  /** The fields `start`, `next_frame` and `interrupt` change; the phase is `IdlePhase`, `A | B | C | Single`. */
  datatype IdleState = IdleState(active: bool, phase: Segment, files: seq<Path>, index: nat, loopCount: U8)

  /** The state of a new player. */
  const FRESH := IdleState(false, Single, [], 0, 0)

  /** An active player has a frame under its cursor, and in B at least one pass still to play. */
  predicate Playable(s: IdleState)
  {
    (s.active ==> s.index < |s.files|) && (s.active && s.phase == B ==> s.loopCount >= 1)
  }

  /** What installing a segment does: nothing, stop the player, or play `files` from the start in `phase`. */
  datatype Outcome = Keep | Halt | Enter(phase: Segment, files: seq<Path>, loopCount: U8)

  function Apply(s: IdleState, o: Outcome): IdleState
  {
    match o
    case Keep => s
    case Halt => s.(active := false)
    case Enter(phase, files, loopCount) => IdleState(true, phase, files, 0, loopCount)
  }

  /** Every segment installed has frames, and a B segment has passes to play. */
  predicate Installable(o: Outcome)
  {
    o.Enter? ==> o.files != [] && (o.phase == B ==> o.loopCount >= 1)
  }

  lemma ApplyPlayable(s: IdleState, o: Outcome)
    requires Playable(s) && Installable(o)
    ensures Playable(Apply(s, o))
  {
  }

  // ---------------------------------------------------------------------
  // Directory matching
  // ---------------------------------------------------------------------

  /** The name a sub-directory is matched by: its last component lower-cased, "" when there is none. */
  function LowerName(p: Path): string
  {
    ToAsciiLower(FileName(p).UnwrapOr(""))
  }

  /** Whether sub-directory `p` holds `segment`: A by a leading 'a' or "start", B by 'b' or "loop", C by 'c' or "end". */
  predicate NamesSegment(p: Path, segment: Segment)
  {
    var name := LowerName(p);
    match segment
    case A => StartsWith(name, "a") || Contains(name, "start")
    case B => StartsWith(name, "b") || Contains(name, "loop")
    case C => StartsWith(name, "c") || Contains(name, "end")
    case Single => false
  }

  /** The first of `dirs` that holds `segment` (`iter().find`). */
  function FindSegmentDir(dirs: seq<Path>, segment: Segment): (r: Option<Path>)
    ensures r.None? <==> forall i :: 0 <= i < |dirs| ==> !NamesSegment(dirs[i], segment)
    ensures r.Some? ==> exists i :: 0 <= i < |dirs| && dirs[i] == r.value && NamesSegment(dirs[i], segment)
                                    && forall j :: 0 <= j < i ==> !NamesSegment(dirs[j], segment)
  {
    if dirs == [] then None
    else if NamesSegment(dirs[0], segment) then Some(dirs[0])
    else
      var r := FindSegmentDir(dirs[1..], segment);
      assert forall i :: 1 <= i < |dirs| ==> dirs[i] == dirs[1..][i - 1];
      if r.Some? then
        var i :| 0 <= i < |dirs[1..]| && dirs[1..][i] == r.value && NamesSegment(dirs[1..][i], segment)
                 && forall j :: 0 <= j < i ==> !NamesSegment(dirs[1..][j], segment);
        assert dirs[i + 1] == r.value;
        r
      else r
  }

  /** The `has_abc` test of `start`: some sub-directory holds an A segment. */
  predicate HasAbc(fs: Dir, modeDir: Path)
  {
    exists i :: 0 <= i < |CollectDirPaths(fs, modeDir)| && NamesSegment(CollectDirPaths(fs, modeDir)[i], A)
  }

  /** The frames of the first sub-directory of `modeDir` holding `segment`; none if it has none or is unreadable. */
  function SegmentFiles(fs: Dir, modeDir: Path, segment: Segment): seq<Path>
  {
    match FindSegmentDir(CollectDirPaths(fs, modeDir), segment)
    case None => []
    case Some(dir) => CollectPngFiles(fs, dir).UnwrapOr([])
  }

  /**
   * The frames `next_frame` finds when it moves to another segment of a mode
   * directory: `SegmentFiles` of the file tree, passed as a function so that
   * the segment moves do not depend on how the tree is searched.
   */
  type SegmentReader = (Path, Segment) -> seq<Path>

  function ReadSegments(fs: Dir): SegmentReader
  {
    (modeDir, segment) => SegmentFiles(fs, modeDir, segment)
  }

  /** The mode directory `start` picks inside `variant`: the first matching the mode, else the first matching Nomal. */
  function IdleModeDir(fs: Dir, variant: Path, mode: Mode): (r: Option<Path>)
  {
    var modeDirs := CollectDirPaths(fs, variant);
    var exact := FirstMatchingDir(modeDirs, mode);
    if exact.None? && mode != Nomal then FirstMatchingDir(modeDirs, Nomal) else exact
  }

  /** The mode directory is a sub-directory of the variant named for the mode, or else for Nomal; with neither there is none. */
  lemma IdleModeDirMatches(fs: Dir, variant: Path, mode: Mode)
    ensures IdleModeDir(fs, variant, mode).Some? ==>
      IdleModeDir(fs, variant, mode).value in CollectDirPaths(fs, variant)
      && (LastNameMatchesMode(IdleModeDir(fs, variant, mode).value, mode)
          || LastNameMatchesMode(IdleModeDir(fs, variant, mode).value, Nomal))
    ensures IdleModeDir(fs, variant, mode).None? <==>
      !AnyLastNameMatches(CollectDirPaths(fs, variant), mode) && !AnyLastNameMatches(CollectDirPaths(fs, variant), Nomal)
    ensures AnyLastNameMatches(CollectDirPaths(fs, variant), mode) ==>
      IdleModeDir(fs, variant, mode) == FirstMatchingDir(CollectDirPaths(fs, variant), mode)
  {
    var dirs := CollectDirPaths(fs, variant);
    var r := IdleModeDir(fs, variant, mode);
    if r.Some? {
      if FirstMatchingDir(dirs, mode).Some? {
        var i :| 0 <= i < |dirs| && dirs[i] == r.value && LastNameMatchesMode(dirs[i], mode);
      } else {
        var i :| 0 <= i < |dirs| && dirs[i] == r.value && LastNameMatchesMode(dirs[i], Nomal);
      }
    }
  }

  /** `path.parent()`: the path without its last component; none for the empty path. */
  function Parent(p: Path): Option<Path>
  {
    if p == [] then None else Some(p[..|p| - 1])
  }

  /** `get_current_mode_dir`: the directory above the first frame's directory in A, B and C; that directory in Single. */
  function CurrentModeDir(files: seq<Path>, phase: Segment): Option<Path>
  {
    if files == [] then None
    else
      match Parent(files[0])
      case None => None
      case Some(parent) => if phase == Single then Some(parent) else Parent(parent)
  }

  lemma DirPathIsChild(fs: Dir, root: Path, p: Path)
    requires p in CollectDirPaths(fs, root)
    ensures Parent(p) == Some(root)
  {
    var d := Lookup(fs, root).value;
    var i :| 0 <= i < |d.subdirs| && p == root + [d.subdirs[i].name];
    assert p[..|p| - 1] == root;
  }

  lemma FrameIsChild(fs: Dir, dir: Path, files: seq<Path>)
    requires CollectPngFiles(fs, dir) == Ok(files) && files != []
    ensures Parent(files[0]) == Some(dir)
  {
    assert files[0] in files;
    assert files[0][..|files[0]| - 1] == dir;
  }

  /** Every frame a segment plays lies two levels below `modeDir`, so `get_current_mode_dir` recovers it. */
  lemma SegmentModeDirRecovered(fs: Dir, modeDir: Path, segment: Segment)
    requires segment != Single && SegmentFiles(fs, modeDir, segment) != []
    ensures CurrentModeDir(SegmentFiles(fs, modeDir, segment), segment) == Some(modeDir)
  {
    var dirs := CollectDirPaths(fs, modeDir);
    var dir := FindSegmentDir(dirs, segment).value;
    var i :| 0 <= i < |dirs| && dirs[i] == dir;
    DirPathIsChild(fs, modeDir, dir);
    FrameIsChild(fs, dir, SegmentFiles(fs, modeDir, segment));
  }

  /** A Single animation's frames lie directly in `modeDir`, and `get_current_mode_dir` recovers it. */
  lemma SingleModeDirRecovered(fs: Dir, modeDir: Path)
    requires CollectPngFiles(fs, modeDir).UnwrapOr([]) != []
    ensures CurrentModeDir(CollectPngFiles(fs, modeDir).UnwrapOr([]), Single) == Some(modeDir)
  {
    FrameIsChild(fs, modeDir, CollectPngFiles(fs, modeDir).value);
  }

  // ---------------------------------------------------------------------
  // Segment transitions
  // ---------------------------------------------------------------------

  /** The B pass count of `transition_to_b`: `2 + pseudo_random_index(3)`. */
  function DrawLoopCount(nanos: nat): (r: U8)
    ensures 2 <= r <= 4
  {
    2 + PseudoRandomIndex(3, nanos)
  }

  /** Each of 2, 3 and 4 passes is drawn at some clock reading. */
  lemma LoopCountCoversRange(count: U8)
    requires 2 <= count <= 4
    ensures exists nanos :: DrawLoopCount(nanos) == count
  {
    PseudoRandomIndexReachesAll(3, count - 2);
    assert DrawLoopCount(count - 2) == count;
  }

  /** `transition_to_c`: play the C frames of `modeDir`, or stop without them. */
  function ToC(read: SegmentReader, modeDir: Path, loopCount: U8): (o: Outcome)
    ensures Installable(o) && o != Keep
    ensures o.Enter? <==> read(modeDir, C) != []
    ensures o.Enter? ==> o.phase == C && o.files == read(modeDir, C) && o.loopCount == loopCount
  {
    var files := read(modeDir, C);
    if files != [] then Enter(C, files, loopCount) else Halt
  }

  /** `transition_to_b`: play the B frames of `modeDir` with a fresh pass count, or go on to C without them. */
  function ToB(read: SegmentReader, modeDir: Path, loopCount: U8, nanos: nat): (o: Outcome)
    ensures Installable(o) && o != Keep
    ensures read(modeDir, B) != [] ==> o == Enter(B, read(modeDir, B), DrawLoopCount(nanos))
    ensures read(modeDir, B) == [] ==> o == ToC(read, modeDir, loopCount)
  {
    var files := read(modeDir, B);
    if files != [] then Enter(B, files, DrawLoopCount(nanos)) else ToC(read, modeDir, loopCount)
  }

  /** `start_abc`: play the A frames of `modeDir`, or go on to B without them. */
  function StartAbc(read: SegmentReader, modeDir: Path, loopCount: U8, nanos: nat): (o: Outcome)
    ensures Installable(o) && o != Keep
    ensures read(modeDir, A) != [] ==> o == Enter(A, read(modeDir, A), loopCount)
    ensures read(modeDir, A) == [] ==> o == ToB(read, modeDir, loopCount, nanos)
  {
    var files := read(modeDir, A);
    if files != [] then Enter(A, files, loopCount) else ToB(read, modeDir, loopCount, nanos)
  }

  /** The frames `read` gives for the segments of `modeDir` lie in its sub-directories. */
  predicate ReadsBelow(read: SegmentReader, modeDir: Path)
  {
    && (read(modeDir, A) != [] ==> CurrentModeDir(read(modeDir, A), A) == Some(modeDir))
    && (read(modeDir, B) != [] ==> CurrentModeDir(read(modeDir, B), B) == Some(modeDir))
    && (read(modeDir, C) != [] ==> CurrentModeDir(read(modeDir, C), C) == Some(modeDir))
  }

  lemma TreeReadsBelow(fs: Dir, modeDir: Path)
    ensures ReadsBelow(ReadSegments(fs), modeDir)
  {
    if SegmentFiles(fs, modeDir, A) != [] {
      SegmentModeDirRecovered(fs, modeDir, A);
    }
    if SegmentFiles(fs, modeDir, B) != [] {
      SegmentModeDirRecovered(fs, modeDir, B);
    }
    if SegmentFiles(fs, modeDir, C) != [] {
      SegmentModeDirRecovered(fs, modeDir, C);
    }
  }

  /** Whatever segment a transition installs, its frames come from a sub-directory of `modeDir`. */
  lemma TransitionStaysInModeDir(fs: Dir, modeDir: Path, loopCount: U8, nanos: nat)
    ensures StartAbc(ReadSegments(fs), modeDir, loopCount, nanos).Enter? ==>
      CurrentModeDir(StartAbc(ReadSegments(fs), modeDir, loopCount, nanos).files, StartAbc(ReadSegments(fs), modeDir, loopCount, nanos).phase) == Some(modeDir)
    ensures ToB(ReadSegments(fs), modeDir, loopCount, nanos).Enter? ==>
      CurrentModeDir(ToB(ReadSegments(fs), modeDir, loopCount, nanos).files, ToB(ReadSegments(fs), modeDir, loopCount, nanos).phase) == Some(modeDir)
    ensures ToC(ReadSegments(fs), modeDir, loopCount).Enter? ==>
      CurrentModeDir(ToC(ReadSegments(fs), modeDir, loopCount).files, C) == Some(modeDir)
  {
    TreeReadsBelow(fs, modeDir);
  }

  /** The mode directory `start` plays from: that of a variant of the idle root picked by the clock reading. */
  function StartModeDir(fs: Dir, idleRoot: Path, mode: Mode, variantNanos: nat): Option<Path>
  {
    var variants := CollectDirPaths(fs, idleRoot);
    if variants == [] then None
    else IdleModeDir(fs, variants[PseudoRandomIndex(|variants|, variantNanos)], mode)
  }

  /** Without variants there is no mode directory; otherwise it is the mode directory of one of the variants. */
  lemma StartModeDirOfVariant(fs: Dir, idleRoot: Path, mode: Mode, variantNanos: nat)
    ensures CollectDirPaths(fs, idleRoot) == [] ==> StartModeDir(fs, idleRoot, mode, variantNanos).None?
    ensures StartModeDir(fs, idleRoot, mode, variantNanos).Some? ==>
      exists i :: 0 <= i < |CollectDirPaths(fs, idleRoot)|
                  && StartModeDir(fs, idleRoot, mode, variantNanos) == IdleModeDir(fs, CollectDirPaths(fs, idleRoot)[i], mode)
  {
  }

  /**
   * What `start` plays from mode directory `modeDir`: the A, B, C sequence
   * when a sub-directory holds A, otherwise the directory's own frames as a
   * Single animation, and nothing if it has none. Whatever it plays lies
   * below `modeDir`, where `get_current_mode_dir` finds it again.
   */
  function StartFrom(fs: Dir, modeDir: Path, loopCount: U8, loopNanos: nat): (o: Outcome)
    ensures Installable(o)
    ensures o.Enter? ==> CurrentModeDir(o.files, o.phase) == Some(modeDir)
    ensures HasAbc(fs, modeDir) ==> o != Keep
    ensures !HasAbc(fs, modeDir) ==> o == Keep || (o.Enter? && o.phase == Single)
  {
    if HasAbc(fs, modeDir) then
      TransitionStaysInModeDir(fs, modeDir, loopCount, loopNanos);
      StartAbc(ReadSegments(fs), modeDir, loopCount, loopNanos)
    else
      var files := CollectPngFiles(fs, modeDir).UnwrapOr([]);
      if files != [] then
        SingleModeDirRecovered(fs, modeDir);
        Enter(Single, files, loopCount)
      else Keep
  }

  /** `start` after `startup.stop()`: nothing without a mode directory, otherwise what `StartFrom` plays. */
  function StartOutcome(fs: Dir, idleRoot: Path, mode: Mode, loopCount: U8, variantNanos: nat, loopNanos: nat): (o: Outcome)
    ensures Installable(o)
  {
    match StartModeDir(fs, idleRoot, mode, variantNanos)
    case None => Keep
    case Some(modeDir) => StartFrom(fs, modeDir, loopCount, loopNanos)
  }

  /** With a sub-directory holding A, `start` never leaves the player as it was: it plays a segment or stops. */
  lemma AbcStartNeverKeeps(fs: Dir, idleRoot: Path, mode: Mode, loopCount: U8, variantNanos: nat, loopNanos: nat)
    requires StartModeDir(fs, idleRoot, mode, variantNanos).Some?
    requires HasAbc(fs, StartModeDir(fs, idleRoot, mode, variantNanos).value)
    ensures StartOutcome(fs, idleRoot, mode, loopCount, variantNanos, loopNanos) != Keep
  {
  }

  /** The `has_abc` test is the same search as the A search of `start_abc`: A is found whenever ABC is chosen. */
  lemma HasAbcFindsA(fs: Dir, modeDir: Path)
    ensures HasAbc(fs, modeDir) <==> FindSegmentDir(CollectDirPaths(fs, modeDir), A).Some?
  {
  }

  // ---------------------------------------------------------------------
  // next_frame and interrupt
  // ---------------------------------------------------------------------

  /** What `next_frame` does once the cursor has run past the last frame of the segment. */
  function PassEnd(read: SegmentReader, t: IdleState, nanos: nat): IdleState
  {
    match t.phase
    case A =>
      (match CurrentModeDir(t.files, t.phase)
       case None => Apply(t, Halt)
       case Some(modeDir) => Apply(t, ToB(read, modeDir, t.loopCount, nanos)))
    case B =>
      if t.loopCount > 1 then t.(loopCount := t.loopCount - 1, index := 0)
      else
        (match CurrentModeDir(t.files, t.phase)
         case None => Apply(t, Halt)
         case Some(modeDir) => Apply(t, ToC(read, modeDir, t.loopCount)))
    case C => Apply(t, Halt)
    case Single => Apply(t, Halt)
  }

  /** Whatever `PassEnd` moves to is playable again. */
  lemma PassEndPlayable(read: SegmentReader, t: IdleState, nanos: nat)
    requires t.active && t.index == |t.files| > 0 && (t.phase == B ==> t.loopCount >= 1)
    ensures Playable(PassEnd(read, t, nanos))
  {
    var modeDir := CurrentModeDir(t.files, t.phase);
    if t.phase == A && modeDir.Some? {
      ApplyPlayable(t.(active := false), ToB(read, modeDir.value, t.loopCount, nanos));
    } else if t.phase == B && t.loopCount <= 1 && modeDir.Some? {
      ApplyPlayable(t.(active := false), ToC(read, modeDir.value, t.loopCount));
    }
  }

  /**
   * `next_frame`: nothing, and no change, from an inactive player; otherwise
   * the frame under the cursor, the cursor advanced, and at the end of the
   * segment the move `PassEnd` makes. `nanos` is the clock reading B's pass
   * count is drawn from.
   */
  function Step(read: SegmentReader, s: IdleState, nanos: nat): (r: (IdleState, Option<Path>))
    requires Playable(s)
    ensures Playable(r.0)
    ensures r.1.Some? <==> s.active
    ensures !s.active ==> r.0 == s
    ensures s.active ==> r.1 == Some(s.files[s.index])
    ensures s.active && s.index + 1 < |s.files| ==> r.0 == s.(index := s.index + 1)
  {
    if !s.active || s.files == [] then (s, None)
    else
      var frame := s.files[s.index];
      var t := s.(index := s.index + 1);
      if t.index < |t.files| then (t, Some(frame))
      else
        var r := PassEnd(read, t, nanos);
        PassEndPlayable(read, t, nanos);
        (r, Some(frame))
  }

  /**
   * What happens after the last frame of a segment: C and Single stop; B
   * plays again from the start while passes remain, then C follows; A is
   * followed by B. The segment that follows comes from the same mode directory.
   */
  lemma SegmentEnd(read: SegmentReader, s: IdleState, nanos: nat)
    requires Playable(s) && s.active && s.index + 1 == |s.files|
    ensures (s.phase == C || s.phase == Single) ==> Step(read, s, nanos).0 == s.(active := false, index := |s.files|)
    ensures s.phase == B && s.loopCount > 1 ==> Step(read, s, nanos).0 == s.(index := 0, loopCount := s.loopCount - 1)
    ensures s.phase == B && s.loopCount == 1 && CurrentModeDir(s.files, B).Some? ==>
      Step(read, s, nanos).0 == Apply(s.(index := |s.files|), ToC(read, CurrentModeDir(s.files, B).value, 1))
    ensures s.phase == A && CurrentModeDir(s.files, A).Some? ==>
      Step(read, s, nanos).0 == Apply(s.(index := |s.files|), ToB(read, CurrentModeDir(s.files, A).value, s.loopCount, nanos))
  {
  }

  /**
   * `interrupt`: no change when inactive or in C; in B with `skipToEnd` the
   * move to C (stopping without C frames); otherwise the player stops.
   */
  function InterruptStep(read: SegmentReader, s: IdleState, skipToEnd: bool): (r: IdleState)
    requires Playable(s)
    ensures Playable(r)
  {
    if !s.active then s
    else if skipToEnd && s.phase == B then
      match CurrentModeDir(s.files, s.phase)
      case None => Apply(s, Halt)
      case Some(modeDir) => Apply(s, ToC(read, modeDir, s.loopCount))
    else if s.phase == C then s
    else Apply(s, Halt)
  }

  /** After an interruption only an end segment C can still be playing, so a second interruption changes nothing. */
  lemma InterruptLeavesOnlyC(read: SegmentReader, s: IdleState, skipToEnd: bool, skipAgain: bool)
    requires Playable(s)
    ensures InterruptStep(read, s, skipToEnd).active ==> InterruptStep(read, s, skipToEnd).phase == C
    ensures InterruptStep(read, InterruptStep(read, s, skipToEnd), skipAgain) == InterruptStep(read, s, skipToEnd)
    ensures s.active && s.phase != C && !(skipToEnd && s.phase == B) ==> !InterruptStep(read, s, skipToEnd).active
    ensures s.active && s.phase == C ==> InterruptStep(read, s, skipToEnd) == s
  {
  }

  // ---------------------------------------------------------------------
  // Runs of frames
  // ---------------------------------------------------------------------

  /** The state after `n` calls of `next_frame`, all at clock reading `nanos`. */
  function Run(read: SegmentReader, s: IdleState, n: nat, nanos: nat): (r: IdleState)
    requires Playable(s)
    ensures Playable(r)
    decreases n
  {
    if n == 0 then s else Run(read, Step(read, s, nanos).0, n - 1, nanos)
  }

  /** The frames those `n` calls return. */
  function Emitted(read: SegmentReader, s: IdleState, n: nat, nanos: nat): seq<Option<Path>>
    requires Playable(s)
    decreases n
  {
    if n == 0 then [] else [Step(read, s, nanos).1] + Emitted(read, Step(read, s, nanos).0, n - 1, nanos)
  }

  lemma {:induction false} RunAppend(read: SegmentReader, s: IdleState, m: nat, n: nat, nanos: nat)
    requires Playable(s)
    ensures Run(read, s, m + n, nanos) == Run(read, Run(read, s, m, nanos), n, nanos)
    ensures Emitted(read, s, m + n, nanos) == Emitted(read, s, m, nanos) + Emitted(read, Run(read, s, m, nanos), n, nanos)
    decreases m
  {
    if m > 0 {
      RunAppend(read, Step(read, s, nanos).0, m - 1, n, nanos);
    }
  }

  /** An inactive player returns nothing, however often it is asked, and stays as it is. */
  lemma {:induction false} InactiveRun(read: SegmentReader, s: IdleState, n: nat, nanos: nat)
    requires Playable(s) && !s.active
    ensures Run(read, s, n, nanos) == s
    ensures Emitted(read, s, n, nanos) == seq(n, _ => None)
    decreases n
  {
    if n > 0 {
      InactiveRun(read, s, n - 1, nanos);
    }
  }

  /** From cursor `i`, the rest of the segment is shown in order; then the segment's end is handled by `PassEnd`. */
  lemma {:induction false} PassRun(read: SegmentReader, s: IdleState, nanos: nat)
    requires Playable(s) && s.active
    ensures Emitted(read, s, |s.files| - s.index, nanos) == Shown(s.files[s.index..])
    ensures Run(read, s, |s.files| - s.index, nanos) == PassEnd(read, s.(index := |s.files|), nanos)
    decreases |s.files| - s.index
  {
    var t := Step(read, s, nanos).0;
    if s.index + 1 < |s.files| {
      PassRun(read, t, nanos);
      assert s.files[s.index..] == [s.files[s.index]] + s.files[s.index + 1..];
    } else {
      assert s.files[s.index..] == [s.files[s.index]];
    }
  }

  /** At the end of a B pass with passes left, B plays again from its first frame. */
  lemma BPassRepeats(read: SegmentReader, t: IdleState, nanos: nat)
    requires t.phase == B && t.loopCount > 1
    ensures PassEnd(read, t, nanos) == t.(index := 0, loopCount := t.loopCount - 1)
  {
  }

  /** The frames B still owes: the rest of this pass and `loopCount - 1` whole passes. */
  function BOwed(s: IdleState): nat
    requires Playable(s) && s.active && s.phase == B
  {
    (s.loopCount - 1) * |s.files| + (|s.files| - s.index)
  }

  /** One whole pass more is `len` frames more. */
  lemma PassesOwed(passes: nat, len: nat)
    requires passes >= 1
    ensures passes * len == (passes - 1) * len + len
  {
  }

  /**
   * From B, the owed frames are shown: the rest of the current pass, then
   * `loopCount - 1` whole passes; then the player moves on to C, or stops.
   */
  lemma BRun(read: SegmentReader, s: IdleState, nanos: nat)
    requires Playable(s) && s.active && s.phase == B
    ensures Emitted(read, s, BOwed(s), nanos) == Shown(Owed(s.files, s.index, s.loopCount))
    ensures Run(read, s, BOwed(s), nanos) == PassEnd(read, s.(index := |s.files|, loopCount := 1), nanos)
  {
    BRunShown(read, s, nanos);
    BRunEnd(read, s, nanos);
  }

  /** The first half of `BRun`: a pass more of B is `|files|` frames more, and the same state after. */
  lemma BPassSplit(read: SegmentReader, s: IdleState, nanos: nat)
    requires Playable(s) && s.active && s.phase == B && s.loopCount > 1
    ensures var t := s.(index := 0, loopCount := s.loopCount - 1);
            Playable(t) && BOwed(s) == |s.files| - s.index + BOwed(t)
            && Run(read, s, |s.files| - s.index, nanos) == t
            && Emitted(read, s, |s.files| - s.index, nanos) == Shown(s.files[s.index..])
  {
    PassRun(read, s, nanos);
    BPassRepeats(read, s.(index := |s.files|), nanos);
    PassesOwed(s.loopCount - 1, |s.files|);
  }

  lemma {:induction false} BRunShown(read: SegmentReader, s: IdleState, nanos: nat)
    requires Playable(s) && s.active && s.phase == B
    ensures Emitted(read, s, BOwed(s), nanos) == Shown(Owed(s.files, s.index, s.loopCount))
    decreases s.loopCount
  {
    var pass := |s.files| - s.index;
    if s.loopCount == 1 {
      PassRun(read, s, nanos);
      assert BOwed(s) == pass;
      assert Owed(s.files, s.index, 1) == s.files[s.index..];
    } else {
      var t := s.(index := 0, loopCount := s.loopCount - 1);
      BPassSplit(read, s, nanos);
      BRunShown(read, t, nanos);
      BShownStep(read, s, nanos);
    }
  }

  /** The step of `BRunShown`: one pass of B, then the frames owed from the next pass on. */
  lemma BShownStep(read: SegmentReader, s: IdleState, nanos: nat)
    requires Playable(s) && s.active && s.phase == B && s.loopCount > 1
    requires var t := s.(index := 0, loopCount := s.loopCount - 1);
             Playable(t) && Emitted(read, t, BOwed(t), nanos) == Shown(Owed(s.files, 0, s.loopCount - 1))
    ensures Emitted(read, s, BOwed(s), nanos) == Shown(Owed(s.files, s.index, s.loopCount))
  {
    var pass := |s.files| - s.index;
    var t := s.(index := 0, loopCount := s.loopCount - 1);
    BPassSplit(read, s, nanos);
    RunAppend(read, s, pass, BOwed(t), nanos);
    OwedPass(s.files, s.index, s.loopCount);
    ShownAppend(s.files[s.index..], Owed(s.files, 0, t.loopCount));
  }

  lemma {:induction false} BRunEnd(read: SegmentReader, s: IdleState, nanos: nat)
    requires Playable(s) && s.active && s.phase == B
    ensures Run(read, s, BOwed(s), nanos) == PassEnd(read, s.(index := |s.files|, loopCount := 1), nanos)
    decreases s.loopCount
  {
    var pass := |s.files| - s.index;
    if s.loopCount == 1 {
      PassRun(read, s, nanos);
      assert BOwed(s) == pass;
    } else {
      var t := s.(index := 0, loopCount := s.loopCount - 1);
      BPassSplit(read, s, nanos);
      BRunEnd(read, t, nanos);
      RunAppend(read, s, pass, BOwed(t), nanos);
      assert t.(index := |s.files|, loopCount := 1) == s.(index := |s.files|, loopCount := 1);
    }
  }

  /**
   * A whole A, B, C sequence of one mode directory with frames in all three
   * segments: A once, B the drawn number of times, C once, and then the
   * player stops.
   */
  lemma WholeAbcRun(read: SegmentReader, modeDir: Path, loopCount: U8, nanos: nat)
    requires read(modeDir, A) != [] && read(modeDir, B) != [] && read(modeDir, C) != []
    requires ReadsBelow(read, modeDir)
    ensures var a, b, c := read(modeDir, A), read(modeDir, B), read(modeDir, C);
            var n := DrawLoopCount(nanos);
            var s := Apply(FRESH, StartAbc(read, modeDir, loopCount, nanos));
            Emitted(read, s, |a| + n * |b| + |c|, nanos) == Shown(a + Repeat(b, n) + c)
            && !Run(read, s, |a| + n * |b| + |c|, nanos).active
  {
    var a, b, c := read(modeDir, A), read(modeDir, B), read(modeDir, C);
    var n := DrawLoopCount(nanos);
    var s := IdleState(true, A, a, 0, loopCount);
    assert Apply(FRESH, StartAbc(read, modeDir, loopCount, nanos)) == s;
    PassRun(read, s, nanos);
    assert a[0..] == a;
    var sb := IdleState(true, B, b, 0, n);
    assert Run(read, s, |a|, nanos) == sb;
    BRun(read, sb, nanos);
    PassesOwed(n, |b|);
    assert BOwed(sb) == n * |b|;
    assert Owed(b, 0, n) == Repeat(b, n) by {
      assert b[0..] == b;
      assert Repeat(b, n) == b + Repeat(b, n - 1);
    }
    var sc := IdleState(true, C, c, 0, 1);
    assert Run(read, sb, n * |b|, nanos) == sc;
    PassRun(read, sc, nanos);
    assert c[0..] == c;
    RunAppend(read, s, |a|, n * |b|, nanos);
    RunAppend(read, s, |a| + n * |b|, |c|, nanos);
    ShownAppend(a, Repeat(b, n));
    ShownAppend(a + Repeat(b, n), c);
  }

  // ---------------------------------------------------------------------
  // The player
  // ---------------------------------------------------------------------

  class IdlePlayer {
    const idleRoot: Path
    var currentMode: Mode
    var active: bool
    var phase: Segment
    var files: seq<Path>
    var index: nat
    var loopCount: U8

    function Snapshot(): IdleState
      reads this`active, this`phase, this`files, this`index, this`loopCount
    {
      IdleState(active, phase, files, index, loopCount)
    }

    ghost predicate Valid()
      reads this`active, this`phase, this`files, this`index, this`loopCount
    {
      Playable(Snapshot())
    }

    /** `is_active` */
    function IsActive(): bool
      reads this`active
    {
      active
    }

    /** `new`: inactive, Single, no frames, cursor and pass count at 0. */
    constructor (idleRoot: Path, mode: Mode)
      ensures Valid()
      ensures this.idleRoot == idleRoot && currentMode == mode
      ensures Snapshot() == FRESH
    {
      this.idleRoot := idleRoot;
      currentMode := mode;
      active := false;
      phase := Single;
      files := [];
      index := 0;
      loopCount := 0;
    }

    /** `start`: stops the startup player first, then installs what `StartOutcome` picks. */
    method Start(fs: Dir, startup: StartupPlayer) returns (ghost variantNanos: nat, ghost loopNanos: nat)
      requires Valid()
      modifies this`active, this`phase, this`files, this`index, this`loopCount, startup
      ensures Valid()
      ensures startup.Valid() && !startup.active && startup.files == [] && startup.index == 0
      ensures Snapshot() == Apply(old(Snapshot()), StartOutcome(fs, idleRoot, currentMode, old(loopCount), variantNanos, loopNanos))
    {
      startup.Stop();
      variantNanos, loopNanos := 0, 0;
      var variants := CollectDirPaths(fs, idleRoot);
      if variants == [] {
        return;
      }
      var clock := ReadClock();
      variantNanos := clock;
      var variant := variants[PseudoRandomIndex(|variants|, clock)];
      var modeDir := IdleModeDir(fs, variant, currentMode);
      if modeDir.None? {
        return;
      }
      loopNanos := StartFromDir(fs, modeDir.value);
    }

    /** The part of `start` that plays from the mode directory it found. */
    method StartFromDir(fs: Dir, modeDir: Path) returns (ghost loopNanos: nat)
      modifies this`active, this`phase, this`files, this`index, this`loopCount
      ensures Snapshot() == Apply(old(Snapshot()), StartFrom(fs, modeDir, old(loopCount), loopNanos))
    {
      loopNanos := 0;
      if HasAbc(fs, modeDir) {
        loopNanos := StartAbcFrom(ReadSegments(fs), modeDir);
      } else {
        var found := CollectPngFiles(fs, modeDir).UnwrapOr([]);
        if found != [] {
          files, index, phase, active := found, 0, Single, true;
        }
      }
    }

    /** `start_abc` */
    method StartAbcFrom(read: SegmentReader, modeDir: Path) returns (ghost nanos: nat)
      modifies this`active, this`phase, this`files, this`index, this`loopCount
      ensures Snapshot() == Apply(old(Snapshot()), StartAbc(read, modeDir, old(loopCount), nanos))
    {
      var found := read(modeDir, A);
      if found != [] {
        files, index, phase, active := found, 0, A, true;
        nanos := 0;
        return;
      }
      nanos := TransitionToB(read, modeDir);
    }

    /** `transition_to_b` */
    method TransitionToB(read: SegmentReader, modeDir: Path) returns (ghost nanos: nat)
      modifies this`active, this`phase, this`files, this`index, this`loopCount
      ensures Snapshot() == Apply(old(Snapshot()), ToB(read, modeDir, old(loopCount), nanos))
    {
      var found := read(modeDir, B);
      nanos := 0;
      if found != [] {
        files, index, phase, active := found, 0, B, true;
        var clock := ReadClock();
        nanos := clock;
        loopCount := DrawLoopCount(clock);
        return;
      }
      TransitionToC(read, modeDir);
    }

    /** `transition_to_c` */
    method TransitionToC(read: SegmentReader, modeDir: Path)
      modifies this`active, this`phase, this`files, this`index
      ensures Snapshot() == Apply(old(Snapshot()), ToC(read, modeDir, loopCount))
    {
      var found := read(modeDir, C);
      if found != [] {
        files, index, phase, active := found, 0, C, true;
        return;
      }
      active := false;
    }

    /**
     * `next_frame`, as `Step` says, with `read` the directory reads of the
     * file tree (`ReadSegments`); `nanos` is the clock reading a move to B
     * draws its pass count from.
     */
    method NextFrame(read: SegmentReader) returns (frame: Option<Path>, ghost nanos: nat)
      requires Valid()
      modifies this`active, this`phase, this`files, this`index, this`loopCount
      ensures Valid()
      ensures (Snapshot(), frame) == Step(read, old(Snapshot()), nanos)
    {
      nanos := 0;
      if !active || files == [] {
        return None, nanos;
      }
      frame := Some(files[index]);
      index := index + 1;
      if index >= |files| {
        match phase {
          case A =>
            var modeDir := CurrentModeDir(files, phase);
            if modeDir.Some? {
              nanos := TransitionToB(read, modeDir.value);
            } else {
              active := false;
            }
          case B =>
            if loopCount > 1 {
              loopCount := loopCount - 1;
              index := 0;
            } else {
              var modeDir := CurrentModeDir(files, phase);
              if modeDir.Some? {
                TransitionToC(read, modeDir.value);
              } else {
                active := false;
              }
            }
          case C =>
            active := false;
          case Single =>
            active := false;
        }
      }
    }

    /** `interrupt`, as `InterruptStep` says. */
    method Interrupt(read: SegmentReader, skipToEnd: bool)
      requires Valid()
      modifies this`active, this`phase, this`files, this`index
      ensures Valid()
      ensures Snapshot() == InterruptStep(read, old(Snapshot()), skipToEnd)
    {
      if !active {
        return;
      }
      if skipToEnd && phase == B {
        var modeDir := CurrentModeDir(files, phase);
        if modeDir.Some? {
          TransitionToC(read, modeDir.value);
          if !active {
            active := false;
          }
        } else {
          active := false;
        }
      } else if phase == C {
      } else {
        active := false;
      }
    }

    /** `reload`: only the mode changes; what is playing plays on. */
    method Reload(mode: Mode)
      modifies this`currentMode
      ensures currentMode == mode
    {
      currentMode := mode;
    }
  }
}
