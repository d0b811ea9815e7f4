/**
 * `DefaultIdlePlayer` of src/animation/player/default_idle.rs: the player of
 * last resort, always active. It cycles through one default idle variant of
 * the current mode and, once a cooldown of ticks has run out, plays an idle
 * sequence of three segments: A once, B a drawn number of times, C once;
 * then it raises a one-shot "finished" flag and draws a new cooldown.
 */
module DefaultIdle {
  import opened Common
  import opened FileTree
  import opened Assets

  /** `IdlePhase`: where in the idle sequence the player is. */
  datatype IdlePhase = IdleDefault | IdleA(aIndex: nat) | IdleB(bIndex: nat, remaining: U8) | IdleC(cIndex: nat)

  /**
   * What `choose_idle_abc_sequence` returns when it finds a sequence. That
   * function is not part of this model: its answer is a parameter of
   * `next_frame`.
   */
  datatype AbcSequence = AbcSequence(aFiles: seq<Path>, bFiles: seq<Path>, cFiles: seq<Path>)

  /** Why `new` fails: a configured Happy idle directory is unreadable, or none has frames. */
  datatype IdleInitError = HappyIdleUnreadable(cause: FsError) | NoHappyIdleFrames

  const IDLE_B_REPEATS_MIN: U8 := 2
  const IDLE_B_REPEATS_SPAN: nat := 3

  /** The cooldown draw of `new` and `choose_idle_abc_cooldown`: a tick count in `[min, max(max, min)]`. */
  function ChooseIdleAbcCooldown(minTicks: U32, maxTicks: U32, nanos: nat): (r: U32)
    ensures minTicks <= r <= Max(maxTicks, minTicks)
  {
    minTicks + PseudoRandomIndex(Max(maxTicks, minTicks) - minTicks + 1, nanos)
  }

  /** Every tick count of the range is drawn at some clock reading. */
  lemma CooldownCoversRange(minTicks: U32, maxTicks: U32, ticks: U32)
    requires minTicks <= ticks <= Max(maxTicks, minTicks)
    ensures exists nanos :: ChooseIdleAbcCooldown(minTicks, maxTicks, nanos) == ticks
  {
    var nanos := ticks - minTicks;
    PseudoRandomIndexReachesAll(Max(maxTicks, minTicks) - minTicks + 1, nanos);
    assert ChooseIdleAbcCooldown(minTicks, maxTicks, nanos) == ticks;
  }

  /** The number of B passes, `2 + pseudo_random_index(3)`. */
  function ChooseBRepeats(nanos: nat): (r: U8)
    ensures IDLE_B_REPEATS_MIN <= r < IDLE_B_REPEATS_MIN + IDLE_B_REPEATS_SPAN
  {
    IDLE_B_REPEATS_MIN + PseudoRandomIndex(IDLE_B_REPEATS_SPAN, nanos)
  }

  lemma BRepeatsCoversRange(repeats: U8)
    requires IDLE_B_REPEATS_MIN <= repeats < IDLE_B_REPEATS_MIN + IDLE_B_REPEATS_SPAN
    ensures exists nanos :: ChooseBRepeats(nanos) == repeats
  {
    var nanos := repeats - IDLE_B_REPEATS_MIN;
    PseudoRandomIndexReachesAll(IDLE_B_REPEATS_SPAN, nanos);
    assert ChooseBRepeats(nanos) == repeats;
  }

  /** B frames still to come after the one at `index`, with `remaining` passes counting the current one. */
  function BFramesLeft(frames: nat, index: nat, remaining: nat): nat
    requires index < frames && remaining >= 1
  {
    (remaining - 1) * frames + (frames - index - 1)
  }

  lemma BFramesLeftWrap(frames: nat, remaining: nat)
    requires frames > 0 && remaining > 1
    ensures BFramesLeft(frames, 0, remaining - 1) == BFramesLeft(frames, frames - 1, remaining) - 1
  {
    assert (remaining - 1) * frames == (remaining - 2) * frames + frames;
  }

  /** At the first frame of a fresh B segment, the segment still owes all its passes but that frame. */
  lemma BFramesLeftFresh(frames: nat, remaining: nat)
    requires frames > 0 && remaining >= 1
    ensures BFramesLeft(frames, 0, remaining) == remaining * frames - 1
  {
    assert (remaining - 1) * frames + frames == remaining * frames;
  }

  predicate AllFramesNonEmpty(variants: seq<seq<Path>>)
  {
    forall x :: x in variants ==> x != []
  }

  /** The phase's cursor stays inside its segment, and a B phase has a pass to play. */
  predicate PhaseInBounds(phase: IdlePhase, aFiles: seq<Path>, bFiles: seq<Path>, cFiles: seq<Path>)
  {
    match phase
    case IdleDefault => true
    case IdleA(i) => CursorIn(aFiles, i)
    case IdleB(i, remaining) => CursorIn(bFiles, i) && remaining >= 1
    case IdleC(i) => CursorIn(cFiles, i)
  }

  /** The four variant lists `new` and `reload` collect (Happy's already unwrapped). */
  ghost predicate IdleVariantsFor(fs: Dir, config: AnimationPathConfig, happy: seq<seq<Path>>, nomal: seq<seq<Path>>,
                                  poorCondition: seq<seq<Path>>, ill: seq<seq<Path>>)
  {
    happy == HappyIdleVariants(fs, config.assetsBodyRoot, config.defaultHappyIdleVariants).UnwrapOr([])
    && nomal == CollectDefaultModeIdleVariants(fs, config, Nomal)
    && poorCondition == CollectDefaultModeIdleVariants(fs, config, PoorCondition)
    && ill == CollectDefaultModeIdleVariants(fs, config, Ill)
  }

  /** The lists of the three other modes; every variant of them has frames. */
  method LoadModeIdleVariants(fs: Dir, config: AnimationPathConfig)
    returns (nomal: seq<seq<Path>>, poorCondition: seq<seq<Path>>, ill: seq<seq<Path>>)
    ensures nomal == CollectDefaultModeIdleVariants(fs, config, Nomal)
    ensures poorCondition == CollectDefaultModeIdleVariants(fs, config, PoorCondition)
    ensures ill == CollectDefaultModeIdleVariants(fs, config, Ill)
    ensures AllFramesNonEmpty(nomal) && AllFramesNonEmpty(poorCondition) && AllFramesNonEmpty(ill)
  {
    nomal := CollectDefaultModeIdleVariants(fs, config, Nomal);
    poorCondition := CollectDefaultModeIdleVariants(fs, config, PoorCondition);
    ill := CollectDefaultModeIdleVariants(fs, config, Ill);
  }

  /** Every variant `collect_default_happy_idle_variants` finds has frames. */
  lemma HappyIdleFramesNonEmpty(fs: Dir, config: AnimationPathConfig)
    ensures AllFramesNonEmpty(HappyIdleVariants(fs, config.assetsBodyRoot, config.defaultHappyIdleVariants).UnwrapOr([]))
  {
    assert CollectDefaultModeIdleVariants(fs, config, Happy)
           == HappyIdleVariants(fs, config.assetsBodyRoot, config.defaultHappyIdleVariants).UnwrapOr([]);
  }

  /**
   * `DefaultIdlePlayer::new`: fails when the configured Happy idle list
   * cannot be read or has no frames; otherwise the player starts in the
   * default phase with a non-empty default variant.
   */
  method NewDefaultIdlePlayer(fs: Dir, config: AnimationPathConfig, mode: Mode)
    returns (r: Result<DefaultIdlePlayer, IdleInitError>)
    ensures HappyIdleVariants(fs, config.assetsBodyRoot, config.defaultHappyIdleVariants).Err? ==>
      r == Err(HappyIdleUnreadable(HappyIdleVariants(fs, config.assetsBodyRoot, config.defaultHappyIdleVariants).error))
    ensures HappyIdleVariants(fs, config.assetsBodyRoot, config.defaultHappyIdleVariants) == Ok([]) ==>
      r == Err(NoHappyIdleFrames)
    ensures r.Ok? <==> HappyIdleVariants(fs, config.assetsBodyRoot, config.defaultHappyIdleVariants).Ok?
                       && HappyIdleVariants(fs, config.assetsBodyRoot, config.defaultHappyIdleVariants).value != []
    ensures r.Ok? ==>
      fresh(r.value) && r.value.Valid() && r.value.config == config && r.value.currentMode == mode
      && IdleVariantsFor(fs, config, r.value.happyVariants, r.value.nomalVariants,
                         r.value.poorConditionVariants, r.value.illVariants)
      && r.value.defaultFiles != [] && r.value.phase == IdleDefault
  {
    var happy := CollectDefaultHappyIdleVariants(fs, config);
    if happy.Err? {
      return Err(HappyIdleUnreadable(happy.error));
    }
    if happy.value == [] {
      return Err(NoHappyIdleFrames);
    }
    HappyIdleFramesNonEmpty(fs, config);
    var nomal, poorCondition, ill := LoadModeIdleVariants(fs, config);
    var player := new DefaultIdlePlayer(config, mode, happy.value, nomal, poorCondition, ill);
    return Ok(player);
  }

  class DefaultIdlePlayer {
    const config: AnimationPathConfig
    var currentMode: Mode
    const idleRoot: Path
    var happyVariants: seq<seq<Path>>
    var nomalVariants: seq<seq<Path>>
    var poorConditionVariants: seq<seq<Path>>
    var illVariants: seq<seq<Path>>
    var defaultFiles: seq<Path>
    var defaultIndex: nat
    var phase: IdlePhase
    var tick: U32
    var aFiles: seq<Path>
    var bFiles: seq<Path>
    var cFiles: seq<Path>
    var idleAbcJustFinished: bool
    var idleAbcCooldownTicks: U32
    const idleAbcCooldownMinTicks: U32
    const idleAbcCooldownMaxTicks: U32

    ghost predicate Valid()
      reads this
    {
      CursorIn(defaultFiles, defaultIndex)
      && PhaseInBounds(phase, aFiles, bFiles, cFiles)
      && idleAbcCooldownMinTicks <= idleAbcCooldownMaxTicks
      && AllFramesNonEmpty(happyVariants) && AllFramesNonEmpty(nomalVariants)
      && AllFramesNonEmpty(poorConditionVariants) && AllFramesNonEmpty(illVariants)
    }

    /** `is_active`: the default idle player always has something to show. */
    function IsActive(): bool
    {
      true
    }

    /** `is_playing_idle_abc` */
    function IsPlayingIdleAbc(): bool
      reads this
    {
      !phase.IdleDefault?
    }

    /** A cooldown `choose_idle_abc_cooldown` can draw. */
    ghost predicate CooldownDrawn(ticks: U32)
    {
      exists nanos :: ticks == ChooseIdleAbcCooldown(idleAbcCooldownMinTicks, idleAbcCooldownMaxTicks, nanos)
    }

    /** A default variant `refresh_selection` can pick from the current lists. */
    ghost predicate SelectionDrawn(files: seq<Path>)
      reads this`currentMode, this`happyVariants, this`nomalVariants, this`poorConditionVariants, this`illVariants
    {
      exists nanos :: files == SelectDefaultFilesForMode(currentMode, happyVariants, nomalVariants,
                                                         poorConditionVariants, illVariants, nanos)
    }

    /** Some list the selection falls back through has a variant. */
    function HasDefaultVariant(): bool
      reads this`currentMode, this`happyVariants, this`nomalVariants, this`poorConditionVariants, this`illVariants
    {
      VariantsForMode(currentMode, happyVariants, nomalVariants, poorConditionVariants, illVariants) != []
      || nomalVariants != [] || happyVariants != []
    }

    /** The B frames still owed in a B phase. */
    function BLeft(): nat
      requires Valid() && phase.IdleB? && bFiles != []
      reads this
    {
      BFramesLeft(|bFiles|, phase.bIndex, phase.remaining)
    }

    twostate predicate SameSegments()
      reads this
    {
      aFiles == old(aFiles) && bFiles == old(bFiles) && cFiles == old(cFiles)
    }

    twostate predicate SameLists()
      reads this
    {
      currentMode == old(currentMode) && happyVariants == old(happyVariants) && nomalVariants == old(nomalVariants)
      && poorConditionVariants == old(poorConditionVariants) && illVariants == old(illVariants)
      && defaultFiles == old(defaultFiles)
    }

    /** `next_default_frame`: the default variant, round and round; nothing when it has no frames. */
    twostate predicate SteppedDefault(new frame: Option<Path>)
      reads this
    {
      (old(defaultFiles) == [] ==> frame.None? && defaultIndex == old(defaultIndex))
      && (old(defaultFiles) != [] ==>
            defaultIndex == (old(defaultIndex) + 1) % |old(defaultFiles)|
            && frame == Some(old(defaultFiles)[defaultIndex]))
    }

    /** The first frame of `files`, else the next default frame. */
    twostate predicate FirstOrDefault(files: seq<Path>, new frame: Option<Path>)
      reads this
    {
      (files != [] ==> frame == Some(files[0]) && defaultIndex == old(defaultIndex))
      && (files == [] ==> SteppedDefault(frame))
    }

    /**
     * The end of an idle sequence: back to the default phase at the first
     * default frame, the finished flag raised, a new cooldown drawn.
     */
    twostate predicate FinishedAbc(new frame: Option<Path>)
      reads this
    {
      phase == IdleDefault && defaultIndex == 0 && idleAbcJustFinished && CooldownDrawn(idleAbcCooldownTicks)
      && frame == (if defaultFiles == [] then None else Some(defaultFiles[0]))
    }

    /**
     * The default phase: while the cooldown runs, count it down and show the
     * next default frame; once it is out, start the idle sequence offered,
     * beginning with its first A frame, or keep showing default frames.
     */
    twostate predicate DefaultStepped(abc: Option<AbcSequence>, new frame: Option<Path>)
      reads this
    {
      (old(idleAbcCooldownTicks) > 0 ==>
         idleAbcCooldownTicks == old(idleAbcCooldownTicks) - 1 && phase == IdleDefault
         && SameSegments() && SteppedDefault(frame))
      && (old(idleAbcCooldownTicks) == 0 && abc.Some? ==>
            idleAbcCooldownTicks == 0 && phase == IdleA(0)
            && aFiles == abc.value.aFiles && bFiles == abc.value.bFiles && cFiles == abc.value.cFiles
            && FirstOrDefault(aFiles, frame))
      && (old(idleAbcCooldownTicks) == 0 && abc.None? ==>
            idleAbcCooldownTicks == 0 && phase == IdleDefault && SameSegments() && SteppedDefault(frame))
    }

    /** Phase A: its frames once, in order; after the last, B starts (or C, when B has no frames). */
    twostate predicate AStepped(new frame: Option<Path>)
      reads this
      requires old(phase).IdleA?
    {
      idleAbcCooldownTicks == old(idleAbcCooldownTicks) && SameSegments()
      && (aFiles == [] ==> phase == IdleDefault && SteppedDefault(frame))
      && (aFiles != [] && old(phase).aIndex + 1 < |aFiles| ==>
            phase == IdleA(old(phase).aIndex + 1) && frame == Some(aFiles[phase.aIndex])
            && defaultIndex == old(defaultIndex))
      && (aFiles != [] && old(phase).aIndex + 1 >= |aFiles| ==>
            phase.IdleB? && phase.bIndex == 0
            && IDLE_B_REPEATS_MIN <= phase.remaining < IDLE_B_REPEATS_MIN + IDLE_B_REPEATS_SPAN
            && (bFiles != [] ==> frame == Some(bFiles[0]) && defaultIndex == old(defaultIndex))
            && (bFiles == [] ==> FirstOrDefault(cFiles, frame)))
    }

    /**
     * Phase B: its frames in order, pass after pass, one B frame fewer owed
     * per call; after the last pass (or at once without B frames), C starts.
     */
    twostate predicate BStepped(new frame: Option<Path>)
      reads this
      requires old(Valid()) && Valid() && old(phase).IdleB?
    {
      idleAbcCooldownTicks == old(idleAbcCooldownTicks) && SameSegments()
      && (phase.IdleB? || phase == IdleC(0))
      && (bFiles == [] ==> phase == IdleC(0) && FirstOrDefault(cFiles, frame))
      && (bFiles != [] && phase.IdleB? ==>
            frame == Some(bFiles[phase.bIndex]) && defaultIndex == old(defaultIndex)
            && BLeft() == old(BLeft()) - 1)
      && (bFiles != [] ==> (phase.IdleC? <==> old(BLeft()) == 0))
      && (bFiles != [] && phase.IdleC? ==> FirstOrDefault(cFiles, frame))
    }

    /** Phase C: its frames once, in order; after the last (or at once without C frames), the sequence ends. */
    twostate predicate CStepped(new frame: Option<Path>)
      reads this
      requires old(phase).IdleC?
    {
      SameSegments()
      && (cFiles != [] && old(phase).cIndex + 1 < |cFiles| ==>
            phase == IdleC(old(phase).cIndex + 1) && frame == Some(cFiles[phase.cIndex])
            && defaultIndex == old(defaultIndex) && idleAbcCooldownTicks == old(idleAbcCooldownTicks))
      && (cFiles == [] || old(phase).cIndex + 1 >= |cFiles| ==> FinishedAbc(frame))
    }

    /** The state-setting half of `new`, once the variant lists are collected. */
    constructor (config: AnimationPathConfig, mode: Mode, happy: seq<seq<Path>>, nomal: seq<seq<Path>>,
                 poorCondition: seq<seq<Path>>, ill: seq<seq<Path>>)
      requires AllFramesNonEmpty(happy) && AllFramesNonEmpty(nomal)
      requires AllFramesNonEmpty(poorCondition) && AllFramesNonEmpty(ill)
      ensures Valid()
      ensures this.config == config && currentMode == mode
      ensures happyVariants == happy && nomalVariants == nomal
      ensures poorConditionVariants == poorCondition && illVariants == ill
      ensures idleRoot == BodyAssetPath(config.assetsBodyRoot, ["IDEL"])
      ensures idleAbcCooldownMinTicks == config.idelAbcCooldownMinTicks
      ensures idleAbcCooldownMaxTicks == Max(config.idelAbcCooldownMaxTicks, config.idelAbcCooldownMinTicks)
      ensures SelectionDrawn(defaultFiles) && (defaultFiles != [] <==> HasDefaultVariant())
      ensures CooldownDrawn(idleAbcCooldownTicks)
      ensures defaultIndex == 0 && phase == IdleDefault && tick == 0 && !idleAbcJustFinished
      ensures aFiles == [] && bFiles == [] && cFiles == []
    {
      var selectNanos := ReadClock();
      var files := SelectDefaultFilesForMode(mode, happy, nomal, poorCondition, ill, selectNanos);
      var minTicks := config.idelAbcCooldownMinTicks;
      var maxTicks := Max(config.idelAbcCooldownMaxTicks, minTicks);
      var cooldownNanos := ReadClock();
      this.config := config;
      currentMode := mode;
      idleRoot := BodyAssetPath(config.assetsBodyRoot, ["IDEL"]);
      happyVariants, nomalVariants, poorConditionVariants, illVariants := happy, nomal, poorCondition, ill;
      defaultFiles := files;
      defaultIndex := 0;
      phase := IdleDefault;
      tick := 0;
      aFiles, bFiles, cFiles := [], [], [];
      idleAbcJustFinished := false;
      idleAbcCooldownMinTicks := minTicks;
      idleAbcCooldownMaxTicks := maxTicks;
      idleAbcCooldownTicks := ChooseIdleAbcCooldown(minTicks, maxTicks, cooldownNanos);
      new;
      SelectionNonEmpty(files, selectNanos);
    }

    /** A drawn default variant has frames exactly when some list it falls back through has a variant. */
    lemma SelectionNonEmpty(files: seq<Path>, nanos: nat)
      requires Valid()
      requires files == SelectDefaultFilesForMode(currentMode, happyVariants, nomalVariants,
                                                  poorConditionVariants, illVariants, nanos)
      ensures files != [] <==> HasDefaultVariant()
    {
      var own := VariantsForMode(currentMode, happyVariants, nomalVariants, poorConditionVariants, illVariants);
      assert AllFramesNonEmpty(own) by {
        match currentMode
        case Happy =>
        case Nomal =>
        case PoorCondition =>
        case Ill =>
      }
    }

    /** `choose_idle_abc_cooldown` */
    method ChooseCooldown() returns (ticks: U32)
      ensures CooldownDrawn(ticks)
    {
      var nanos := ReadClock();
      ticks := ChooseIdleAbcCooldown(idleAbcCooldownMinTicks, idleAbcCooldownMaxTicks, nanos);
    }

    /** `refresh_selection`: a default variant drawn anew for the current mode, from its first frame. */
    method RefreshSelection()
      requires Valid()
      modifies this
      ensures Valid() && SameSegments()
      ensures SelectionDrawn(defaultFiles) && (defaultFiles != [] <==> HasDefaultVariant()) && defaultIndex == 0
      ensures currentMode == old(currentMode) && happyVariants == old(happyVariants)
      ensures nomalVariants == old(nomalVariants) && poorConditionVariants == old(poorConditionVariants)
      ensures illVariants == old(illVariants)
      ensures phase == old(phase) && tick == old(tick) && idleAbcJustFinished == old(idleAbcJustFinished)
      ensures idleAbcCooldownTicks == old(idleAbcCooldownTicks)
    {
      var nanos := ReadClock();
      defaultFiles := SelectDefaultFilesForMode(currentMode, happyVariants, nomalVariants,
                                                poorConditionVariants, illVariants, nanos);
      defaultIndex := 0;
      SelectionNonEmpty(defaultFiles, nanos);
    }

    /**
     * `enter`: a fresh default variant, the default phase, the tick counter
     * at 0, and the variant's first frame (nothing when no list has one).
     */
    method Enter() returns (frame: Option<Path>)
      requires Valid()
      modifies this
      ensures Valid() && SameSegments()
      ensures SelectionDrawn(defaultFiles) && defaultIndex == 0 && phase == IdleDefault && tick == 0
      ensures frame.Some? <==> HasDefaultVariant()
      ensures frame.Some? ==> frame.value == defaultFiles[0]
      ensures idleAbcJustFinished == old(idleAbcJustFinished) && idleAbcCooldownTicks == old(idleAbcCooldownTicks)
    {
      RefreshSelection();
      phase := IdleDefault;
      tick := 0;
      defaultIndex := 0;
      frame := if defaultFiles == [] then None else Some(defaultFiles[0]);
    }

    method NextDefaultFrame() returns (frame: Option<Path>)
      requires Valid()
      modifies this
      ensures Valid() && SameSegments() && SameLists() && SteppedDefault(frame)
      ensures phase == old(phase) && idleAbcCooldownTicks == old(idleAbcCooldownTicks)
      ensures tick == old(tick) && idleAbcJustFinished == old(idleAbcJustFinished)
    {
      if defaultFiles == [] {
        return None;
      }
      defaultIndex := (defaultIndex + 1) % |defaultFiles|;
      frame := Some(defaultFiles[defaultIndex]);
    }

    /** The first frame of `files` when it has one, else `next_default_frame`. */
    method FirstOrNextDefault(files: seq<Path>) returns (frame: Option<Path>)
      requires Valid()
      modifies this
      ensures Valid() && SameSegments() && SameLists() && FirstOrDefault(files, frame)
      ensures phase == old(phase) && idleAbcCooldownTicks == old(idleAbcCooldownTicks)
      ensures tick == old(tick) && idleAbcJustFinished == old(idleAbcJustFinished)
    {
      if files != [] {
        return Some(files[0]);
      }
      frame := NextDefaultFrame();
    }

    /** `take_idle_abc_finished`: reads the one-shot flag and lowers it. */
    method TakeIdleAbcFinished() returns (finished: bool)
      modifies this
      ensures finished == old(idleAbcJustFinished) && !idleAbcJustFinished
      ensures SameSegments() && SameLists() && phase == old(phase) && defaultIndex == old(defaultIndex)
      ensures tick == old(tick) && idleAbcCooldownTicks == old(idleAbcCooldownTicks)
    {
      finished := idleAbcJustFinished;
      idleAbcJustFinished := false;
    }

    /**
     * `next_frame`, given what `choose_idle_abc_sequence` would return now:
     * the tick counter wraps round at 2^32; the finished flag is raised by
     * exactly the call that ends an idle sequence; nothing comes out only
     * when the default variant has no frames.
     */
    method NextFrame(abc: Option<AbcSequence>) returns (frame: Option<Path>)
      requires Valid()
      modifies this
      ensures Valid() && SameLists()
      ensures tick == WrappingAddU32(old(tick), 1)
      ensures idleAbcJustFinished <==> old(phase).IdleC? && phase == IdleDefault
      ensures frame.None? ==> defaultFiles == []
      ensures old(phase) == IdleDefault ==> DefaultStepped(abc, frame)
      ensures old(phase).IdleA? ==> AStepped(frame)
      ensures old(phase).IdleB? ==> BStepped(frame)
      ensures old(phase).IdleC? ==> CStepped(frame)
    {
      tick := WrappingAddU32(tick, 1);
      idleAbcJustFinished := false;
      match phase
      case IdleDefault =>
        frame := DefaultStep(abc);
      case IdleA(_) =>
        frame := AStep();
      case IdleB(_, _) =>
        frame := BStep();
      case IdleC(_) =>
        frame := CStep();
    }

    method DefaultStep(abc: Option<AbcSequence>) returns (frame: Option<Path>)
      requires Valid() && phase == IdleDefault && !idleAbcJustFinished
      modifies this
      ensures Valid() && SameLists() && DefaultStepped(abc, frame)
      ensures tick == old(tick) && !idleAbcJustFinished
      ensures frame.None? ==> defaultFiles == []
    {
      if idleAbcCooldownTicks > 0 {
        idleAbcCooldownTicks := idleAbcCooldownTicks - 1;
        frame := NextDefaultFrame();
        return;
      }
      if abc.Some? {
        aFiles, bFiles, cFiles := abc.value.aFiles, abc.value.bFiles, abc.value.cFiles;
        phase := IdleA(0);
        frame := FirstOrNextDefault(aFiles);
        return;
      }
      frame := NextDefaultFrame();
    }

    method AStep() returns (frame: Option<Path>)
      requires Valid() && phase.IdleA? && !idleAbcJustFinished
      modifies this
      ensures Valid() && SameLists() && AStepped(frame)
      ensures tick == old(tick) && !idleAbcJustFinished
      ensures frame.None? ==> defaultFiles == []
    {
      if aFiles == [] {
        phase := IdleDefault;
        frame := NextDefaultFrame();
        return;
      }
      var next := phase.aIndex + 1;
      if next < |aFiles| {
        phase := IdleA(next);
        return Some(aFiles[next]);
      }
      var nanos := ReadClock();
      phase := IdleB(0, ChooseBRepeats(nanos));
      if bFiles != [] {
        return Some(bFiles[0]);
      }
      frame := FirstOrNextDefault(cFiles);
    }

    method BStep() returns (frame: Option<Path>)
      requires Valid() && phase.IdleB? && !idleAbcJustFinished
      modifies this
      ensures Valid() && SameLists() && BStepped(frame)
      ensures tick == old(tick) && !idleAbcJustFinished
      ensures frame.None? ==> defaultFiles == []
    {
      if bFiles == [] {
        phase := IdleC(0);
        frame := FirstOrNextDefault(cFiles);
        return;
      }
      var index, remaining := phase.bIndex, phase.remaining;
      var next := index + 1;
      if next < |bFiles| {
        phase := IdleB(next, remaining);
        return Some(bFiles[next]);
      }
      if remaining > 1 {
        BFramesLeftWrap(|bFiles|, remaining);
        phase := IdleB(0, remaining - 1);
        return Some(bFiles[0]);
      }
      phase := IdleC(0);
      frame := FirstOrNextDefault(cFiles);
    }

    method CStep() returns (frame: Option<Path>)
      requires Valid() && phase.IdleC? && !idleAbcJustFinished
      modifies this
      ensures Valid() && SameLists() && CStepped(frame)
      ensures tick == old(tick)
      ensures idleAbcJustFinished <==> phase == IdleDefault
      ensures frame.None? ==> defaultFiles == []
    {
      var next := phase.cIndex + 1;
      if cFiles != [] && next < |cFiles| {
        phase := IdleC(next);
        return Some(cFiles[next]);
      }
      phase := IdleDefault;
      defaultIndex := 0;
      idleAbcJustFinished := true;
      idleAbcCooldownTicks := ChooseCooldown();
      frame := if defaultFiles == [] then None else Some(defaultFiles[0]);
    }

    /**
     * `interrupt`: back to the default phase with the tick counter at 0,
     * the flag lowered and a new cooldown; the default cursor and the
     * segments stay.
     */
    method Interrupt(skipToEnd: bool)
      requires Valid()
      modifies this
      ensures Valid() && SameSegments() && SameLists()
      ensures phase == IdleDefault && tick == 0 && !idleAbcJustFinished
      ensures CooldownDrawn(idleAbcCooldownTicks) && defaultIndex == old(defaultIndex)
    {
      phase := IdleDefault;
      tick := 0;
      idleAbcJustFinished := false;
      idleAbcCooldownTicks := ChooseCooldown();
    }

    /**
     * `reload`: the lists re-collected for the configuration (an unreadable
     * Happy list counts as empty), the segments dropped, the default phase
     * with a new cooldown, and a default variant drawn for `mode`.
     */
    method Reload(fs: Dir, mode: Mode)
      requires Valid()
      modifies this
      ensures Valid()
      ensures currentMode == mode
      ensures IdleVariantsFor(fs, config, happyVariants, nomalVariants, poorConditionVariants, illVariants)
      ensures aFiles == [] && bFiles == [] && cFiles == []
      ensures phase == IdleDefault && tick == 0 && !idleAbcJustFinished
      ensures CooldownDrawn(idleAbcCooldownTicks)
      ensures SelectionDrawn(defaultFiles) && (defaultFiles != [] <==> HasDefaultVariant()) && defaultIndex == 0
    {
      var happy := CollectDefaultHappyIdleVariants(fs, config);
      HappyIdleFramesNonEmpty(fs, config);
      var nomal, poorCondition, ill := LoadModeIdleVariants(fs, config);
      ReplaceLists(mode, happy.UnwrapOr([]), nomal, poorCondition, ill);
      var cooldown := ChooseCooldown();
      idleAbcCooldownTicks := cooldown;
      RefreshSelection();
    }

    /** The lists of `reload` once collected; segments dropped, default phase, counters at 0. */
    method ReplaceLists(mode: Mode, happy: seq<seq<Path>>, nomal: seq<seq<Path>>,
                        poorCondition: seq<seq<Path>>, ill: seq<seq<Path>>)
      requires Valid()
      requires AllFramesNonEmpty(happy) && AllFramesNonEmpty(nomal)
      requires AllFramesNonEmpty(poorCondition) && AllFramesNonEmpty(ill)
      modifies this
      ensures Valid()
      ensures currentMode == mode && happyVariants == happy && nomalVariants == nomal
      ensures poorConditionVariants == poorCondition && illVariants == ill
      ensures aFiles == [] && bFiles == [] && cFiles == []
      ensures phase == IdleDefault && tick == 0 && !idleAbcJustFinished
    {
      happyVariants, nomalVariants, poorConditionVariants, illVariants := happy, nomal, poorCondition, ill;
      currentMode, phase, tick, idleAbcJustFinished, aFiles, bFiles, cFiles := mode, IdleDefault, 0, false, [], [], [];
    }
  }
}
