/**
 * The frame-source resolver of src/animation/assets/mod.rs: mode-keyword
 * matching, the exact -> Nomal -> Happy fallback tiers, stage-branch
 * filtering, and the touch variants with their cross-stage shared keys.
 *
 * Every draw of `pseudo_random_index` is an explicit `seed` (the clock
 * reading in nanoseconds) in the pure resolvers; methods read it from
 * `ReadClock`, which may return any value.
 */
module Assets {
  import opened Common
  import opened FileTree

  /** The part of the program's animation configuration the engine reads. */
  datatype AnimationPathConfig = AnimationPathConfig(
    assetsBodyRoot: Path,
    defaultHappyIdleVariants: seq<Path>,
    defaultNomalIdleRoot: Path,
    defaultPoorConditionIdleRoot: Path,
    defaultIllIdleRoot: Path,
    idelAbcCooldownMinTicks: U32,
    idelAbcCooldownMaxTicks: U32,
    stateCooldownMinTicks: U32,
    stateCooldownMaxTicks: U32,
    stateBLoopMin: U32,
    stateBLoopMax: U32,
    stateBFrameHoldTicks: U32)

  /** A touch variant: the key named by the component after its stage directory, and its frames. */
  datatype TouchVariant = TouchVariant(key: Option<Name>, files: seq<Path>)

  datatype TouchStageVariants = TouchStageVariants(
    stageA: seq<TouchVariant>,
    stageB: seq<TouchVariant>,
    stageC: seq<TouchVariant>)

  datatype Segment = A | B | C | Single

  function StagePrefix(segment: Segment): Option<string>
  {
    match segment
    case A => Some("A")
    case B => Some("B")
    case C => Some("C")
    case Single => None
  }

  /** `body_asset_path`: `root.join(relative)`. */
  function BodyAssetPath(root: Path, relative: Path): Path
  {
    root + relative
  }

  // ---------------------------------------------------------------------
  // pseudo_random_index
  // ---------------------------------------------------------------------

  /** `pseudo_random_index(len)` for the clock reading `nanos` (nanoseconds, truncated to `usize`). */
  function PseudoRandomIndex(len: nat, nanos: nat): (r: nat)
    ensures len == 0 ==> r == 0
    ensures len > 0 ==> r < len
  {
    if len == 0 then 0 else (nanos % USIZE_LIMIT) % len
  }

  /** Every index of a `usize`-sized collection is drawn at some clock reading. */
  lemma PseudoRandomIndexReachesAll(len: nat, i: nat)
    requires i < len <= USIZE_LIMIT
    ensures PseudoRandomIndex(len, i) == i
  {
  }

  /** The wall clock, in nanoseconds since the epoch truncated to `usize`: any value. */
  method ReadClock() returns (nanos: nat)
    ensures nanos < USIZE_LIMIT
  {
    nanos :| nanos < USIZE_LIMIT;
  }

  // ---------------------------------------------------------------------
  // Mode keywords
  // ---------------------------------------------------------------------

  function ModeKeyword(mode: Mode): string
  {
    match mode
    case Happy => "happy"
    case Nomal => "nomal"
    case PoorCondition => "poorcondition"
    case Ill => "ill"
  }

  /** `dir_name_matches_mode`: the lower-cased name contains the mode's keyword. */
  predicate DirNameMatchesMode(dirName: Name, mode: Mode)
  {
    Contains(ToAsciiLower(dirName), ModeKeyword(mode))
  }

  /** The match is a substring test that ignores ASCII case. */
  lemma DirNameMatchesModeIff(dirName: Name, other: Name, mode: Mode)
    ensures DirNameMatchesMode(dirName, mode) <==>
      exists k :: OccursAt(ToAsciiLower(dirName), ModeKeyword(mode), k)
    ensures EqIgnoreAsciiCase(dirName, other) ==>
      (DirNameMatchesMode(dirName, mode) <==> DirNameMatchesMode(other, mode))
  {
    ContainsIff(ToAsciiLower(dirName), ModeKeyword(mode));
  }

  /** The keyword is `nomal`: a directory spelled "Normal" is not a Nomal directory. */
  lemma NormalIsNotNomal()
    ensures !DirNameMatchesMode("Normal", Nomal)
    ensures DirNameMatchesMode("Nomal_1", Nomal)
  {
    var lower := ToAsciiLower("Normal");
    assert lower == "normal";
    assert lower[1..] == "ormal" && lower[1..][1..] == "rmal";
    ShortNeverContains("rmal", "nomal");
    assert !StartsWith("normal", "nomal") by {
      assert "normal"[..5] == "norma";
    }
    assert !StartsWith("ormal", "nomal") by {
      assert "ormal"[..5] == "ormal";
    }
    assert ToAsciiLower("Nomal_1") == "nomal_1";
    assert StartsWith("nomal_1", "nomal");
  }

  lemma {:induction false} ShortNeverContains(s: string, t: string)
    requires |s| < |t|
    ensures !Contains(s, t)
    decreases |s|
  {
    if s != [] {
      ShortNeverContains(s[1..], t);
    }
  }

  /** The last component of `path` names a directory of `mode`. */
  predicate LastNameMatchesMode(path: Path, mode: Mode)
  {
    FileName(path).Some? && DirNameMatchesMode(FileName(path).value, mode)
  }

  function LastNameMatcher(mode: Mode): Path -> bool
  {
    p => LastNameMatchesMode(p, mode)
  }

  /** Some path of `dirs` has a last component of `mode`. */
  predicate AnyLastNameMatches(dirs: seq<Path>, mode: Mode)
  {
    exists p :: p in dirs && LastNameMatchesMode(p, mode)
  }

  // ---------------------------------------------------------------------
  // Path predicates
  // ---------------------------------------------------------------------

  /** `path_matches_mode`: some component of the path matches the mode. */
  predicate PathMatchesMode(path: Path, mode: Mode)
  {
    exists i :: 0 <= i < |path| && DirNameMatchesMode(path[i], mode)
  }

  function PathModeMatcher(mode: Mode): Path -> bool
  {
    p => PathMatchesMode(p, mode)
  }

  /** `path_contains_keyword`: some component contains the keyword, ignoring ASCII case. */
  predicate PathContainsKeyword(path: Path, keyword: string)
  {
    exists i :: 0 <= i < |path| && Contains(ToAsciiLower(path[i]), ToAsciiLower(keyword))
  }

  /** `path.strip_prefix(root).is_ok()` */
  predicate IsUnder(path: Path, root: Path)
  {
    |root| <= |path| && path[..|root|] == root
  }

  /** A component starts with the stage prefix, ignoring ASCII case. */
  predicate IsStageComponent(name: Name, stagePrefix: string)
  {
    StartsWith(ToAsciiLower(name), ToAsciiLower(stagePrefix))
  }

  /** `path_in_stage_branch`: under `root`, with a stage-prefixed component below `root`. */
  predicate PathInStageBranch(path: Path, root: Path, stagePrefix: string)
  {
    IsUnder(path, root) && exists i :: |root| <= i < |path| && IsStageComponent(path[i], stagePrefix)
  }

  function StageBranchMatcher(root: Path, stagePrefix: string): Path -> bool
  {
    p => PathInStageBranch(p, root, stagePrefix)
  }

  /** The position of the first stage-prefixed component of `components`. */
  function FirstStageIndex(components: seq<Name>, stagePrefix: string): (r: Option<nat>)
    ensures r.None? <==> forall j :: 0 <= j < |components| ==> !IsStageComponent(components[j], stagePrefix)
    ensures r.Some? ==> r.value < |components| && IsStageComponent(components[r.value], stagePrefix)
                        && forall j :: 0 <= j < r.value ==> !IsStageComponent(components[j], stagePrefix)
  {
    if components == [] then None
    else if IsStageComponent(components[0], stagePrefix) then Some(0)
    else
      var r := FirstStageIndex(components[1..], stagePrefix);
      if r.None? then None else Some(r.value + 1)
  }

  /**
   * `touch_variant_key`: the lower-cased component right after the first
   * stage-prefixed component of the path relative to `root`.
   */
  function TouchVariantKey(path: Path, root: Path, stagePrefix: string): (r: Option<Name>)
    ensures r.Some? <==>
      IsUnder(path, root)
      && exists i :: |root| <= i < |path| - 1 && IsStageComponent(path[i], stagePrefix)
                     && forall j :: |root| <= j < i ==> !IsStageComponent(path[j], stagePrefix)
    ensures r.Some? ==>
      exists i :: |root| <= i < |path| - 1 && IsStageComponent(path[i], stagePrefix)
                  && (forall j :: |root| <= j < i ==> !IsStageComponent(path[j], stagePrefix))
                  && r.value == ToAsciiLower(path[i + 1])
  {
    if !IsUnder(path, root) then None
    else
      var relative := path[|root|..];
      var stageIndex := FirstStageIndex(relative, stagePrefix);
      assert forall j :: |root| <= j < |path| ==> path[j] == relative[j - |root|];
      if stageIndex.None? then None
      else if stageIndex.value + 1 < |relative| then
        var i := |root| + stageIndex.value;
        assert path[i + 1] == relative[stageIndex.value + 1];
        Some(ToAsciiLower(relative[stageIndex.value + 1]))
      else
        None
  }

  // ---------------------------------------------------------------------
  // Directory collectors
  // ---------------------------------------------------------------------

  /** The png lists of `dirs`, skipping directories that cannot be read or hold no png (`filter_map`). */
  function NonEmptyPngLists(fs: Dir, dirs: seq<Path>): (r: seq<seq<Path>>)
    ensures |r| <= |dirs|
    ensures forall x :: x in r <==> x != [] && exists d :: d in dirs && CollectPngFiles(fs, d) == Ok(x)
  {
    if dirs == [] then []
    else
      var files := CollectPngFiles(fs, dirs[0]);
      var tail := NonEmptyPngLists(fs, dirs[1..]);
      assert dirs == [dirs[0]] + dirs[1..];
      if files.Ok? && files.value != [] then [files.value] + tail else tail
  }

  /** `collect_mode_variant_dirs`: png directories whose name matches the mode, else Nomal ones, else Happy ones. */
  function CollectModeVariantDirs(fs: Dir, root: Path, mode: Mode): (r: seq<Path>)
    ensures IsSublist(r, PngVariantDirs(fs, root))
    ensures AnyLastNameMatches(PngVariantDirs(fs, root), mode) ==>
      forall p :: p in r <==> p in PngVariantDirs(fs, root) && LastNameMatchesMode(p, mode)
    ensures !AnyLastNameMatches(PngVariantDirs(fs, root), mode) && AnyLastNameMatches(PngVariantDirs(fs, root), Nomal) ==>
      forall p :: p in r <==> p in PngVariantDirs(fs, root) && LastNameMatchesMode(p, Nomal)
    ensures !AnyLastNameMatches(PngVariantDirs(fs, root), mode) && !AnyLastNameMatches(PngVariantDirs(fs, root), Nomal) ==>
      forall p :: p in r <==> p in PngVariantDirs(fs, root) && LastNameMatchesMode(p, Happy)
    ensures r == [] <==>
      !AnyLastNameMatches(PngVariantDirs(fs, root), mode)
      && !AnyLastNameMatches(PngVariantDirs(fs, root), Nomal)
      && !AnyLastNameMatches(PngVariantDirs(fs, root), Happy)
  {
    var variantDirs := PngVariantDirs(fs, root);
    FilterEmpty(variantDirs, LastNameMatcher(mode));
    FilterEmpty(variantDirs, LastNameMatcher(Nomal));
    FilterEmpty(variantDirs, LastNameMatcher(Happy));
    var exact := Filter(variantDirs, LastNameMatcher(mode));
    var selected := if exact == [] && mode != Nomal then Filter(variantDirs, LastNameMatcher(Nomal)) else exact;
    if selected == [] && mode != Happy then Filter(variantDirs, LastNameMatcher(Happy)) else selected
  }

  /** A tree whose png directories are all Happy ones (and none of another mode) serves them for every mode. */
  lemma OnlyHappyDirsServeEveryMode(fs: Dir, root: Path, mode: Mode)
    requires forall p :: p in PngVariantDirs(fs, root) ==> LastNameMatchesMode(p, Happy)
    requires forall p :: p in PngVariantDirs(fs, root) ==> !LastNameMatchesMode(p, Nomal)
    requires mode != Happy ==> forall p :: p in PngVariantDirs(fs, root) ==> !LastNameMatchesMode(p, mode)
    ensures CollectModeVariantDirs(fs, root, mode) == PngVariantDirs(fs, root)
  {
    var variantDirs := PngVariantDirs(fs, root);
    FilterAll(variantDirs, LastNameMatcher(Happy));
    if mode == Happy {
      assert forall p :: p in variantDirs ==> LastNameMatcher(mode)(p);
      FilterAll(variantDirs, LastNameMatcher(mode));
    } else {
      FilterEmpty(variantDirs, LastNameMatcher(mode));
      FilterEmpty(variantDirs, LastNameMatcher(Nomal));
    }
  }

  /** Directory names accepted as startup variants. */
  predicate StartupDirAccepted(dirName: Name, mode: Mode)
  {
    if mode == Happy then DirNameMatchesMode(dirName, Happy) || EqIgnoreAsciiCase(dirName, "26new")
    else DirNameMatchesMode(dirName, mode)
  }

  predicate StartupPathAccepted(path: Path, mode: Mode)
  {
    FileName(path).Some? && StartupDirAccepted(FileName(path).value, mode)
  }

  function StartupMatcher(mode: Mode): Path -> bool
  {
    p => StartupPathAccepted(p, mode)
  }

  /**
   * `choose_startup_animation_files`: the png list of one accepted top-level
   * directory of `root`, drawn at random among those holding a png.
   */
  function ChooseStartupAnimationFiles(fs: Dir, root: Path, mode: Mode, nanos: nat): (r: Option<seq<Path>>)
    ensures r.Some? ==> r.value != []
    ensures r.Some? ==> exists d ::
                          d in CollectDirPaths(fs, root) && StartupPathAccepted(d, mode)
                          && CollectPngFiles(fs, d) == Ok(r.value)
    ensures r.None? ==> forall d :: d in CollectDirPaths(fs, root) && StartupPathAccepted(d, mode) ==>
      CollectPngFiles(fs, d).Err? || CollectPngFiles(fs, d).value == []
  {
    if !IsDir(fs, root) then None
    else
      var startupDirs := Filter(CollectDirPaths(fs, root), StartupMatcher(mode));
      if startupDirs == [] then None
      else
        var available := NonEmptyPngLists(fs, startupDirs);
        if available == [] then
          None
        else
          var chosen := available[PseudoRandomIndex(|available|, nanos)];
          assert chosen in available;
          var d :| d in startupDirs && CollectPngFiles(fs, d) == Ok(chosen);
          assert StartupMatcher(mode)(d);
          Some(chosen)
  }

  /** `collect_default_happy_idle_variants`, as the value its loop builds. */
  function HappyIdleVariants(fs: Dir, bodyRoot: Path, variants: seq<Path>): Result<seq<seq<Path>>, FsError>
    decreases |variants|
  {
    if variants == [] then Ok([])
    else
      var files := CollectPngFiles(fs, BodyAssetPath(bodyRoot, variants[0]));
      if files.Err? then Err(files.error)
      else AppendOk(if files.value != [] then [files.value] else [], HappyIdleVariants(fs, bodyRoot, variants[1..]))
  }

  /**
   * The Happy idle list fails exactly when a configured directory is missing,
   * and then names the first missing one.
   */
  lemma {:induction false} HappyIdleVariantsErr(fs: Dir, bodyRoot: Path, variants: seq<Path>)
    ensures HappyIdleVariants(fs, bodyRoot, variants).Err? <==>
      exists i :: 0 <= i < |variants| && !IsDir(fs, BodyAssetPath(bodyRoot, variants[i]))
    ensures HappyIdleVariants(fs, bodyRoot, variants).Err? ==>
      exists i :: 0 <= i < |variants| && !IsDir(fs, BodyAssetPath(bodyRoot, variants[i]))
        && HappyIdleVariants(fs, bodyRoot, variants).error == NotADirectory(BodyAssetPath(bodyRoot, variants[i]))
        && forall j :: 0 <= j < i ==> IsDir(fs, BodyAssetPath(bodyRoot, variants[j]))
    decreases |variants|
  {
    if variants != [] {
      var rest := variants[1..];
      HappyIdleVariantsErr(fs, bodyRoot, rest);
      assert forall i :: 1 <= i < |variants| ==> variants[i] == rest[i - 1];
      var files := CollectPngFiles(fs, BodyAssetPath(bodyRoot, variants[0]));
      if files.Ok? {
        var tail := HappyIdleVariants(fs, bodyRoot, rest);
        if tail.Err? {
          var i :| 0 <= i < |rest| && !IsDir(fs, BodyAssetPath(bodyRoot, rest[i]))
                   && tail.error == NotADirectory(BodyAssetPath(bodyRoot, rest[i]))
                   && forall j :: 0 <= j < i ==> IsDir(fs, BodyAssetPath(bodyRoot, rest[j]));
          assert forall j :: 0 <= j < i + 1 ==> IsDir(fs, BodyAssetPath(bodyRoot, variants[j]));
          assert !IsDir(fs, BodyAssetPath(bodyRoot, variants[i + 1]));
        }
      }
    }
  }

  /** A successful Happy idle list holds exactly the non-empty png lists of the configured directories. */
  lemma {:induction false} HappyIdleVariantsOk(fs: Dir, bodyRoot: Path, variants: seq<Path>, x: seq<Path>)
    requires HappyIdleVariants(fs, bodyRoot, variants).Ok?
    ensures x in HappyIdleVariants(fs, bodyRoot, variants).value <==>
      x != [] && exists i :: 0 <= i < |variants| && CollectPngFiles(fs, BodyAssetPath(bodyRoot, variants[i])) == Ok(x)
    decreases |variants|
  {
    if variants != [] {
      var rest := variants[1..];
      var tail := HappyIdleVariants(fs, bodyRoot, rest);
      HappyIdleVariantsOk(fs, bodyRoot, rest, x);
      var files := CollectPngFiles(fs, BodyAssetPath(bodyRoot, variants[0]));
      if x != [] && exists i :: 0 <= i < |variants| && CollectPngFiles(fs, BodyAssetPath(bodyRoot, variants[i])) == Ok(x) {
        var i :| 0 <= i < |variants| && CollectPngFiles(fs, BodyAssetPath(bodyRoot, variants[i])) == Ok(x);
        if i > 0 {
          assert variants[i] == rest[i - 1];
        }
      }
      if x in tail.value {
        var i :| 0 <= i < |rest| && CollectPngFiles(fs, BodyAssetPath(bodyRoot, rest[i])) == Ok(x);
        assert variants[i + 1] == rest[i];
      }
    }
  }

  /** `collect_default_happy_idle_variants`: the loop over the configured Happy idle directories. */
  method CollectDefaultHappyIdleVariants(fs: Dir, config: AnimationPathConfig)
    returns (r: Result<seq<seq<Path>>, FsError>)
    ensures r == HappyIdleVariants(fs, config.assetsBodyRoot, config.defaultHappyIdleVariants)
  {
    var all := config.defaultHappyIdleVariants;
    var variants: seq<seq<Path>> := [];
    var i := 0;
    assert all[0..] == all;
    AppendOkNil(HappyIdleVariants(fs, config.assetsBodyRoot, all));
    while i < |all|
      invariant 0 <= i <= |all|
      invariant HappyIdleVariants(fs, config.assetsBodyRoot, all)
                == AppendOk(variants, HappyIdleVariants(fs, config.assetsBodyRoot, all[i..]))
    {
      assert all[i..][1..] == all[i + 1..];
      var dir := BodyAssetPath(config.assetsBodyRoot, all[i]);
      var files := CollectPngFiles(fs, dir);
      if files.Err? {
        return Err(files.error);
      }
      var found := if files.value != [] then [files.value] else [];
      AppendOkAssoc(variants, found, HappyIdleVariants(fs, config.assetsBodyRoot, all[i + 1..]));
      variants := variants + found;
      i := i + 1;
    }
    assert all[i..] == [];
    assert variants + [] == variants;
    return Ok(variants);
  }

  /** Prepends `front` to an `Ok` list; an `Err` stays itself. */
  function AppendOk(front: seq<seq<Path>>, r: Result<seq<seq<Path>>, FsError>): Result<seq<seq<Path>>, FsError>
  {
    if r.Err? then r else Ok(front + r.value)
  }

  lemma AppendOkNil(r: Result<seq<seq<Path>>, FsError>)
    ensures AppendOk([], r) == r
  {
    if r.Ok? {
      assert [] + r.value == r.value;
    }
  }

  lemma AppendOkAssoc(front: seq<seq<Path>>, mid: seq<seq<Path>>, r: Result<seq<seq<Path>>, FsError>)
    ensures AppendOk(front, AppendOk(mid, r)) == AppendOk(front + mid, r)
  {
    if r.Ok? {
      assert front + (mid + r.value) == (front + mid) + r.value;
    }
  }

  /** The directory the idle variants of a non-Happy mode are collected under. */
  function ModeIdleRoot(config: AnimationPathConfig, mode: Mode): Path
  {
    match mode
    case Nomal => BodyAssetPath(config.assetsBodyRoot, config.defaultNomalIdleRoot)
    case PoorCondition => BodyAssetPath(config.assetsBodyRoot, config.defaultPoorConditionIdleRoot)
    case Ill => BodyAssetPath(config.assetsBodyRoot, config.defaultIllIdleRoot)
    case Happy => BodyAssetPath(config.assetsBodyRoot, config.defaultNomalIdleRoot)
  }

  /**
   * `collect_default_mode_idle_variants`: Happy uses the configured list (empty
   * on error); other modes use every png directory under the mode's idle root.
   */
  function CollectDefaultModeIdleVariants(fs: Dir, config: AnimationPathConfig, mode: Mode): (r: seq<seq<Path>>)
    ensures forall x :: x in r ==> x != []
    ensures mode == Happy ==> r == HappyIdleVariants(fs, config.assetsBodyRoot, config.defaultHappyIdleVariants).UnwrapOr([])
    ensures mode != Happy ==> forall x :: x in r <==>
      x != [] && exists d :: d in PngVariantDirs(fs, ModeIdleRoot(config, mode)) && CollectPngFiles(fs, d) == Ok(x)
  {
    if mode == Happy then
      var r := HappyIdleVariants(fs, config.assetsBodyRoot, config.defaultHappyIdleVariants);
      assert forall x :: x in r.UnwrapOr([]) ==> x != [] by {
        forall x | x in r.UnwrapOr([])
          ensures x != []
        {
          HappyIdleVariantsOk(fs, config.assetsBodyRoot, config.defaultHappyIdleVariants, x);
        }
      }
      HappyIdleVariants(fs, config.assetsBodyRoot, config.defaultHappyIdleVariants).UnwrapOr([])
    else
      NonEmptyPngLists(fs, PngVariantDirs(fs, ModeIdleRoot(config, mode)))
  }

  /** `pick_random_variant` */
  function PickRandomVariant(variants: seq<seq<Path>>, nanos: nat): (r: Option<seq<Path>>)
    ensures r.None? <==> variants == []
    ensures r.Some? ==> r.value in variants
    ensures r.Some? ==> r.value == variants[PseudoRandomIndex(|variants|, nanos)]
  {
    if variants == [] then None else Some(variants[PseudoRandomIndex(|variants|, nanos)])
  }

  function VariantsForMode(mode: Mode, happy: seq<seq<Path>>, nomal: seq<seq<Path>>,
                           poorCondition: seq<seq<Path>>, ill: seq<seq<Path>>): seq<seq<Path>>
  {
    match mode
    case Happy => happy
    case Nomal => nomal
    case PoorCondition => poorCondition
    case Ill => ill
  }

  /**
   * `select_default_files_for_mode`: a variant of the mode's own list, else of
   * Nomal's, else of Happy's, else nothing. At most one draw happens, so one
   * clock reading serves all three tiers.
   */
  function SelectDefaultFilesForMode(mode: Mode, happy: seq<seq<Path>>, nomal: seq<seq<Path>>,
                                     poorCondition: seq<seq<Path>>, ill: seq<seq<Path>>, nanos: nat): (r: seq<Path>)
    ensures VariantsForMode(mode, happy, nomal, poorCondition, ill) != [] ==>
      r in VariantsForMode(mode, happy, nomal, poorCondition, ill)
    ensures VariantsForMode(mode, happy, nomal, poorCondition, ill) == [] && nomal != [] ==> r in nomal
    ensures VariantsForMode(mode, happy, nomal, poorCondition, ill) == [] && nomal == [] && happy != [] ==> r in happy
    ensures VariantsForMode(mode, happy, nomal, poorCondition, ill) == [] && nomal == [] && happy == [] ==> r == []
  {
    PickRandomVariant(VariantsForMode(mode, happy, nomal, poorCondition, ill), nanos)
      .OrElse(PickRandomVariant(nomal, nanos))
      .OrElse(PickRandomVariant(happy, nanos))
      .UnwrapOr([])
  }

  /** The png directories a segment of `mode` is drawn from, before sorting. */
  function SegmentDirs(fs: Dir, root: Path, mode: Mode, segment: Segment): (r: seq<Path>)
    ensures forall p :: p in r <==>
      p in PngVariantDirs(fs, root) && PathMatchesMode(p, mode)
      && (StagePrefix(segment).Some? ==> PathInStageBranch(p, root, StagePrefix(segment).value))
  {
    var modeDirs := Filter(PngVariantDirs(fs, root), PathModeMatcher(mode));
    match StagePrefix(segment)
    case None => modeDirs
    case Some(stagePrefix) => Filter(modeDirs, StageBranchMatcher(root, stagePrefix))
  }

  /** `collect_segment_variants_for_mode`: the non-empty png lists of the sorted segment directories. */
  function CollectSegmentVariantsForMode(fs: Dir, root: Path, mode: Mode, segment: Segment): (r: seq<seq<Path>>)
    ensures forall x :: x in r <==> x != [] && exists d :: d in SegmentDirs(fs, root, mode, segment)
                                                         && CollectPngFiles(fs, d) == Ok(x)
  {
    var sorted := SortPaths(SegmentDirs(fs, root, mode, segment));
    assert forall d :: d in sorted <==> d in SegmentDirs(fs, root, mode, segment) by {
      forall d
        ensures d in sorted <==> d in SegmentDirs(fs, root, mode, segment)
      {
        assert d in multiset(sorted) <==> d in multiset(SegmentDirs(fs, root, mode, segment));
      }
    }
    NonEmptyPngLists(fs, sorted)
  }

  /** `load_frames_flat`: every png under `root`, sorted; nothing when `root` cannot be read. */
  function LoadFramesFlat(fs: Dir, root: Path): seq<Path>
  {
    RecursivePngFiles(fs, root, []).UnwrapOr([])
  }

  /** The variants `load_frames_with_fallback` draws from: the first non-empty tier. */
  function FallbackVariants(fs: Dir, root: Path, mode: Mode, segment: Segment): seq<seq<Path>>
  {
    var exact := CollectSegmentVariantsForMode(fs, root, mode, segment);
    var nomal := if exact == [] && mode != Nomal then CollectSegmentVariantsForMode(fs, root, Nomal, segment) else exact;
    if nomal == [] && mode != Happy then CollectSegmentVariantsForMode(fs, root, Happy, segment) else nomal
  }

  /** `load_frames_with_fallback` */
  function LoadFramesWithFallback(fs: Dir, root: Path, mode: Mode, segment: Segment, nanos: nat): (r: seq<Path>)
    ensures CollectSegmentVariantsForMode(fs, root, mode, segment) != [] ==>
      r in CollectSegmentVariantsForMode(fs, root, mode, segment)
    ensures CollectSegmentVariantsForMode(fs, root, mode, segment) == []
            && CollectSegmentVariantsForMode(fs, root, Nomal, segment) != [] ==>
      r in CollectSegmentVariantsForMode(fs, root, Nomal, segment)
    ensures CollectSegmentVariantsForMode(fs, root, mode, segment) == []
            && CollectSegmentVariantsForMode(fs, root, Nomal, segment) == []
            && CollectSegmentVariantsForMode(fs, root, Happy, segment) != [] ==>
      r in CollectSegmentVariantsForMode(fs, root, Happy, segment)
    ensures CollectSegmentVariantsForMode(fs, root, mode, segment) == []
            && CollectSegmentVariantsForMode(fs, root, Nomal, segment) == []
            && CollectSegmentVariantsForMode(fs, root, Happy, segment) == [] ==>
      r == LoadFramesFlat(fs, root)
    ensures FallbackVariants(fs, root, mode, segment) != [] ==> r != []
  {
    var variants := FallbackVariants(fs, root, mode, segment);
    if variants == [] then LoadFramesFlat(fs, root)
    else variants[PseudoRandomIndex(|variants|, nanos)]
  }

  /** Whether `load_frames_with_fallback` comes back empty does not depend on the clock. */
  lemma LoadFramesEmptinessIgnoresClock(fs: Dir, root: Path, mode: Mode, segment: Segment, n1: nat, n2: nat)
    ensures LoadFramesWithFallback(fs, root, mode, segment, n1) == [] <==>
            LoadFramesWithFallback(fs, root, mode, segment, n2) == []
  {
  }

  /** The flat fallback is sorted and holds exactly the pngs below `root`. */
  lemma LoadFramesFlatSpec(fs: Dir, root: Path, f: Path)
    ensures SortedPaths(LoadFramesFlat(fs, root))
    ensures f in LoadFramesFlat(fs, root) <==>
      IsDir(fs, root) && IsUnder(f, root) && PngReachable(Lookup(fs, root).value, f[|root|..], [])
  {
    RecursivePngFilesSpec(fs, root, [], f);
  }

  // ---------------------------------------------------------------------
  // Drag, pinch and shutdown collectors
  // ---------------------------------------------------------------------

  /** `collect_drag_raise_loop_files` */
  function CollectDragRaiseLoopFiles(fs: Dir, raiseDynamicRoot: Path, mode: Mode, nanos: nat): seq<Path>
  {
    LoadFramesWithFallback(fs, raiseDynamicRoot, mode, Single, nanos)
  }

  /** `collect_drag_raise_start_files`: there are no drag start frames. */
  function CollectDragRaiseStartFiles(fs: Dir, raiseStaticRoot: Path, mode: Mode): (r: seq<Path>)
    ensures r == []
  {
    []
  }

  predicate EndDirAccepted(path: Path, mode: Mode)
  {
    FileName(path).Some? && StartsWith(ToAsciiLower(FileName(path).value), "c_")
    && DirNameMatchesMode(FileName(path).value, mode)
  }

  function EndDirMatcher(mode: Mode): Path -> bool
  {
    p => EndDirAccepted(p, mode)
  }

  /** `collect_drag_raise_end_variants`: `c_` directories of the mode, else Happy `c_` directories. */
  function CollectDragRaiseEndVariants(fs: Dir, raiseStaticRoot: Path, mode: Mode): (r: seq<seq<Path>>)
    ensures forall x :: x in r ==> x != []
    ensures forall x :: x in r ==> exists d ::
                                     d in CollectDirPaths(fs, raiseStaticRoot)
                                     && (EndDirAccepted(d, mode) || EndDirAccepted(d, Happy))
                                     && CollectPngFiles(fs, d) == Ok(x)
    ensures (exists d :: d in CollectDirPaths(fs, raiseStaticRoot) && EndDirAccepted(d, mode)) ==>
      forall x :: x in r <==> x != [] && exists d ::
                                           d in CollectDirPaths(fs, raiseStaticRoot)
                                           && EndDirAccepted(d, mode) && CollectPngFiles(fs, d) == Ok(x)
    ensures mode != Happy && !(exists d :: d in CollectDirPaths(fs, raiseStaticRoot) && EndDirAccepted(d, mode)) ==>
      forall x :: x in r <==> x != [] && exists d ::
                                           d in CollectDirPaths(fs, raiseStaticRoot)
                                           && EndDirAccepted(d, Happy) && CollectPngFiles(fs, d) == Ok(x)
  {
    var dirs := CollectDirPaths(fs, raiseStaticRoot);
    var modeDirs := Filter(dirs, EndDirMatcher(mode));
    var selected := if modeDirs == [] && mode != Happy then Filter(dirs, EndDirMatcher(Happy)) else modeDirs;
    FilterEmpty(dirs, EndDirMatcher(mode));
    NonEmptyPngLists(fs, selected)
  }

  /** The first of `dirs` whose name matches `mode`. */
  function FirstMatchingDir(dirs: seq<Path>, mode: Mode): (r: Option<Path>)
    ensures r.None? <==> !AnyLastNameMatches(dirs, mode)
    ensures r.Some? ==> exists i :: 0 <= i < |dirs| && dirs[i] == r.value && LastNameMatchesMode(dirs[i], mode)
                                    && forall j :: 0 <= j < i ==> !LastNameMatchesMode(dirs[j], mode)
  {
    if dirs == [] then None
    else if LastNameMatchesMode(dirs[0], mode) then Some(dirs[0])
    else
      var r := FirstMatchingDir(dirs[1..], mode);
      assert dirs == [dirs[0]] + dirs[1..];
      if r.Some? then
        var i :| 0 <= i < |dirs[1..]| && dirs[1..][i] == r.value && LastNameMatchesMode(dirs[1..][i], mode)
                 && forall j :: 0 <= j < i ==> !LastNameMatchesMode(dirs[1..][j], mode);
        assert dirs[i + 1] == r.value;
        r
      else r
  }

  /** The mode directory `collect_pinch_stage_variants` reads: first mode match, else first Nomal, else first Happy. */
  function PinchModeDir(fs: Dir, pinchRoot: Path, mode: Mode): (r: Option<Path>)
    ensures AnyLastNameMatches(CollectDirPaths(fs, pinchRoot), mode) ==>
      r == FirstMatchingDir(CollectDirPaths(fs, pinchRoot), mode)
    ensures !AnyLastNameMatches(CollectDirPaths(fs, pinchRoot), mode) && AnyLastNameMatches(CollectDirPaths(fs, pinchRoot), Nomal) ==>
      r == FirstMatchingDir(CollectDirPaths(fs, pinchRoot), Nomal)
    ensures !AnyLastNameMatches(CollectDirPaths(fs, pinchRoot), mode) && !AnyLastNameMatches(CollectDirPaths(fs, pinchRoot), Nomal) ==>
      r == FirstMatchingDir(CollectDirPaths(fs, pinchRoot), Happy)
  {
    var dirs := CollectDirPaths(fs, pinchRoot);
    var modeDirs := Filter(dirs, LastNameMatcher(mode));
    assert modeDirs == [] <==> !AnyLastNameMatches(dirs, mode) by {
      if modeDirs != [] {
        assert modeDirs[0] in modeDirs;
      }
    }
    assert modeDirs != [] ==> Some(modeDirs[0]) == FirstMatchingDir(dirs, mode) by {
      if modeDirs != [] {
        FilterFirst(dirs, LastNameMatcher(mode));
      }
    }
    (if modeDirs == [] && mode != Nomal then FirstMatchingDir(dirs, Nomal)
     else if modeDirs == [] then None else Some(modeDirs[0]))
      .OrElse(if mode != Happy then FirstMatchingDir(dirs, Happy) else None)
  }

  /** The first element kept by a filter is the first element of the input satisfying the test. */
  lemma {:induction false} FilterFirst(dirs: seq<Path>, keep: Path -> bool)
    requires Filter(dirs, keep) != []
    ensures exists i :: 0 <= i < |dirs| && dirs[i] == Filter(dirs, keep)[0] && keep(dirs[i])
                        && forall j :: 0 <= j < i ==> !keep(dirs[j])
  {
    if !keep(dirs[0]) {
      FilterFirst(dirs[1..], keep);
      var i :| 0 <= i < |dirs[1..]| && dirs[1..][i] == Filter(dirs[1..], keep)[0] && keep(dirs[1..][i])
               && forall j :: 0 <= j < i ==> !keep(dirs[1..][j]);
      assert dirs[i + 1] == dirs[1..][i];
    }
  }

  /** In a well-formed tree, the first match found by the pinch lookup is the first match of its listing. */
  lemma PinchModeDirIsMatching(fs: Dir, pinchRoot: Path, mode: Mode)
    ensures PinchModeDir(fs, pinchRoot, mode).Some? ==>
      PinchModeDir(fs, pinchRoot, mode).value in CollectDirPaths(fs, pinchRoot)
      && (LastNameMatchesMode(PinchModeDir(fs, pinchRoot, mode).value, mode)
          || LastNameMatchesMode(PinchModeDir(fs, pinchRoot, mode).value, Nomal)
          || LastNameMatchesMode(PinchModeDir(fs, pinchRoot, mode).value, Happy))
    ensures PinchModeDir(fs, pinchRoot, mode).None? <==>
      !AnyLastNameMatches(CollectDirPaths(fs, pinchRoot), mode)
      && !AnyLastNameMatches(CollectDirPaths(fs, pinchRoot), Nomal)
      && !AnyLastNameMatches(CollectDirPaths(fs, pinchRoot), Happy)
  {
  }

  predicate StageDirAccepted(path: Path, stagePrefix: string)
  {
    FileName(path).Some? && IsStageComponent(FileName(path).value, stagePrefix)
  }

  function StageDirMatcher(stagePrefix: string): Path -> bool
  {
    p => StageDirAccepted(p, stagePrefix)
  }

  /** `collect_pinch_stage_variants`: the stage-prefixed sub-directories of the selected mode directory. */
  function CollectPinchStageVariants(fs: Dir, pinchRoot: Path, mode: Mode, stagePrefix: string): (r: seq<seq<Path>>)
    ensures PinchModeDir(fs, pinchRoot, mode).None? ==> r == []
    ensures PinchModeDir(fs, pinchRoot, mode).Some? ==> forall x :: x in r <==>
      x != [] && exists d :: d in CollectDirPaths(fs, PinchModeDir(fs, pinchRoot, mode).value)
                             && StageDirAccepted(d, stagePrefix) && CollectPngFiles(fs, d) == Ok(x)
  {
    match PinchModeDir(fs, pinchRoot, mode)
    case None => []
    case Some(modeDir) => NonEmptyPngLists(fs, Filter(CollectDirPaths(fs, modeDir), StageDirMatcher(stagePrefix)))
  }

  /**
   * `collect_pinch_start_files` (prefix "A") and `collect_pinch_end_files`
   * (prefix "C"): the tiered segment frames, else a stage variant of the
   * selected mode directory. Only one of the two draws can happen.
   */
  function PinchSegmentFiles(fs: Dir, pinchRoot: Path, mode: Mode, segment: Segment, stagePrefix: string, nanos: nat): (r: seq<Path>)
    ensures LoadFramesWithFallback(fs, pinchRoot, mode, segment, nanos) != [] ==>
      r == LoadFramesWithFallback(fs, pinchRoot, mode, segment, nanos)
    ensures LoadFramesWithFallback(fs, pinchRoot, mode, segment, nanos) == [] ==>
      (r == [] <==> CollectPinchStageVariants(fs, pinchRoot, mode, stagePrefix) == [])
      && (r != [] ==> r in CollectPinchStageVariants(fs, pinchRoot, mode, stagePrefix))
  {
    var files := LoadFramesWithFallback(fs, pinchRoot, mode, segment, nanos);
    if files == [] then
      var variants := CollectPinchStageVariants(fs, pinchRoot, mode, stagePrefix);
      if variants == [] then []
      else
        var chosen := variants[PseudoRandomIndex(|variants|, nanos)];
        assert chosen in variants;
        chosen
    else files
  }

  function CollectPinchStartFiles(fs: Dir, pinchRoot: Path, mode: Mode, nanos: nat): seq<Path>
  {
    PinchSegmentFiles(fs, pinchRoot, mode, A, "A", nanos)
  }

  /** `collect_pinch_loop_variants` */
  function CollectPinchLoopVariants(fs: Dir, pinchRoot: Path, mode: Mode): seq<seq<Path>>
  {
    CollectPinchStageVariants(fs, pinchRoot, mode, "B")
  }

  function CollectPinchEndFiles(fs: Dir, pinchRoot: Path, mode: Mode, nanos: nat): seq<Path>
  {
    PinchSegmentFiles(fs, pinchRoot, mode, C, "C", nanos)
  }

  /** `collect_shutdown_variants`: the png lists of the tiered mode variant directories. */
  function CollectShutdownVariants(fs: Dir, shutdownRoot: Path, mode: Mode): (r: seq<seq<Path>>)
    ensures forall x :: x in r <==> x != [] && exists d :: d in CollectModeVariantDirs(fs, shutdownRoot, mode)
                                                         && CollectPngFiles(fs, d) == Ok(x)
  {
    NonEmptyPngLists(fs, CollectModeVariantDirs(fs, shutdownRoot, mode))
  }

  // ---------------------------------------------------------------------
  // Touch variants
  // ---------------------------------------------------------------------

  predicate NoHappyTurn(path: Path)
  {
    !PathContainsKeyword(path, "happy_turn")
  }

  function HappyTurnFilter(): Path -> bool
  {
    p => NoHappyTurn(p)
  }

  /** The root's own name is Touch_Body, ignoring ASCII case. */
  predicate IsTouchBody(root: Path)
  {
    FileName(root).Some? && EqIgnoreAsciiCase(FileName(root).value, "Touch_Body")
  }

  /** A png directory of the stage branch whose path names `tier`. */
  predicate StageTierDir(fs: Dir, root: Path, stagePrefix: string, tier: Mode, p: Path)
  {
    p in PngVariantDirs(fs, root) && PathInStageBranch(p, root, stagePrefix) && PathMatchesMode(p, tier)
  }

  /** A directory of the exact tier, once a Happy body touch has dropped its `happy_turn` directories. */
  predicate ExactTouchDir(fs: Dir, root: Path, mode: Mode, stagePrefix: string, p: Path)
  {
    StageTierDir(fs, root, stagePrefix, mode, p) && (IsTouchBody(root) && mode == Happy ==> NoHappyTurn(p))
  }

  /**
   * The mode whose directories a touch stage uses: the exact mode when it
   * has a directory, else Nomal when that is another mode and has one, else
   * Happy when that is another mode; none otherwise.
   */
  ghost function TouchTier(fs: Dir, root: Path, mode: Mode, stagePrefix: string): Option<Mode>
  {
    if exists p :: ExactTouchDir(fs, root, mode, stagePrefix, p) then Some(mode)
    else if mode != Nomal && exists p :: StageTierDir(fs, root, stagePrefix, Nomal, p) then Some(Nomal)
    else if mode != Happy then Some(Happy)
    else None
  }

  /** A directory of the chosen tier that survives the Touch_Body `happy_turn` filter. */
  ghost predicate InTouchTier(fs: Dir, root: Path, mode: Mode, stagePrefix: string, p: Path)
  {
    var tier := TouchTier(fs, root, mode, stagePrefix);
    tier.Some? && StageTierDir(fs, root, stagePrefix, tier.value, p) && (IsTouchBody(root) ==> NoHappyTurn(p))
  }

  /** Directories chosen for one touch stage, before their frames are read. */
  function TouchStageDirs(fs: Dir, root: Path, mode: Mode, stagePrefix: string): (r: seq<Path>)
    ensures IsSublist(r, PngVariantDirs(fs, root))
    ensures forall p :: p in r <==> InTouchTier(fs, root, mode, stagePrefix, p)
    ensures forall p :: p in r ==> p in PngVariantDirs(fs, root) && PathInStageBranch(p, root, stagePrefix)
    ensures IsTouchBody(root) ==> forall p :: p in r ==> NoHappyTurn(p)
    ensures forall p :: p in r ==> PathMatchesMode(p, mode) || PathMatchesMode(p, Nomal) || PathMatchesMode(p, Happy)
  {
    var variantDirs := PngVariantDirs(fs, root);
    var candidates := Filter(variantDirs, StageBranchMatcher(root, stagePrefix));
    var isTouchBody := IsTouchBody(root);
    var modeDirs := Filter(candidates, PathModeMatcher(mode));
    var modeDirs1 := if isTouchBody && mode == Happy then Filter(modeDirs, HappyTurnFilter()) else modeDirs;
    var modeDirs2 := if modeDirs1 == [] && mode != Nomal then Filter(candidates, PathModeMatcher(Nomal)) else modeDirs1;
    var modeDirs3 := if modeDirs2 == [] && mode != Happy then Filter(candidates, PathModeMatcher(Happy)) else modeDirs2;
    var r := if isTouchBody then Filter(modeDirs3, HappyTurnFilter()) else modeDirs3;
    TouchStageOrder(variantDirs, candidates, modeDirs, modeDirs1, Filter(candidates, PathModeMatcher(Nomal)),
                    Filter(candidates, PathModeMatcher(Happy)), modeDirs3, r);
    TouchStageTiers(fs, root, mode, stagePrefix, modeDirs1, Filter(candidates, PathModeMatcher(Nomal)),
                    Filter(candidates, PathModeMatcher(Happy)), modeDirs3);
    r
  }

  /** The steps of `TouchStageDirs` are filters of filters, so they keep the listing order. */
  lemma TouchStageOrder(variantDirs: seq<Path>, candidates: seq<Path>, modeDirs: seq<Path>,
                        modeDirs1: seq<Path>, nomalDirs: seq<Path>, happyDirs: seq<Path>,
                        modeDirs3: seq<Path>, r: seq<Path>)
    requires IsSublist(candidates, variantDirs)
    requires IsSublist(modeDirs, candidates) && IsSublist(nomalDirs, candidates) && IsSublist(happyDirs, candidates)
    requires modeDirs1 == modeDirs || IsSublist(modeDirs1, modeDirs)
    requires modeDirs3 in {modeDirs1, nomalDirs, happyDirs}
    requires r == modeDirs3 || IsSublist(r, modeDirs3)
    ensures IsSublist(r, variantDirs)
  {
    SublistTrans(modeDirs, candidates, variantDirs);
    SublistRefl(modeDirs);
    SublistTrans(modeDirs1, modeDirs, variantDirs);
    SublistTrans(nomalDirs, candidates, variantDirs);
    SublistTrans(happyDirs, candidates, variantDirs);
    SublistRefl(modeDirs3);
    SublistTrans(r, modeDirs3, variantDirs);
  }

  /** Which tier the emptiness tests of `TouchStageDirs` pick. */
  lemma TouchStageTiers(fs: Dir, root: Path, mode: Mode, stagePrefix: string,
                        modeDirs1: seq<Path>, nomalDirs: seq<Path>, happyDirs: seq<Path>, modeDirs3: seq<Path>)
    requires forall p :: p in modeDirs1 <==> ExactTouchDir(fs, root, mode, stagePrefix, p)
    requires forall p :: p in nomalDirs <==> StageTierDir(fs, root, stagePrefix, Nomal, p)
    requires forall p :: p in happyDirs <==> StageTierDir(fs, root, stagePrefix, Happy, p)
    requires var modeDirs2 := if modeDirs1 == [] && mode != Nomal then nomalDirs else modeDirs1;
             modeDirs3 == if modeDirs2 == [] && mode != Happy then happyDirs else modeDirs2
    ensures var tier := TouchTier(fs, root, mode, stagePrefix);
            (tier.Some? ==> forall p :: p in modeDirs3 <==> StageTierDir(fs, root, stagePrefix, tier.value, p)
                                                            && (IsTouchBody(root) && mode == Happy && tier.value == Happy ==> NoHappyTurn(p)))
            && (tier.None? ==> modeDirs3 == [])
  {
    if modeDirs1 != [] {
      assert ExactTouchDir(fs, root, mode, stagePrefix, modeDirs1[0]);
    } else if mode != Nomal && nomalDirs != [] {
      assert StageTierDir(fs, root, stagePrefix, Nomal, nomalDirs[0]);
    }
  }

  /** The touch variants of `dirs`: each readable directory with pngs, and its key. */
  function TouchVariantsOf(fs: Dir, root: Path, stagePrefix: string, dirs: seq<Path>): (r: seq<TouchVariant>)
    ensures forall v :: v in r ==> v.files != [] && exists d :: d in dirs && CollectPngFiles(fs, d) == Ok(v.files)
                                                               && v.key == TouchVariantKey(d, root, stagePrefix)
    ensures forall d :: d in dirs && CollectPngFiles(fs, d).Ok? && CollectPngFiles(fs, d).value != [] ==>
      TouchVariant(TouchVariantKey(d, root, stagePrefix), CollectPngFiles(fs, d).value) in r
  {
    if dirs == [] then []
    else
      var files := CollectPngFiles(fs, dirs[0]);
      var tail := TouchVariantsOf(fs, root, stagePrefix, dirs[1..]);
      assert dirs == [dirs[0]] + dirs[1..];
      if files.Ok? && files.value != [] then
        [TouchVariant(TouchVariantKey(dirs[0], root, stagePrefix), files.value)] + tail
      else tail
  }

  /**
   * `collect_touch_stage_variants`: every variant has frames, comes from a png
   * directory in the stage branch matching the mode (or a fallback mode), and
   * a Touch_Body root never yields a `happy_turn` directory.
   */
  function CollectTouchStageVariants(fs: Dir, root: Path, mode: Mode, stagePrefix: string): (r: seq<TouchVariant>)
    ensures forall v :: v in r ==> v.files != [] && exists d ::
      d in PngVariantDirs(fs, root) && PathInStageBranch(d, root, stagePrefix)
      && (IsTouchBody(root) ==> NoHappyTurn(d))
      && (PathMatchesMode(d, mode) || PathMatchesMode(d, Nomal) || PathMatchesMode(d, Happy))
      && CollectPngFiles(fs, d) == Ok(v.files) && v.key == TouchVariantKey(d, root, stagePrefix)
    ensures forall v :: v in r ==> exists d ::
      InTouchTier(fs, root, mode, stagePrefix, d) && CollectPngFiles(fs, d) == Ok(v.files)
    ensures forall d :: InTouchTier(fs, root, mode, stagePrefix, d)
                        && CollectPngFiles(fs, d).Ok? && CollectPngFiles(fs, d).value != [] ==>
      TouchVariant(TouchVariantKey(d, root, stagePrefix), CollectPngFiles(fs, d).value) in r
  {
    TouchVariantsOf(fs, root, stagePrefix, TouchStageDirs(fs, root, mode, stagePrefix))
  }

  /** Every variant of every stage has at least one frame. */
  predicate FramesNonEmpty(variants: TouchStageVariants)
  {
    (forall v :: v in variants.stageA ==> v.files != [])
    && (forall v :: v in variants.stageB ==> v.files != [])
    && (forall v :: v in variants.stageC ==> v.files != [])
  }

  predicate NoStages(variants: TouchStageVariants)
  {
    variants.stageA == [] && variants.stageB == [] && variants.stageC == []
  }

  /** `collect_touch_variants` */
  function CollectTouchVariants(fs: Dir, root: Path, mode: Mode): (r: TouchStageVariants)
    ensures FramesNonEmpty(r)
  {
    TouchStageVariants(
      CollectTouchStageVariants(fs, root, mode, "A"),
      CollectTouchStageVariants(fs, root, mode, "B"),
      CollectTouchStageVariants(fs, root, mode, "C"))
  }

  predicate HasKey(variants: seq<TouchVariant>, key: Name)
  {
    exists v :: v in variants && v.key == Some(key)
  }

  /** `variants.iter().find(|v| v.key == Some(key))` */
  function FirstWithKey(variants: seq<TouchVariant>, key: Name): (r: Option<TouchVariant>)
    ensures r.None? <==> !HasKey(variants, key)
    ensures r.Some? ==> exists i :: 0 <= i < |variants| && variants[i] == r.value && r.value.key == Some(key)
                                    && forall j :: 0 <= j < i ==> variants[j].key != Some(key)
  {
    if variants == [] then None
    else if variants[0].key == Some(key) then Some(variants[0])
    else
      var r := FirstWithKey(variants[1..], key);
      assert variants == [variants[0]] + variants[1..];
      if r.Some? then
        var i :| 0 <= i < |variants[1..]| && variants[1..][i] == r.value && r.value.key == Some(key)
                 && forall j :: 0 <= j < i ==> variants[1..][j].key != Some(key);
        assert variants[i + 1] == r.value;
        r
      else r
  }

  /** What `extend_stage_sequence` may append for one stage. */
  predicate IsStagePart(variants: seq<TouchVariant>, selectedKey: Option<Name>, part: seq<Path>)
  {
    if variants == [] then part == []
    else if selectedKey.Some? && FirstWithKey(variants, selectedKey.value).Some? then
      part == FirstWithKey(variants, selectedKey.value).value.files
    else
      exists i :: 0 <= i < |variants| && part == variants[i].files
  }

  /** `extend_stage_sequence` */
  method ExtendStageSequence(output: seq<Path>, variants: seq<TouchVariant>, selectedKey: Option<Name>)
    returns (out: seq<Path>)
    ensures |output| <= |out| && out[..|output|] == output
    ensures IsStagePart(variants, selectedKey, out[|output|..])
  {
    if variants == [] {
      out := output;
      assert out[|output|..] == [];
      return;
    }
    if selectedKey.Some? {
      var variant := FirstWithKey(variants, selectedKey.value);
      if variant.Some? {
        out := output + variant.value.files;
        assert out[|output|..] == variant.value.files;
        return;
      }
    }
    var nanos := ReadClock();
    var index := PseudoRandomIndex(|variants|, nanos);
    out := output + variants[index].files;
    assert out[|output|..] == variants[index].files;
  }

  /** The shared keys the loop of `build_touch_sequence` collects from `stageA`, in order. */
  function SharedKeys(stageA: seq<TouchVariant>, stageB: seq<TouchVariant>, stageC: seq<TouchVariant>): seq<Name>
    decreases |stageA|
  {
    if stageA == [] then []
    else
      var last := stageA[|stageA| - 1];
      SharedKeys(stageA[..|stageA| - 1], stageB, stageC)
      + (if last.key.Some? && HasKey(stageB, last.key.value) && HasKey(stageC, last.key.value)
         then [last.key.value] else [])
  }

  /** Shared keys are exactly the A-stage keys that also occur in B and C. */
  lemma {:induction false} SharedKeysIff(stageA: seq<TouchVariant>, stageB: seq<TouchVariant>, stageC: seq<TouchVariant>, key: Name)
    ensures key in SharedKeys(stageA, stageB, stageC) <==>
      HasKey(stageA, key) && HasKey(stageB, key) && HasKey(stageC, key)
    decreases |stageA|
  {
    if stageA != [] {
      var init := stageA[..|stageA| - 1];
      var last := stageA[|stageA| - 1];
      SharedKeysIff(init, stageB, stageC, key);
      assert stageA == init + [last];
      if HasKey(stageA, key) && !HasKey(init, key) {
        var v :| v in stageA && v.key == Some(key);
        assert v == last;
      }
    }
  }

  /** The key the touch sequence is built around, as `build_touch_sequence` may choose it. */
  predicate IsSelectedKey(variants: TouchStageVariants, selectedKey: Option<Name>)
  {
    var shared := SharedKeys(variants.stageA, variants.stageB, variants.stageC);
    if shared == [] then selectedKey.None? else selectedKey.Some? && selectedKey.value in shared
  }

  /** What `build_touch_sequence` may return: one part per stage, concatenated in A, B, C order. */
  ghost predicate IsTouchSequence(variants: TouchStageVariants, sequence: seq<Path>)
  {
    exists selectedKey, i, j ::
      IsSelectedKey(variants, selectedKey) && 0 <= i <= j <= |sequence|
      && IsStagePart(variants.stageA, selectedKey, sequence[..i])
      && IsStagePart(variants.stageB, selectedKey, sequence[i..j])
      && IsStagePart(variants.stageC, selectedKey, sequence[j..])
  }

  /** `build_touch_sequence` */
  method BuildTouchSequence(variants: TouchStageVariants) returns (sequence: seq<Path>)
    ensures IsTouchSequence(variants, sequence)
    ensures FramesNonEmpty(variants) ==> (sequence == [] <==> NoStages(variants))
    ensures SharedKeys(variants.stageA, variants.stageB, variants.stageC) != [] ==>
      exists key :: key in SharedKeys(variants.stageA, variants.stageB, variants.stageC)
        && FirstWithKey(variants.stageA, key).Some? && FirstWithKey(variants.stageB, key).Some?
        && FirstWithKey(variants.stageC, key).Some?
        && sequence == FirstWithKey(variants.stageA, key).value.files
                       + FirstWithKey(variants.stageB, key).value.files
                       + FirstWithKey(variants.stageC, key).value.files
  {
    var sharedKeys := CollectSharedKeys(variants);
    var selectedKey: Option<Name> := None;
    if sharedKeys != [] {
      var nanos := ReadClock();
      selectedKey := Some(sharedKeys[PseudoRandomIndex(|sharedKeys|, nanos)]);
    }

    var s0: seq<Path> := [];
    var s1 := ExtendStageSequence(s0, variants.stageA, selectedKey);
    var s2 := ExtendStageSequence(s1, variants.stageB, selectedKey);
    sequence := ExtendStageSequence(s2, variants.stageC, selectedKey);
    assert sequence[..|s1|] == s1[|s0|..];
    assert sequence[|s1|..|s2|] == s2[|s1|..];
    TouchSequenceOfParts(variants, selectedKey, sequence, |s1|, |s2|);
  }

  /** The loop of `build_touch_sequence` that collects the shared keys, in A-stage order. */
  method CollectSharedKeys(variants: TouchStageVariants) returns (sharedKeys: seq<Name>)
    ensures sharedKeys == SharedKeys(variants.stageA, variants.stageB, variants.stageC)
  {
    var stageA := variants.stageA;
    sharedKeys := [];
    var k := 0;
    while k < |stageA|
      invariant 0 <= k <= |stageA|
      invariant sharedKeys == SharedKeys(stageA[..k], variants.stageB, variants.stageC)
    {
      assert stageA[..k + 1][..k] == stageA[..k];
      var variantA := stageA[k];
      if variantA.key.Some? {
        var key := variantA.key.value;
        var hasB := HasKey(variants.stageB, key);
        var hasC := HasKey(variants.stageC, key);
        if hasB && hasC {
          sharedKeys := sharedKeys + [key];
        }
      }
      k := k + 1;
    }
    assert stageA[..|stageA|] == stageA;
  }

  /** Three stage parts around a selectable key make a touch sequence with the promised shape. */
  lemma TouchSequenceOfParts(variants: TouchStageVariants, selectedKey: Option<Name>, sequence: seq<Path>, i: int, j: int)
    requires IsSelectedKey(variants, selectedKey) && 0 <= i <= j <= |sequence|
    requires IsStagePart(variants.stageA, selectedKey, sequence[..i])
    requires IsStagePart(variants.stageB, selectedKey, sequence[i..j])
    requires IsStagePart(variants.stageC, selectedKey, sequence[j..])
    ensures IsTouchSequence(variants, sequence)
    ensures FramesNonEmpty(variants) ==> (sequence == [] <==> NoStages(variants))
    ensures SharedKeys(variants.stageA, variants.stageB, variants.stageC) != [] ==>
      exists key :: key in SharedKeys(variants.stageA, variants.stageB, variants.stageC)
        && FirstWithKey(variants.stageA, key).Some? && FirstWithKey(variants.stageB, key).Some?
        && FirstWithKey(variants.stageC, key).Some?
        && sequence == FirstWithKey(variants.stageA, key).value.files
                       + FirstWithKey(variants.stageB, key).value.files
                       + FirstWithKey(variants.stageC, key).value.files
  {
    if SharedKeys(variants.stageA, variants.stageB, variants.stageC) != [] {
      SharedKeysIff(variants.stageA, variants.stageB, variants.stageC, selectedKey.value);
    }
    assert sequence == sequence[..i] + sequence[i..j] + sequence[j..];
    TouchSequenceEmptiness(variants, selectedKey, sequence, i, j);
  }

  /** With frames in every variant, a touch sequence is empty exactly when every stage is. */
  lemma TouchSequenceEmptiness(variants: TouchStageVariants, selectedKey: Option<Name>, sequence: seq<Path>, i: int, j: int)
    requires 0 <= i <= j <= |sequence|
    requires IsStagePart(variants.stageA, selectedKey, sequence[..i])
    requires IsStagePart(variants.stageB, selectedKey, sequence[i..j])
    requires IsStagePart(variants.stageC, selectedKey, sequence[j..])
    ensures FramesNonEmpty(variants) ==> (sequence == [] <==> NoStages(variants))
  {
    assert sequence == sequence[..i] + sequence[i..j] + sequence[j..];
    if FramesNonEmpty(variants) {
      if variants.stageA != [] {
        StagePartNonEmpty(variants.stageA, selectedKey, sequence[..i]);
      } else if variants.stageB != [] {
        StagePartNonEmpty(variants.stageB, selectedKey, sequence[i..j]);
      } else if variants.stageC != [] {
        StagePartNonEmpty(variants.stageC, selectedKey, sequence[j..]);
      }
    }
  }

  /** A stage with variants, all of them with frames, contributes frames. */
  lemma StagePartNonEmpty(variants: seq<TouchVariant>, selectedKey: Option<Name>, part: seq<Path>)
    requires variants != [] && forall v :: v in variants ==> v.files != []
    requires IsStagePart(variants, selectedKey, part)
    ensures part != []
  {
    if selectedKey.Some? && FirstWithKey(variants, selectedKey.value).Some? {
      var i :| 0 <= i < |variants| && variants[i] == FirstWithKey(variants, selectedKey.value).value;
      assert variants[i] in variants;
    } else {
      var i :| 0 <= i < |variants| && part == variants[i].files;
      assert variants[i] in variants;
    }
  }
}
