/**
 * The older resolver of src/animation/assets.rs and src/animation/variants.rs,
 * as far as it differs from the current one: its fallback goes from the
 * mode straight to Happy with no Nomal tier, its drag loop draws one mode
 * directory and plays every png below it, and its pinch start and end frames
 * come only from the stage sub-directories. The helpers the two versions
 * share are the members of `Assets` and `FileTree`.
 */
module LegacyAssets {
  import opened Common
  import opened FileTree
  import opened Assets

  /** The two-tier selection both older collectors use: `mode` matches, else (for another mode) Happy ones. */
  function ModeElseHappy(dirs: seq<Path>, mode: Mode): (r: seq<Path>)
    ensures IsSublist(r, dirs)
    ensures AnyLastNameMatches(dirs, mode) ==>
      forall p :: p in r <==> p in dirs && LastNameMatchesMode(p, mode)
    ensures !AnyLastNameMatches(dirs, mode) ==>
      forall p :: p in r <==> p in dirs && LastNameMatchesMode(p, Happy)
    ensures r == [] <==> !AnyLastNameMatches(dirs, mode) && !AnyLastNameMatches(dirs, Happy)
  {
    FilterEmpty(dirs, LastNameMatcher(mode));
    FilterEmpty(dirs, LastNameMatcher(Happy));
    var exact := Filter(dirs, LastNameMatcher(mode));
    if exact == [] && mode != Happy then Filter(dirs, LastNameMatcher(Happy)) else exact
  }

  /** `collect_mode_variant_dirs` of the older helpers: png directories of the mode, else Happy ones. */
  function LegacyCollectModeVariantDirs(fs: Dir, root: Path, mode: Mode): (r: seq<Path>)
    ensures IsSublist(r, PngVariantDirs(fs, root))
    ensures AnyLastNameMatches(PngVariantDirs(fs, root), mode) ==>
      forall p :: p in r <==> p in PngVariantDirs(fs, root) && LastNameMatchesMode(p, mode)
    ensures !AnyLastNameMatches(PngVariantDirs(fs, root), mode) ==>
      forall p :: p in r <==> p in PngVariantDirs(fs, root) && LastNameMatchesMode(p, Happy)
    ensures r == [] <==>
      !AnyLastNameMatches(PngVariantDirs(fs, root), mode) && !AnyLastNameMatches(PngVariantDirs(fs, root), Happy)
  {
    ModeElseHappy(PngVariantDirs(fs, root), mode)
  }

  /**
   * The two versions pick the same directories unless the Nomal tier is
   * what the current one falls back to: a tree with no directory of the
   * mode, one of Nomal, and a mode other than Nomal.
   */
  lemma LegacyModeDirsAgree(fs: Dir, root: Path, mode: Mode)
    requires mode == Nomal || AnyLastNameMatches(PngVariantDirs(fs, root), mode)
             || !AnyLastNameMatches(PngVariantDirs(fs, root), Nomal)
    ensures LegacyCollectModeVariantDirs(fs, root, mode) == CollectModeVariantDirs(fs, root, mode)
  {
    var dirs := PngVariantDirs(fs, root);
    FilterEmpty(dirs, LastNameMatcher(mode));
    FilterEmpty(dirs, LastNameMatcher(Nomal));
  }

  /** Where the current version finds Nomal directories, the older one gives Happy ones or nothing. */
  lemma LegacyModeDirsSkipNomal(fs: Dir, root: Path, mode: Mode)
    requires mode != Nomal && !AnyLastNameMatches(PngVariantDirs(fs, root), mode)
    requires AnyLastNameMatches(PngVariantDirs(fs, root), Nomal)
    ensures CollectModeVariantDirs(fs, root, mode) != []
    ensures forall p :: p in CollectModeVariantDirs(fs, root, mode) ==> LastNameMatchesMode(p, Nomal)
    ensures forall p :: p in LegacyCollectModeVariantDirs(fs, root, mode) ==> LastNameMatchesMode(p, Happy)
  {
  }

  // ---------------------------------------------------------------------
  // variants.rs
  // ---------------------------------------------------------------------

  /** The child directories `collect_drag_raise_loop_files` draws from. */
  function LegacyDragLoopDirs(fs: Dir, raiseDynamicRoot: Path, mode: Mode): seq<Path>
  {
    ModeElseHappy(CollectDirPaths(fs, raiseDynamicRoot), mode)
  }

  /**
   * `collect_drag_raise_loop_files` of the older collectors: every png below
   * one drawn child directory of the mode (else of Happy), sorted; nothing
   * when no child directory matches.
   */
  function LegacyCollectDragRaiseLoopFiles(fs: Dir, raiseDynamicRoot: Path, mode: Mode, nanos: nat): (r: seq<Path>)
    ensures LegacyDragLoopDirs(fs, raiseDynamicRoot, mode) == [] ==> r == []
    ensures LegacyDragLoopDirs(fs, raiseDynamicRoot, mode) != [] ==>
      exists d :: d in LegacyDragLoopDirs(fs, raiseDynamicRoot, mode) && r == LoadFramesFlat(fs, d)
  {
    var dirs := LegacyDragLoopDirs(fs, raiseDynamicRoot, mode);
    if dirs == [] then []
    else
      var d := dirs[PseudoRandomIndex(|dirs|, nanos)];
      assert d in dirs;
      LoadFramesFlat(fs, d)
  }

  /** The older drag loop is sorted and made of pngs lying below a child directory of the mode, else of Happy. */
  lemma LegacyDragLoopFramesSpec(fs: Dir, raiseDynamicRoot: Path, mode: Mode, nanos: nat, f: Path)
    ensures SortedPaths(LegacyCollectDragRaiseLoopFiles(fs, raiseDynamicRoot, mode, nanos))
    ensures f in LegacyCollectDragRaiseLoopFiles(fs, raiseDynamicRoot, mode, nanos) ==>
      exists d :: d in CollectDirPaths(fs, raiseDynamicRoot) && IsUnder(f, d)
                  && (LastNameMatchesMode(d, mode) || LastNameMatchesMode(d, Happy))
  {
    var dirs := LegacyDragLoopDirs(fs, raiseDynamicRoot, mode);
    if dirs != [] {
      var d := dirs[PseudoRandomIndex(|dirs|, nanos)];
      assert d in dirs;
      LoadFramesFlatSpec(fs, d, f);
    }
  }

  /** The mode directory the older `collect_pinch_stage_variants` reads: the first of the mode, else the first Happy one. */
  function LegacyPinchModeDir(fs: Dir, pinchRoot: Path, mode: Mode): (r: Option<Path>)
    ensures AnyLastNameMatches(CollectDirPaths(fs, pinchRoot), mode) ==>
      r == FirstMatchingDir(CollectDirPaths(fs, pinchRoot), mode)
    ensures !AnyLastNameMatches(CollectDirPaths(fs, pinchRoot), mode) ==>
      r == FirstMatchingDir(CollectDirPaths(fs, pinchRoot), Happy)
  {
    var dirs := CollectDirPaths(fs, pinchRoot);
    var modeDirs := Filter(dirs, LastNameMatcher(mode));
    assert modeDirs == [] <==> !AnyLastNameMatches(dirs, mode) by {
      FilterEmpty(dirs, LastNameMatcher(mode));
    }
    assert modeDirs != [] ==> Some(modeDirs[0]) == FirstMatchingDir(dirs, mode) by {
      if modeDirs != [] {
        FilterFirst(dirs, LastNameMatcher(mode));
      }
    }
    if modeDirs == [] && mode != Happy then FirstMatchingDir(dirs, Happy)
    else if modeDirs == [] then None
    else Some(modeDirs[0])
  }

  /** The two pinch lookups agree unless the current one falls back to a Nomal directory. */
  lemma LegacyPinchModeDirAgrees(fs: Dir, pinchRoot: Path, mode: Mode)
    requires mode == Nomal || AnyLastNameMatches(CollectDirPaths(fs, pinchRoot), mode)
             || !AnyLastNameMatches(CollectDirPaths(fs, pinchRoot), Nomal)
    ensures LegacyPinchModeDir(fs, pinchRoot, mode) == PinchModeDir(fs, pinchRoot, mode)
  {
  }

  /** `collect_pinch_stage_variants` of the older collectors: the stage-prefixed sub-directories of the selected mode directory. */
  function LegacyCollectPinchStageVariants(fs: Dir, pinchRoot: Path, mode: Mode, stagePrefix: string): (r: seq<seq<Path>>)
    ensures LegacyPinchModeDir(fs, pinchRoot, mode).None? ==> r == []
    ensures LegacyPinchModeDir(fs, pinchRoot, mode).Some? ==> forall x :: x in r <==>
      x != [] && exists d :: d in CollectDirPaths(fs, LegacyPinchModeDir(fs, pinchRoot, mode).value)
                             && StageDirAccepted(d, stagePrefix) && CollectPngFiles(fs, d) == Ok(x)
  {
    match LegacyPinchModeDir(fs, pinchRoot, mode)
    case None => []
    case Some(modeDir) => NonEmptyPngLists(fs, Filter(CollectDirPaths(fs, modeDir), StageDirMatcher(stagePrefix)))
  }

  /** A drawn stage variant, or nothing when the stage has none (`swap_remove` of the drawn index). */
  function LegacyPinchStageFiles(fs: Dir, pinchRoot: Path, mode: Mode, stagePrefix: string, nanos: nat): (r: seq<Path>)
    ensures r == [] <==> LegacyCollectPinchStageVariants(fs, pinchRoot, mode, stagePrefix) == []
    ensures r != [] ==> r in LegacyCollectPinchStageVariants(fs, pinchRoot, mode, stagePrefix)
  {
    var variants := LegacyCollectPinchStageVariants(fs, pinchRoot, mode, stagePrefix);
    if variants == [] then []
    else
      var chosen := variants[PseudoRandomIndex(|variants|, nanos)];
      assert chosen in variants;
      chosen
  }

  /** `collect_pinch_start_files` of the older collectors: an "A" stage variant only. */
  function LegacyCollectPinchStartFiles(fs: Dir, pinchRoot: Path, mode: Mode, nanos: nat): seq<Path>
  {
    LegacyPinchStageFiles(fs, pinchRoot, mode, "A", nanos)
  }

  /** `collect_pinch_loop_variants` of the older collectors. */
  function LegacyCollectPinchLoopVariants(fs: Dir, pinchRoot: Path, mode: Mode): seq<seq<Path>>
  {
    LegacyCollectPinchStageVariants(fs, pinchRoot, mode, "B")
  }

  /** `collect_pinch_end_files` of the older collectors: a "C" stage variant only. */
  function LegacyCollectPinchEndFiles(fs: Dir, pinchRoot: Path, mode: Mode, nanos: nat): seq<Path>
  {
    LegacyPinchStageFiles(fs, pinchRoot, mode, "C", nanos)
  }

  /**
   * Where the older collector finds a stage variant, the current one
   * returns the same frames unless its tiered segment lookup finds frames
   * first; the older one never reads the flat tiers.
   */
  lemma LegacyPinchStartAgrees(fs: Dir, pinchRoot: Path, mode: Mode, nanos: nat)
    requires mode == Nomal || AnyLastNameMatches(CollectDirPaths(fs, pinchRoot), mode)
             || !AnyLastNameMatches(CollectDirPaths(fs, pinchRoot), Nomal)
    requires LoadFramesWithFallback(fs, pinchRoot, mode, A, nanos) == []
    ensures LegacyCollectPinchStartFiles(fs, pinchRoot, mode, nanos) == CollectPinchStartFiles(fs, pinchRoot, mode, nanos)
  {
    LegacyPinchModeDirAgrees(fs, pinchRoot, mode);
  }

  /** `collect_shutdown_variants` of the older collectors: the png lists of the two-tier variant directories. */
  function LegacyCollectShutdownVariants(fs: Dir, shutdownRoot: Path, mode: Mode): (r: seq<seq<Path>>)
    ensures forall x :: x in r <==> x != [] && exists d :: d in LegacyCollectModeVariantDirs(fs, shutdownRoot, mode)
                                                         && CollectPngFiles(fs, d) == Ok(x)
  {
    NonEmptyPngLists(fs, LegacyCollectModeVariantDirs(fs, shutdownRoot, mode))
  }

  /** `select_default_files_for_mode` of the older collectors: a variant of the mode's list, else of Happy's, else nothing. */
  function LegacySelectDefaultFilesForMode(mode: Mode, happy: seq<seq<Path>>, nomal: seq<seq<Path>>,
                                           poorCondition: seq<seq<Path>>, ill: seq<seq<Path>>, nanos: nat): (r: seq<Path>)
    ensures VariantsForMode(mode, happy, nomal, poorCondition, ill) != [] ==>
      r in VariantsForMode(mode, happy, nomal, poorCondition, ill)
    ensures VariantsForMode(mode, happy, nomal, poorCondition, ill) == [] && happy != [] ==> r in happy
    ensures VariantsForMode(mode, happy, nomal, poorCondition, ill) == [] && happy == [] ==> r == []
  {
    PickRandomVariant(VariantsForMode(mode, happy, nomal, poorCondition, ill), nanos)
      .OrElse(PickRandomVariant(happy, nanos))
      .UnwrapOr([])
  }

  /** The two default selections agree whenever the mode's own list is non-empty or Nomal's is empty. */
  lemma LegacyDefaultFilesAgree(mode: Mode, happy: seq<seq<Path>>, nomal: seq<seq<Path>>,
                                poorCondition: seq<seq<Path>>, ill: seq<seq<Path>>, nanos: nat)
    requires VariantsForMode(mode, happy, nomal, poorCondition, ill) != [] || nomal == []
    ensures LegacySelectDefaultFilesForMode(mode, happy, nomal, poorCondition, ill, nanos)
            == SelectDefaultFilesForMode(mode, happy, nomal, poorCondition, ill, nanos)
  {
  }

  /** With the mode's and Happy's lists empty but Nomal's not, only the current selection finds frames. */
  lemma LegacyDefaultFilesSkipNomal(mode: Mode, happy: seq<seq<Path>>, nomal: seq<seq<Path>>,
                                    poorCondition: seq<seq<Path>>, ill: seq<seq<Path>>, nanos: nat)
    requires VariantsForMode(mode, happy, nomal, poorCondition, ill) == [] && happy == [] && nomal != []
    requires forall x :: x in nomal ==> x != []
    ensures LegacySelectDefaultFilesForMode(mode, happy, nomal, poorCondition, ill, nanos) == []
    ensures SelectDefaultFilesForMode(mode, happy, nomal, poorCondition, ill, nanos) in nomal
    ensures SelectDefaultFilesForMode(mode, happy, nomal, poorCondition, ill, nanos) != []
  {
  }
}
