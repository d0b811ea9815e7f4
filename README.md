# jialuoPet animation sequencing engine, in Dafny

jialuoPet is a desktop pet. Every 130 ms (`CAROUSEL_INTERVAL_MS`) its animation engine picks exactly one frame, a PNG path, to show. This project models that engine and proves what its parts promise.

## What is modelled

- **Request mailbox** (`requests.dfy`, module `Requests`). Gesture handlers write four one-slot channels: drag, pinch, shutdown and touch. There is also a shutdown-finished flag. The process-wide atomics are the fields of one `Mailbox` object. `Consume` drains the channels: it returns their values and leaves each channel idle.
- **Asset tree** (`file_tree.dfy`, module `FileTree`). The directories the engine reads form one `Dir` value, with paths as sequences of names. Every `read_dir`, `is_dir` and extension check is a walk over that value. The recursive directory readers are methods proved against pre-order listing functions.
- **Frame-source resolver** (`assets.dfy`, module `Assets`). This is `src/animation/assets/mod.rs`:
  - mode-keyword matching: a case-insensitive substring test, with Nomal spelled `nomal`;
  - a three-tier fallback: the exact mode, then Nomal, then Happy;
  - stage-branch filtering;
  - touch variant keys;
  - building the touch sequence from keys shared by the A, B and C stages.

  The clock reading behind `pseudo_random_index` is an explicit `nanos` argument of the pure resolvers. Methods obtain it from `ReadClock`, which may return any reading below 2^64.
- **Older resolver** (`legacy_assets.dfy`, module `LegacyAssets`). These are the functions of `src/animation/assets.rs` and `src/animation/variants.rs` that differ from the current resolver: a fallback with no Nomal tier, one drawn drag loop directory, and pinch start and end frames taken only from the stage sub-directories. Lemmas state where the older and current resolvers agree and where they differ. Code the two versions share word for word is modelled once, in `Assets` and `FileTree`; `src/animation/touch.rs` is such a copy of the touch part of `assets/mod.rs`. Its `collect_touch_stage_variants` (lines 23-79), `collect_touch_variants` (81-87), `extend_stage_sequence` (89-110) and `build_touch_sequence` (112-143) are `Assets.CollectTouchStageVariants`, `Assets.CollectTouchVariants`, `Assets.ExtendStageSequence` and `Assets.BuildTouchSequence`. Likewise `pseudo_random_index`, `dir_name_matches_mode`, `collect_png_variant_dirs_recursive`, the `path_*` predicates and `touch_variant_key` of `src/animation/assets.rs` are `Assets.PseudoRandomIndex`, `Assets.DirNameMatchesMode`, `FileTree.CollectPngVariantDirsRecursive`, `Assets.PathMatchesMode`, `Assets.PathContainsKeyword`, `Assets.PathInStageBranch` and `Assets.TouchVariantKey`.
- **Players** (`startup.dfy`, `shutdown_player.dfy`, `touch_player.dfy`, `pinch_player.dfy`, `drag_player.dfy`, `default_idle.dfy`). Each player of `src/animation/player/` is a class with the source's fields. Its methods carry `modifies` clauses and state the player's whole new state. Lemmas relate successive calls, for example "each frame once, then inactive", "the loop never ends by itself" and "the hold frame persists". Where a player does not override the trait's `stop`, `stop` is `interrupt(true)`. `PinchPlayer` and `StartupPlayer` have `stop` and no `interrupt`, as in the source.
- **Unwired ABC players** (`state_player.dfy`, `idle_player.dfy`). These are `StatePlayer` and `IdlePlayer`. What one call does is a function on a value snapshot of the player's fields (`PlayStep`, `Step`). The class methods are proved to apply it. One behaviour of `StatePlayer` is modelled as written: when a cycle's B part ends and there is no C, `finish_cycle` clears the held frame, and lines 232-237 then set it again to the last B frame. So the next cycle's first calls repeat that frame. The lemma `StateAnimation.BStep` states this.
- **Coordinator** (`coordinator.dfy`, module `Coordinator`). `PlayerSet` holds the players and the mode.
  - The reload on a mode change.
  - The dispatch of drained requests, stated as a plan of calls: shutdown preempts everything; pinch waits for drag; touch waits for drag and pinch.
  - The advance step: the first active player supplies the frame; if it gives none, it is stopped and the default idle player is entered.
  - The order of one tick: drain the mailbox, reload when startup is inactive and the mode changed, dispatch, advance.
- **Legacy monolithic tick** (`legacy_carousel.dfy`, module `LegacyCarousel`). `CarouselState` of `src/animation.rs` is a class. Its fields are grouped into one record per animation: startup, default idle, drag raise, pinch, touch and shutdown. The timer closure is `Tick`, made of four steps with their own contracts:
  1. reload and touch dispatch;
  2. shutdown, drag and pinch dispatch;
  3. the forced frame;
  4. `Advance` over the fixed source order.
- **Shared vocabulary** (`common.dfy`, module `Common`). This holds:
  - the pet's `Mode`;
  - `Option` and `Result`;
  - paths;
  - the `u8`, `u32` and `usize` ranges, with the wrapping and saturating additions the players use;
  - ASCII lower-casing;
  - the component-wise path order behind `PathBuf::sort`, with a verified insertion sort.

Two helpers that the source imports but whose code is not available here are oracle inputs: a `DefaultIdle.AbcSequence` for `choose_idle_abc_sequence`, and the static B variants given to `DragRaisePlayer` for `collect_drag_raise_static_b_variants`. The mode comes from the stats service's `cal_mode` and is a parameter.

## Model

| member | source | states |
|---|---|---|
| Common.WrappingAddU32 | src/animation/player/default_idle.rs:145 | `u32::wrapping_add`: the sum when it fits in 32 bits, else the sum less 2^32 |
| Common.SaturatingAddU32 | src/animation/player/drag_raise.rs:104 | `u32::saturating_add`: the sum when it fits, else `u32::MAX` |
| Common.ToAsciiLowerIdempotent | src/animation/assets/mod.rs:137 | `to_ascii_lowercase` applied twice is applied once, and leaves no ASCII capital |
| Common.ContainsIff | src/animation/assets/mod.rs:137 | the substring test `contains` holds iff the needle occurs at some offset |
| Common.SortPaths | src/animation/assets/mod.rs:365 | `Vec<PathBuf>::sort`: a sorted permutation of its input |
| Common.FilterEmpty | src/animation/assets/mod.rs:183-222 | a `filter(..).collect()` chain is empty iff no element passes the test |
| FileTree.CollectPngFiles | src/animation/assets/mod.rs:56-76 | fails (as `read_dir` does) iff the path is not a directory; otherwise holds exactly the `.png` files directly inside it |
| FileTree.Visit | src/animation/assets/mod.rs:150-174 | the inner `visit` appends the directory when it holds a png, then the listing of each sub-directory, in order |
| FileTree.CollectPngVariantDirsRecursive | src/animation/assets/mod.rs:149-181 | the method's pushed-to vector is the pre-order listing `PngVariantDirs` |
| FileTree.PngVariantDirsMembership | src/animation/assets/mod.rs:149-181 | a path is listed iff the root is a directory and the path names a directory at or below it that directly holds a png; nothing when the root is not a directory |
| FileTree.ParentListedFirst | src/animation/assets/mod.rs:150-174 | pre-order: a listed directory's listed ancestor comes before it |
| FileTree.VisitDir | src/animation/assets/mod.rs:86-119 | appends the png files of the directory and, recursively, of every sub-directory whose name is not excluded |
| FileTree.AllFramesMembership | src/animation/assets/mod.rs:86-119 | a path is visited iff it names a png reachable through directories none of whose names is excluded |
| FileTree.CollectPngFilesRecursiveFiltered | src/animation/assets/mod.rs:78-125 | the method computes `RecursivePngFiles` |
| FileTree.RecursivePngFilesSpec | src/animation/assets/mod.rs:78-125 | fails iff the path is not a directory; otherwise sorted, and holding exactly the reachable pngs |
| Requests.Mailbox.constructor | src/animation/requests.rs:20-24 | every channel starts idle and the finished flag false |
| Requests.Mailbox.RequestDragRaiseAnimationStart | src/animation/requests.rs:33-35 | only the drag channel changes, to START; the other channels and the finished flag keep their values |
| Requests.Mailbox.RequestDragRaiseAnimationLoop | src/animation/requests.rs:37-39 | only the drag channel changes, to LOOP; a pending value is overwritten |
| Requests.Mailbox.RequestDragRaiseAnimationEnd | src/animation/requests.rs:41-43 | only the drag channel changes, to END |
| Requests.Mailbox.RequestPinchAnimationStart | src/animation/requests.rs:45-47 | only the pinch channel changes, to START |
| Requests.Mailbox.RequestPinchAnimationEnd | src/animation/requests.rs:49-51 | only the pinch channel changes, to END |
| Requests.Mailbox.RequestShutdownAnimation | src/animation/requests.rs:53-56 | the shutdown channel becomes REQUESTED and the finished flag false; the other channels keep their values |
| Requests.Mailbox.RequestTouchHeadAnimation | src/animation/requests.rs:58-60 | only the touch channel changes, to HEAD |
| Requests.Mailbox.RequestTouchBodyAnimation | src/animation/requests.rs:62-64 | only the touch channel changes, to BODY |
| Requests.Mailbox.IsShutdownAnimationFinished | src/animation/requests.rs:66-68 | returns the finished flag |
| Requests.Mailbox.SetShutdownAnimationFinished | src/animation/requests.rs:70-72 | the flag takes the value; no channel changes |
| Requests.Mailbox.ConsumeRequests | src/animation/requests.rs:74-81 | returns the four channel values as they were, leaves every channel idle and the flag as it was; what it returns is reachable: no trigger writes pinch LOOP, so pinch holds 0, 1 or 3, drag 0..3, shutdown 0..1, touch 0..2 |
| Requests.DrainTwice | src/animation/requests.rs:74-81 | a second drain with no trigger in between returns all channels idle |
| Requests.DragStartThenEnd | src/animation/requests.rs:33-43 | of two triggers on one channel before a drain, the drain reads only the later |
| Startup.StartupPlayer.Remaining | src/animation/player/startup.rs:33-49 | the frames still to come are empty exactly when the player is inactive (`is_active` is `active && !files.is_empty()`) |
| Startup.StartupPlayer.constructor | src/animation/player/startup.rs:16-25 | the files are a choice `choose_startup_animation_files` can make (empty when it finds none), index 0, active iff there are files; all of them are still to come |
| Startup.StartupPlayer.PeekFirstFrame | src/animation/player/startup.rs:27-29 | the first file, or None when there are none; nothing changes |
| Startup.StartupPlayer.NextFrame | src/animation/player/startup.rs:37-50 | inactive: None and nothing changes; active: `files[index]`, and the frames still to come lose exactly that head, so the files are emitted once each, in order, and the last makes the player inactive |
| Startup.StartupPlayer.Stop | src/animation/player/startup.rs:52-56 | inactive, no files, index 0 |
| Startup.StartupPlayer.Reload | src/animation/player/startup.rs:58-60 | nothing changes |
| Shutdown.ShutdownPlayer.Remaining | src/animation/player/shutdown.rs:53-74 | frames are still to come only while playing |
| Shutdown.ShutdownPlayer.constructor | src/animation/player/shutdown.rs:19-29 | the variants `collect_shutdown_variants` gives for the mode, not playing, no hold frame, so inactive |
| Shutdown.ShutdownPlayer.Start | src/animation/player/shutdown.rs:31-45 | with no variants: not playing and finished set; otherwise finished cleared, a drawn variant playing from index 0 with its first frame as the hold frame |
| Shutdown.ShutdownPlayer.NextFrame | src/animation/player/shutdown.rs:53-74 | while playing: `files[index]`, which becomes the hold frame, playing goes on iff a frame follows and the last one sets finished; otherwise the hold frame and nothing changes; a set hold frame keeps the player active and a frame returned |
| Shutdown.ShutdownPlayer.Interrupt | src/animation/player/shutdown.rs:76-83 | playback stops with no files and index 0; the hold frame is kept unless `skip_to_end` |
| Shutdown.ShutdownPlayer.Stop | src/animation/player/mod.rs:23-25 | the trait's `stop` is `interrupt(true)`: the hold frame is cleared and the player is inactive |
| Shutdown.ShutdownPlayer.Reload | src/animation/player/shutdown.rs:85-87 | only the variants are replaced, by those of the new mode |
| Touch.TouchPlayer.Remaining | src/animation/player/touch.rs:67-85 | frames are still to come exactly when the mode is not None |
| Touch.TouchPlayer.constructor | src/animation/player/touch.rs:26-39 | head and body variants as `collect_touch_variants` gives them, stopped |
| Touch.TouchPlayer.StartHead | src/animation/player/touch.rs:41-51 | with no head stage: nothing changes, startup included; otherwise startup stopped, mode Head, index 0, files the non-empty sequence `build_touch_sequence` makes of the head variants |
| Touch.TouchPlayer.StartBody | src/animation/player/touch.rs:53-63 | as `StartHead`, with the body variants and mode Body |
| Touch.TouchPlayer.NextFrame | src/animation/player/touch.rs:71-85 | inactive: None; active: `files[index]` and the frames still to come lose that head, so each file once, in order; when none is left the player is stopped (None, no files, index 0) |
| Touch.TouchPlayer.Interrupt | src/animation/player/touch.rs:87-91 | stopped, whatever `skip_to_end` says; the variants stay |
| Touch.TouchPlayer.Stop | src/animation/player/mod.rs:23-25 | mode None, files empty, index 0 |
| Touch.TouchPlayer.Reload | src/animation/player/touch.rs:93-97 | both variant sets re-collected for the mode, stopped |
| Pinch.LoadPinchSegments | src/animation/player/pinch.rs:32-35 | the start files, loop variants and end files are the ones the pinch collectors give for the mode |
| Pinch.PinchPlayer.constructor | src/animation/player/pinch.rs:32-48 | the collected segments, no loop files, every cursor 0, inactive |
| Pinch.PinchPlayer.RedrawLoop | src/animation/player/pinch.rs:60-63 | a loop variant is drawn from the non-empty variants and the loop cursor rewinds; mode and other cursors kept |
| Pinch.PinchPlayer.Start | src/animation/player/pinch.rs:50-67 | start files present: Start at index 0; else loop variants present: Loop with a drawn variant at index 0, Start never entered and its cursor kept; either way touch and startup stopped and the End cursor kept; neither: nothing changes |
| Pinch.PinchPlayer.ContinueLoop | src/animation/player/pinch.rs:69-83 | in Start or with no loop variants nothing changes; else touch and startup stop and the mode is Loop, redrawing only when it was not looping or its loop files were empty; the Start and End cursors are kept |
| Pinch.PinchPlayer.End | src/animation/player/pinch.rs:85-95 | no end files: mode None at once, touch and startup untouched; else End at index 0, touch and startup stopped; the Start cursor is kept |
| Pinch.PinchPlayer.NextFrame | src/animation/player/pinch.rs:103-159 | Start and End emit each frame once in order (the last Start frame is followed by Loop with a drawn variant, or None); Loop emits its frames and after the last redraws a variant at index 0, staying in Loop; an empty segment makes the player idle and returns None; the segments themselves never change, nor the cursors of segments not playing (the loop cursor moves only when Start hands over to Loop) |
| Pinch.PinchPlayer.Stop | src/animation/player/pinch.rs:161-167 | mode None, loop files dropped, all cursors 0; start and end files and loop variants kept |
| Pinch.PinchPlayer.Reload | src/animation/player/pinch.rs:169-177 | every segment re-collected for the mode, loop files dropped, cursors 0, the playback mode kept |
| Pinch.PinchPlayer.ReplaceSegments | src/animation/player/pinch.rs:169-177 | the state change of `reload` once the segments are collected |
| Assets.PseudoRandomIndex | src/animation/assets/mod.rs:44-54 | an empty collection gives index 0; otherwise the index is below the length |
| Assets.PseudoRandomIndexReachesAll | src/animation/assets/mod.rs:44-54 | every index of a `usize`-sized collection is drawn at some clock reading |
| Assets.ReadClock | src/animation/assets/mod.rs:49-52 | the nanosecond reading, truncated by `as usize`, is below 2^64 |
| Assets.DirNameMatchesModeIff | src/animation/assets/mod.rs:127-138 | a name matches a mode iff the lower-cased name holds the mode keyword at some offset; names equal up to ASCII case agree |
| Assets.NormalIsNotNomal | src/animation/assets/mod.rs:127-138 | the Nomal keyword is `nomal`: "Normal" does not match it, "Nomal_1" does |
| Assets.FirstStageIndex | src/animation/assets/mod.rs:606-608 | `position`: none iff no component carries the stage prefix, else the first one that does |
| Assets.TouchVariantKey | src/animation/assets/mod.rs:596-612 | a key exists iff the path is under the root and a stage-prefixed component has a successor; the key is that successor lower-cased, after the first such component |
| Assets.NonEmptyPngLists | src/animation/assets/mod.rs:309-324 | the `filter_map` over directories keeps exactly the non-empty png lists that could be read |
| Assets.CollectModeVariantDirs | src/animation/assets/mod.rs:183-222 | an ordered sub-list of the png directories: those named for the mode, else those named Nomal, else those named Happy; empty iff none of the three tiers has one |
| Assets.OnlyHappyDirsServeEveryMode | src/animation/assets/mod.rs:183-222 | when every png directory is a Happy one (and of no other mode), every mode gets all of them |
| Assets.ChooseStartupAnimationFiles | src/animation/assets/mod.rs:224-274 | a result is the non-empty png list of an accepted top-level directory; none iff every accepted directory is unreadable or holds no png |
| Assets.HappyIdleVariantsErr | src/animation/assets/mod.rs:276-288 | the `?` fails iff a configured directory is missing, and then reports the first missing one |
| Assets.HappyIdleVariantsOk | src/animation/assets/mod.rs:276-288 | on success the list holds exactly the non-empty png lists of the configured directories |
| Assets.CollectDefaultHappyIdleVariants | src/animation/assets/mod.rs:276-288 | the loop computes the Happy idle list, error included |
| Assets.CollectDefaultModeIdleVariants | src/animation/assets/mod.rs:290-325 | only non-empty lists; Happy falls back to empty on error; other modes get exactly the non-empty png lists under their idle root |
| Assets.PickRandomVariant | src/animation/assets/mod.rs:327-333 | none iff there are no variants; otherwise the variant at the drawn index |
| Assets.SelectDefaultFilesForMode | src/animation/assets/mod.rs:335-353 | a variant of the mode's list, else of Nomal's, else of Happy's, else the empty list |
| Assets.SegmentDirs | src/animation/assets/mod.rs:355-363 | exactly the png directories whose path names the mode and, for a staged segment, lies in the stage branch |
| Assets.CollectSegmentVariantsForMode | src/animation/assets/mod.rs:355-377 | exactly the non-empty png lists of those directories |
| Assets.LoadFramesWithFallback | src/animation/assets/mod.rs:383-397 | a variant of the mode, else Nomal, else Happy, else the flat recursive list; non-empty whenever a tier has a variant |
| Assets.LoadFramesEmptinessIgnoresClock | src/animation/assets/mod.rs:383-397 | whether the result is empty does not depend on the clock reading |
| Assets.LoadFramesFlatSpec | src/animation/assets/mod.rs:379-381 | the flat fallback is sorted and holds exactly the pngs below the root |
| Assets.CollectDragRaiseStartFiles | src/animation/assets/mod.rs:406-408 | there are never drag start frames |
| Assets.CollectDragRaiseEndVariants | src/animation/assets/mod.rs:410-446 | non-empty png lists of `c_` directories of the mode or of Happy; exactly those of the mode when the mode has a `c_` directory; exactly those of Happy when the mode is not Happy and has none |
| Assets.FirstMatchingDir | src/animation/assets/mod.rs:464-472 | `find`: none iff no directory matches, else the first directory that does |
| Assets.PinchModeDir | src/animation/assets/mod.rs:453-478 | the first directory of the mode, else the first Nomal one, else the first Happy one |
| Assets.PinchModeDirIsMatching | src/animation/assets/mod.rs:453-478 | the chosen directory is listed and matches one of the three tiers; none iff no tier matches |
| Assets.CollectPinchStageVariants | src/animation/assets/mod.rs:448-512 | empty without a mode directory; else exactly the non-empty png lists of its stage-prefixed sub-directories |
| Assets.PinchSegmentFiles | src/animation/assets/mod.rs:514-544 | the tiered segment frames when there are any, else a stage variant of the mode directory, empty iff there is none |
| Assets.CollectShutdownVariants | src/animation/assets/mod.rs:546-558 | exactly the non-empty png lists of the tiered mode variant directories |
| Assets.TouchStageOrder | src/animation/assets/mod.rs:618-652 | each filtering step keeps the order of the png variant directories, so the result is a sublist of them |
| Assets.TouchStageTiers | src/animation/assets/mod.rs:632-654 | the directories kept are exactly those of the first non-empty tier: the mode, then Nomal, then Happy, with `happy_turn` removed under Touch_Body |
| Assets.TouchStageDirs | src/animation/assets/mod.rs:618-652 | an order-preserving sublist of the png variant directories; a directory is in it iff it lies in the stage branch and matches the first non-empty tier (the mode, excluding `happy_turn` for Happy under Touch_Body; else Nomal; else Happy) and is not `happy_turn` under Touch_Body |
| Assets.TouchVariantsOf | src/animation/assets/mod.rs:654-669 | each variant is a readable non-empty directory with its key, and every such directory yields one |
| Assets.CollectTouchStageVariants | src/animation/assets/mod.rs:614-670 | every variant has frames from a stage-branch png directory of an allowed mode, with its key, and no `happy_turn` directory under Touch_Body; it comes from a directory of the chosen tier, and every directory of that tier with readable, non-empty frames yields its variant |
| Assets.CollectTouchVariants | src/animation/assets/mod.rs:672-678 | every variant of all three stages has frames |
| Assets.FirstWithKey | src/animation/assets/mod.rs:690-693 | `find` by key: none iff no variant has the key, else the first that has it |
| Assets.ExtendStageSequence | src/animation/assets/mod.rs:680-701 | the output keeps its prefix and gains one stage part: nothing for no variants, the first variant with the shared key, else a drawn variant |
| Assets.SharedKeysIff | src/animation/assets/mod.rs:704-719 | a key is shared iff it is an A-stage key present in stages B and C |
| Assets.CollectSharedKeys | src/animation/assets/mod.rs:704-719 | the loop collects the shared keys in A-stage order |
| Assets.BuildTouchSequence | src/animation/assets/mod.rs:703-734 | a stage-by-stage sequence; with frames everywhere, empty iff every stage is empty; with a shared key, exactly the A, B and C files of that key |
| Assets.TouchSequenceOfParts | src/animation/assets/mod.rs:726-731 | three stage parts around a selectable key make a sequence with the promised shape |
| Assets.TouchSequenceEmptiness | src/animation/assets/mod.rs:726-731 | with frames in every variant, the sequence is empty iff every stage is |
| Assets.StagePartNonEmpty | src/animation/assets/mod.rs:680-701 | a stage with variants, all with frames, contributes frames |
| LegacyAssets.ModeElseHappy | src/animation/assets.rs:150-176 | the two-tier filter: an ordered sub-list holding the directories of the mode, else the Happy ones; empty iff neither tier has one |
| LegacyAssets.LegacyCollectModeVariantDirs | src/animation/assets.rs:150-176 | the older `collect_mode_variant_dirs`: png directories of the mode, else Happy ones, in listing order |
| LegacyAssets.LegacyModeDirsAgree | src/animation/assets.rs:150-176 | the older and current directory selections agree unless the current one falls back to Nomal |
| LegacyAssets.LegacyModeDirsSkipNomal | src/animation/assets.rs:150-176 | where the current version picks Nomal directories, the older one gives Happy ones or none |
| LegacyAssets.LegacyCollectDragRaiseLoopFiles | src/animation/variants.rs:61-90 | nothing without a child directory of the mode (or Happy); otherwise the flat png list of one of them |
| LegacyAssets.LegacyDragLoopFramesSpec | src/animation/variants.rs:61-90 | the older drag loop is sorted and every frame lies below a child directory of the mode or of Happy |
| LegacyAssets.LegacyPinchModeDir | src/animation/variants.rs:131-160 | the first directory of the mode, else the first Happy one |
| LegacyAssets.LegacyPinchModeDirAgrees | src/animation/variants.rs:131-160 | the older and current pinch lookups agree unless the current one falls back to Nomal |
| LegacyAssets.LegacyCollectPinchStageVariants | src/animation/variants.rs:131-181 | empty without a mode directory; else exactly the non-empty png lists of its stage-prefixed sub-directories |
| LegacyAssets.LegacyPinchStageFiles | src/animation/variants.rs:183-203 | a drawn stage variant, empty iff the stage has none |
| LegacyAssets.LegacyPinchStartAgrees | src/animation/variants.rs:183-190 | when the current tiered segment lookup finds nothing and no Nomal fallback is involved, both start selections agree |
| LegacyAssets.LegacyCollectShutdownVariants | src/animation/variants.rs:205-217 | exactly the non-empty png lists of the two-tier variant directories |
| LegacyAssets.LegacySelectDefaultFilesForMode | src/animation/variants.rs:278-295 | a variant of the mode's list, else of Happy's, else nothing |
| LegacyAssets.LegacyDefaultFilesAgree | src/animation/variants.rs:278-295 | the older and current default selections agree when the mode's list is non-empty or Nomal's is empty |
| LegacyAssets.LegacyDefaultFilesSkipNomal | src/animation/variants.rs:278-295 | with only Nomal variants, the older selection is empty while the current one draws a Nomal variant |
| DefaultIdle.ChooseIdleAbcCooldown | src/animation/player/default_idle.rs:92-97 | the cooldown is a tick count between the minimum and the larger of the two bounds |
| DefaultIdle.CooldownCoversRange | src/animation/player/default_idle.rs:92-97 | every tick count of that range is drawn at some clock reading |
| DefaultIdle.ChooseBRepeats | src/animation/player/default_idle.rs:183-188 | the number of B passes is 2, 3 or 4 |
| DefaultIdle.BRepeatsCoversRange | src/animation/player/default_idle.rs:183-188 | each of 2, 3 and 4 is drawn at some clock reading |
| DefaultIdle.BFramesLeftWrap | src/animation/player/default_idle.rs:206-213 | rewinding B for another pass takes exactly one frame off what B still owes |
| DefaultIdle.BFramesLeftFresh | src/animation/player/default_idle.rs:183-188 | at the first frame of a fresh B segment, all passes but that frame are owed |
| DefaultIdle.LoadModeIdleVariants | src/animation/player/default_idle.rs:48-51 | the Nomal, PoorCondition and Ill lists as collected, every variant with frames |
| DefaultIdle.HappyIdleFramesNonEmpty | src/animation/player/default_idle.rs:42-46 | every Happy idle variant found has frames |
| DefaultIdle.NewDefaultIdlePlayer | src/animation/player/default_idle.rs:42-90 | an unreadable Happy idle directory or an empty Happy list is an error, and only those; otherwise a valid player in the default phase with the collected lists and a non-empty default variant |
| DefaultIdle.DefaultIdlePlayer.constructor | src/animation/player/default_idle.rs:53-89 | the idle root, the cooldown bounds and a drawn cooldown, a drawn default variant at index 0, the default phase, no segments |
| DefaultIdle.DefaultIdlePlayer.SelectionNonEmpty | src/animation/player/default_idle.rs:99-108 | a drawn default variant has frames iff one of the lists it falls back through has a variant |
| DefaultIdle.DefaultIdlePlayer.ChooseCooldown | src/animation/player/default_idle.rs:92-97 | the draw within the player's cooldown bounds |
| DefaultIdle.DefaultIdlePlayer.RefreshSelection | src/animation/player/default_idle.rs:99-108 | a default variant drawn anew for the current mode from index 0; nothing else changes |
| DefaultIdle.DefaultIdlePlayer.Enter | src/animation/player/default_idle.rs:110-116 | a fresh selection, the default phase, tick 0, and its first frame, which exists iff some list has a variant |
| DefaultIdle.DefaultIdlePlayer.NextDefaultFrame | src/animation/player/default_idle.rs:118-126 | nothing for an empty default variant; otherwise the cursor advances modulo its length and that frame comes out |
| DefaultIdle.DefaultIdlePlayer.FirstOrNextDefault | src/animation/player/default_idle.rs:166-189 | the first frame of a segment when it has one, else the next default frame |
| DefaultIdle.DefaultIdlePlayer.TakeIdleAbcFinished | src/animation/player/default_idle.rs:128-132 | returns the one-shot flag and lowers it; nothing else changes |
| DefaultIdle.DefaultIdlePlayer.NextFrame | src/animation/player/default_idle.rs:144-246 | the tick wraps forward; the finished flag rises exactly on the call that leaves C; each phase steps as its own predicate says; no frame only for an empty default variant |
| DefaultIdle.DefaultIdlePlayer.DefaultStep | src/animation/player/default_idle.rs:148-168 | a cooldown tick counts down with a default frame; at zero an available A/B/C sequence starts at A's first frame, else the default loop steps |
| DefaultIdle.DefaultIdlePlayer.AStep | src/animation/player/default_idle.rs:169-190 | an empty A returns to default; A advances; past its end B starts with 2 to 4 passes, showing B's, else C's, else a default frame |
| DefaultIdle.DefaultIdlePlayer.BStep | src/animation/player/default_idle.rs:191-222 | an empty B moves to C; B advances; rewinds while passes remain; then C starts |
| DefaultIdle.DefaultIdlePlayer.CStep | src/animation/player/default_idle.rs:223-245 | C advances; past its end (or when empty) the default phase resumes at frame 0 with the finished flag and a new cooldown |
| DefaultIdle.DefaultIdlePlayer.Interrupt | src/animation/player/default_idle.rs:248-253 | the default phase, tick 0, the flag lowered and a new cooldown; the default cursor and the segments stay |
| DefaultIdle.DefaultIdlePlayer.Reload | src/animation/player/default_idle.rs:255-271 | the mode set, the lists collected anew (an unreadable Happy list counting as empty), segments dropped, the default phase with a new cooldown, a default variant drawn from index 0 |
| DefaultIdle.DefaultIdlePlayer.ReplaceLists | src/animation/player/default_idle.rs:256-267 | the collected lists installed, segments dropped, the default phase with tick 0 and the flag lowered |
| DragRaise.DragStaticTriggerTicks | src/animation/player/drag_raise.rs:76-78 | the 20-second trigger delay rounded up to whole carousel ticks: the least tick count covering it |
| DragRaise.ChooseStaticBLoopCount | src/animation/player/drag_raise.rs:80-83 | a loop count between 3 and 7 inclusive |
| DragRaise.LoopCountCoversRange | src/animation/player/drag_raise.rs:80-83 | each count from 3 to 7 is drawn at some clock reading |
| DragRaise.CallsLeftAdvance | src/animation/player/drag_raise.rs:243-259 | showing a B frame before the loop's last hands one call less to the next frame, held once |
| DragRaise.CallsLeftWrap | src/animation/player/drag_raise.rs:247-259 | the last frame of a loop with more to go costs one call and rewinds to the first frame |
| DragRaise.CallsLeftLast | src/animation/player/drag_raise.rs:250-257 | the last frame of the last loop is the last call of the cycle |
| DragRaise.LoadDragSegments | src/animation/player/drag_raise.rs:48-53 | start frames, the dynamic loop and the end variants as the collectors give them for the mode |
| DragRaise.StopOthers | src/animation/player/drag_raise.rs:129-131 | startup, pinch and touch stop |
| DragRaise.DragRaisePlayer.constructor | src/animation/player/drag_raise.rs:47-74 | the roots, the collected segments, the given B variants, and a reset idle player |
| DragRaise.DragRaisePlayer.PrepareStaticBCycle | src/animation/player/drag_raise.rs:85-97 | a B variant and a loop count drawn with cursors reset; succeeds iff there is a variant and it has frames; a fresh cycle of R loops over n frames then lasts 2Rn - 1 calls |
| DragRaise.DragRaisePlayer.MaybeTriggerStaticCycle | src/animation/player/drag_raise.rs:99-120 | outside the dynamic loop nothing changes; inside, the saturating tick count reaching the trigger resets it and starts the static start, else a prepared B cycle |
| DragRaise.DragRaisePlayer.Start | src/animation/player/drag_raise.rs:122-136 | with dynamic frames the others stop and the dynamic loop starts from frame 0 with the tick count at 0; without, nothing changes anywhere |
| DragRaise.DragRaisePlayer.ContinueLoop | src/animation/player/drag_raise.rs:138-164 | nothing changes without dynamic frames or during a static cycle; otherwise the others stop and the dynamic loop plays on, restarted from 0 unless it was already playing |
| DragRaise.DragRaisePlayer.PlayEnd | src/animation/player/drag_raise.rs:172-175 | an end variant drawn and played from its first frame |
| DragRaise.DragRaisePlayer.End | src/animation/player/drag_raise.rs:166-176 | idle at once without end variants; otherwise an end variant from its first frame |
| DragRaise.DragRaisePlayer.DynamicLoopStep | src/animation/player/drag_raise.rs:191-202 | the current dynamic frame, the cursor advanced modulo the loop, then the trigger checked; an empty loop goes idle with no frame |
| DragRaise.DragRaisePlayer.RestartDynamicStep | src/animation/player/drag_raise.rs:209-212 | the dynamic loop re-entered at frame 0 with the tick count at 0, and stepped |
| DragRaise.DragRaisePlayer.StaticLoopStep | src/animation/player/drag_raise.rs:228-261 | no cycle left: back to the dynamic loop; a held frame repeats once; else a fresh B frame is shown |
| DragRaise.DragRaisePlayer.ShowBFrame | src/animation/player/drag_raise.rs:243-260 | a fresh B frame is shown, held for the next call, and the cycle advances by one call |
| DragRaise.DragRaisePlayer.ShowBFrameWithin | src/animation/player/drag_raise.rs:244-260 | a B frame before the loop's last: the cursor moves on |
| DragRaise.DragRaisePlayer.ShowBFrameWrapping | src/animation/player/drag_raise.rs:247-260 | the loop's last frame with loops to go: one loop fewer, cursor back to 0 |
| DragRaise.DragRaisePlayer.ShowLastBFrame | src/animation/player/drag_raise.rs:250-260 | the last frame of the last loop: the B list cleared and the dynamic loop restarted at 0 |
| DragRaise.DragRaisePlayer.StaticStartStep | src/animation/player/drag_raise.rs:203-227 | empty start frames hand over to a B cycle or the dynamic loop at once; else a start frame, followed by a B cycle or the dynamic loop when it was the last |
| DragRaise.DragRaisePlayer.EndStep | src/animation/player/drag_raise.rs:262-276 | an end frame and the cursor forward; idle after the last one; an empty end variant goes idle with no frame |
| DragRaise.DragRaisePlayer.NextFrame | src/animation/player/drag_raise.rs:188-278 | an idle player gives nothing and stays as it is; no frame only when the player ends idle; each mode steps as its own predicate says |
| DragRaise.DragRaisePlayer.Interrupt | src/animation/player/drag_raise.rs:280-305 | without skip-to-end, a playing (non-end) drag with end variants plays an end variant from frame 0; otherwise a full reset to idle |
| DragRaise.DragRaisePlayer.ClearPlayback | src/animation/player/drag_raise.rs:294-304 | cursors, counters, the held frame and the B and end lists cleared; the mode kept |
| DragRaise.DragRaisePlayer.Stop | src/animation/player/mod.rs:23-25 | `interrupt(true)`: always a full reset to idle |
| DragRaise.DragRaisePlayer.Reload | src/animation/player/drag_raise.rs:307-326 | every segment re-collected for the mode, lists cleared and counters at 0, and the playback mode kept |
| DragRaise.DragRaisePlayer.ReplaceAssets | src/animation/player/drag_raise.rs:308-323 | the re-collected asset lists installed, the playback mode kept |
| IdleAnimation.ApplyPlayable | src/animation/player/idle.rs:103-161 | installing any transition outcome leaves a playable state |
| IdleAnimation.FindSegmentDir | src/animation/player/idle.rs:98-147 | `find`: none iff no sub-directory names the segment, else the first one that does |
| IdleAnimation.IdleModeDirMatches | src/animation/player/idle.rs:54-70 | the mode directory is a child of the variant named for the mode, else for Nomal; none iff neither exists; the first mode match when there is one |
| IdleAnimation.DirPathIsChild | src/animation/assets/mod.rs:140-147 | a listed directory is a direct child of the listed root |
| IdleAnimation.FrameIsChild | src/animation/assets/mod.rs:56-76 | a png of a directory's listing lies directly in that directory |
| IdleAnimation.SegmentModeDirRecovered | src/animation/player/idle.rs:165-175 | the frames of an A, B or C segment lie two levels below the mode directory, which `get_current_mode_dir` recovers |
| IdleAnimation.SingleModeDirRecovered | src/animation/player/idle.rs:165-175 | a Single animation's frames lie directly in the mode directory, which is recovered |
| IdleAnimation.DrawLoopCount | src/animation/player/idle.rs:133 | the B pass count is 2, 3 or 4 |
| IdleAnimation.LoopCountCoversRange | src/animation/player/idle.rs:133 | each of 2, 3 and 4 is drawn at some clock reading |
| IdleAnimation.ToC | src/animation/player/idle.rs:142-162 | the C frames play from frame 0 iff the mode directory has them; otherwise the player stops |
| IdleAnimation.ToB | src/animation/player/idle.rs:118-140 | the B frames with a drawn pass count when present, else the move to C |
| IdleAnimation.StartAbc | src/animation/player/idle.rs:94-116 | the A frames when present, else the move to B |
| IdleAnimation.TreeReadsBelow | src/animation/player/idle.rs:98-104 | every segment read from the file tree lies in a sub-directory of the mode directory |
| IdleAnimation.TransitionStaysInModeDir | src/animation/player/idle.rs:94-175 | whatever segment a transition installs, `get_current_mode_dir` finds the same mode directory again |
| IdleAnimation.StartModeDirOfVariant | src/animation/player/idle.rs:45-70 | no variants means no mode directory; otherwise it is the mode directory of one of the variants |
| IdleAnimation.StartFrom | src/animation/player/idle.rs:72-91 | with an A-like sub-directory the ABC chain runs and never leaves the state as it was; otherwise the Single frames play, or nothing changes without them |
| IdleAnimation.StartOutcome | src/animation/player/idle.rs:41-92 | the outcome of `start` is always installable |
| IdleAnimation.AbcStartNeverKeeps | src/animation/player/idle.rs:72-81 | once ABC is chosen, `start` plays a segment or stops, never keeps the old state |
| IdleAnimation.HasAbcFindsA | src/animation/player/idle.rs:73-101 | the `has_abc` test succeeds iff the A search of `start_abc` finds a directory |
| IdleAnimation.PassEndPlayable | src/animation/player/idle.rs:191-213 | whatever follows the end of a segment is playable |
| IdleAnimation.Step | src/animation/player/idle.rs:183-217 | a frame iff the player is active, and then the frame under the cursor; an inactive player stays as it is; within a segment the cursor moves on |
| IdleAnimation.SegmentEnd | src/animation/player/idle.rs:191-213 | at a segment's last frame C and Single stop, B rewinds while passes remain and then moves to C, A moves to B, each in the same mode directory |
| IdleAnimation.InterruptStep | src/animation/player/idle.rs:219-241 | an interruption leaves a playable state |
| IdleAnimation.InterruptLeavesOnlyC | src/animation/player/idle.rs:219-241 | afterwards only C can still play, so a second interruption changes nothing; outside C (and skip-to-end in B) the player stops; C is left as it is |
| IdleAnimation.Run | src/animation/player/idle.rs:183-217 | any number of `next_frame` calls keeps the state playable |
| IdleAnimation.RunAppend | src/animation/player/idle.rs:183-217 | m + n calls are m calls followed by n calls, frames concatenated |
| IdleAnimation.InactiveRun | src/animation/player/idle.rs:184-186 | an inactive player returns nothing however often it is asked, and stays as it is |
| IdleAnimation.PassRun | src/animation/player/idle.rs:183-217 | from the cursor, the rest of the segment is shown in order, then the segment's end is handled |
| IdleAnimation.BPassRepeats | src/animation/player/idle.rs:200-203 | at the end of a B pass with passes left, B restarts at frame 0 with one pass fewer |
| IdleAnimation.PassesOwed | src/animation/player/idle.rs:200-203 | one whole pass more is one segment length more |
| IdleAnimation.BRun | src/animation/player/idle.rs:200-209 | from B the rest of the current pass and the remaining whole passes are shown, then the move to C |
| IdleAnimation.BPassSplit | src/animation/player/idle.rs:200-203 | one pass of B is the rest of the segment and leaves B at frame 0 with one pass fewer |
| IdleAnimation.BRunShown | src/animation/player/idle.rs:200-209 | the frames B shows before moving on are the owed passes in order |
| IdleAnimation.BShownStep | src/animation/player/idle.rs:200-203 | one pass of B followed by what the next pass owes is what this pass owes |
| IdleAnimation.BRunEnd | src/animation/player/idle.rs:204-208 | after the owed B frames the player is where the last pass's end leaves it |
| IdleAnimation.WholeAbcRun | src/animation/player/idle.rs:94-217 | with A, B and C present, a started sequence shows A once, B the drawn number of times, C once, and then stops |
| IdleAnimation.IdlePlayer.constructor | src/animation/player/idle.rs:29-39 | inactive, Single, no frames, cursor and pass count at 0 |
| IdleAnimation.IdlePlayer.Start | src/animation/player/idle.rs:41-92 | startup stopped, then the state `StartOutcome` picks for some variant and pass-count draw |
| IdleAnimation.IdlePlayer.StartFromDir | src/animation/player/idle.rs:72-91 | the state `StartFrom` picks for the mode directory |
| IdleAnimation.IdlePlayer.StartAbcFrom | src/animation/player/idle.rs:94-116 | the state `StartAbc` picks |
| IdleAnimation.IdlePlayer.TransitionToB | src/animation/player/idle.rs:118-140 | the state `ToB` picks |
| IdleAnimation.IdlePlayer.TransitionToC | src/animation/player/idle.rs:142-162 | the state `ToC` picks |
| IdleAnimation.IdlePlayer.NextFrame | src/animation/player/idle.rs:183-217 | the new state and the frame are one `Step` of the old state |
| IdleAnimation.IdlePlayer.Interrupt | src/animation/player/idle.rs:219-241 | the new state is `InterruptStep` of the old one |
| IdleAnimation.IdlePlayer.Reload | src/animation/player/idle.rs:243-245 | only the mode changes |
| StateAnimation.PlayStep | src/animation/player/state.rs:153-238 | one call of `next_frame` once a cycle runs keeps the segment cursors in bounds |
| StateAnimation.HoldRepeatsLastFrame | src/animation/player/state.rs:153-156 | a held frame: the last frame again, one hold tick fewer, nothing else changes |
| StateAnimation.AStep | src/animation/player/state.rs:161-237 | A shows its frames once, in order and unheld; after the last one B starts with the drawn pass count |
| StateAnimation.BStep | src/animation/player/state.rs:183-237 | a B frame is shown and held for the configured ticks; B advances and rewinds while frames are owed, then C starts or, without C, the cycle finishes, still remembering the last B frame and its hold |
| StateAnimation.BOwedWrap | src/animation/player/state.rs:200-205 | arithmetic of one B pass fewer |
| StateAnimation.CStep | src/animation/player/state.rs:214-229 | C shows its frames once, in order and unheld; after the last one the cycle finishes |
| StateAnimation.EmptySegmentsSkipped | src/animation/player/state.rs:161-218 | an empty A moves to B at once, an empty B to C (whose first frame then shows again), an empty B with no C or an empty C finishes with no frame |
| StateAnimation.RunAppend | src/animation/player/state.rs:141-239 | m + n calls are m calls followed by n calls, frames concatenated |
| StateAnimation.ARun | src/animation/player/state.rs:161-182 | the rest of A is shown once in order, then B is about to start |
| StateAnimation.BRun | src/animation/player/state.rs:183-213 | with no hold, B shows the rest of its pass and the remaining passes, then C is about to start or the cycle is over |
| StateAnimation.CRun | src/animation/player/state.rs:214-229 | the rest of C is shown once and the cycle finishes |
| StateAnimation.WholeCycle | src/animation/player/state.rs:141-239 | with A, B and C present and no hold, a cycle shows A once, B the drawn number of times and C once, then ends cleared |
| StateAnimation.CollectStateVariants | src/animation/player/state.rs:270-279 | the sub-directories of the state root, sorted, a permutation of the listing |
| StateAnimation.LoopBounds | src/animation/player/state.rs:43-48 | the B pass bounds satisfy 1 <= min <= max <= 255 and are the configured values wherever those fit |
| StateAnimation.HoldBound | src/animation/player/state.rs:49 | the B hold ticks, saturated to a `u8` |
| StateAnimation.BFramesLoaded | src/animation/player/state.rs:111-116 | the B frames of a variant are non-empty iff the variant has B frames in one of the fallback tiers |
| StateAnimation.RotatedIndex | src/animation/player/state.rs:107 | the rotated index stays within the variants |
| StateAnimation.FramesLoadable | src/animation/player/state.rs:110-112 | the frames loaded for a segment are what the fallback lookup can give |
| StateAnimation.FoundBegins | src/animation/player/state.rs:118-129 | the segments found, entered at A or, with A empty, at B, begin a cycle from that variant |
| StateAnimation.FindStartVariant | src/animation/player/state.rs:99-133 | the rotation from a drawn offset finds a variant iff some variant has B frames, and returns that variant's three segments |
| StateAnimation.StartCycle | src/animation/player/state.rs:99-133 | a cycle begins iff some variant has B frames; it starts at A, or at B with a pass count drawn from the bounds |
| StateAnimation.LoopCountIn | src/animation/player/state.rs:75-80 | a pass count between the minimum and the larger bound |
| StateAnimation.LoadSegments | src/animation/player/state.rs:110-116 | the three fallback lookups, B non-empty iff the variant has B frames |
| StateAnimation.NoBFramesExtend | src/animation/player/state.rs:106-116 | the search so far has skipped only variants without B frames |
| StateAnimation.RotationVisitsAll | src/animation/player/state.rs:104-107 | in `total` steps the rotation visits every variant |
| StateAnimation.StatePlayer.ChooseCooldownTicks | src/animation/player/state.rs:82-87 | a cooldown between the minimum and the larger bound |
| StateAnimation.StatePlayer.ChooseLoopCount | src/animation/player/state.rs:75-80 | a pass count between the player's bounds |
| StateAnimation.StatePlayer.CooldownCoversRange | src/animation/player/state.rs:82-87 | every cooldown of the range is drawn at some clock reading |
| StateAnimation.StatePlayer.LoopCountCoversRange | src/animation/player/state.rs:75-80 | every pass count of the range is drawn at some clock reading |
| StateAnimation.StatePlayer.constructor | src/animation/player/state.rs:37-73 | the sorted variants, the clamped configuration, no cycle, and a drawn cooldown |
| StateAnimation.StatePlayer.FinishCycle | src/animation/player/state.rs:89-97 | no phase, a new cooldown, no hold, no last frame, no segments |
| StateAnimation.StatePlayer.TryStartCycle | src/animation/player/state.rs:99-133 | succeeds iff some variant has B frames and then begins a cycle from one; otherwise nothing changes |
| StateAnimation.StatePlayer.Begin | src/animation/player/state.rs:118-128 | the found segments and first phase installed |
| StateAnimation.StatePlayer.DrawCooldown | src/animation/player/state.rs:148 | a new cooldown is drawn; nothing else changes |
| StateAnimation.StatePlayer.AdvanceA | src/animation/player/state.rs:161-182 | the A arm as `PlayStep` states it |
| StateAnimation.StatePlayer.AdvanceB | src/animation/player/state.rs:183-213 | the B arm as `PlayStep` states it, with a new cooldown when the cycle finishes |
| StateAnimation.StatePlayer.AdvanceC | src/animation/player/state.rs:214-229 | the C arm as `PlayStep` states it, with a new cooldown when the cycle finishes |
| StateAnimation.StatePlayer.Play | src/animation/player/state.rs:153-238 | the hold, then the phase's arm: one `PlayStep` of the old state |
| StateAnimation.StatePlayer.PlayPhase | src/animation/player/state.rs:158-238 | the phase's arm and the new last frame and its hold, as `PlayStep` says |
| StateAnimation.StatePlayer.NextFrame | src/animation/player/state.rs:141-239 | no variants: no frame; a cooldown counts down without a frame; at zero a cycle begins iff some variant has B frames, else a new cooldown; a running cycle plays on as `PlayStep` says |
| StateAnimation.StatePlayer.Interrupt | src/animation/player/state.rs:241-255 | without skip-to-end and with C frames, C plays from frame 0 with no cooldown; otherwise the cycle is dropped with a new cooldown |
| StateAnimation.StatePlayer.Stop | src/animation/player/mod.rs:23-25 | `interrupt(true)`: the cycle dropped with a new cooldown |
| StateAnimation.StatePlayer.Reload | src/animation/player/state.rs:257-267 | the mode set, the variants collected again, the cycle dropped with a new cooldown |
| Coordinator.DragCall | src/animation/coordinator.rs:67-78 | a drag call is made exactly for the start, loop and end codes |
| Coordinator.PinchCall | src/animation/coordinator.rs:81-92 | a pinch call is made exactly for the start, loop and end codes |
| Coordinator.TouchCall | src/animation/coordinator.rs:96-100 | a touch call is made exactly for the head and body codes |
| Coordinator.ShutdownRequestPreempts | src/animation/coordinator.rs:54-61 | a shutdown request makes the same calls whatever else is requested or playing: every other player stops, then shutdown starts, and no other request is served |
| Coordinator.ActiveShutdownBlocks | src/animation/coordinator.rs:63-65 | while shutdown plays, every request but a new shutdown is dropped |
| Coordinator.DispatchPlanMembers | src/animation/coordinator.rs:53-102 | each channel's call is made iff shutdown neither is requested nor plays and, for pinch, drag is inactive, and for touch, drag and pinch both are |
| Coordinator.DispatchOrder | src/animation/coordinator.rs:67-101 | drag is served before pinch and pinch before touch, at most one call each |
| Coordinator.AdvanceSource | src/animation/coordinator.rs:104-150 | the frame comes from the first active player in the order shutdown, drag, pinch, touch, startup, default idle; the default idle player only when none of the others is active |
| Coordinator.AdvanceSourceUnique | src/animation/coordinator.rs:104-150 | an active player with no active player above it is the source |
| Coordinator.ReloadIdle | src/animation/coordinator.rs:37 | the default idle player reloaded for the mode, back in its default phase |
| Coordinator.ReloadDragRaise | src/animation/coordinator.rs:38 | the drag player reloaded; its playback mode kept |
| Coordinator.ReloadPinch | src/animation/coordinator.rs:39 | the pinch player reloaded; its playback mode kept |
| Coordinator.ReloadTouch | src/animation/coordinator.rs:40 | the touch player reloaded, which stops it |
| Coordinator.ReloadShutdown | src/animation/coordinator.rs:41 | the shutdown player reloaded; its playback and hold frame kept |
| Coordinator.NextShutdownFrame | src/animation/coordinator.rs:106 | a shutdown step; a held frame always gives a frame |
| Coordinator.NextDragRaiseFrame | src/animation/coordinator.rs:114 | a drag step keeps the player valid |
| Coordinator.NextPinchFrame | src/animation/coordinator.rs:122 | a pinch step keeps the player valid |
| Coordinator.NextTouchFrame | src/animation/coordinator.rs:130 | an active touch player gives the frame under its cursor |
| Coordinator.NextIdleFrame | src/animation/coordinator.rs:147 | a default idle step keeps the player valid |
| Coordinator.PlayerSet.constructor | src/animation/coordinator.rs:186-194 | the mode and the six players given |
| Coordinator.PlayerSet.ReloadForMode | src/animation/coordinator.rs:35-42 | the mode set and five players reloaded; startup and the mailbox untouched; touch stopped; every other player keeps playing or not, and the default idle player is in its default phase |
| Coordinator.PlayerSet.InitialFrame | src/animation/coordinator.rs:44-50 | while startup is active its first frame, not consumed; otherwise the default idle player is entered and gives a frame iff it has a default variant |
| Coordinator.PlayerSet.DispatchRequests | src/animation/coordinator.rs:53-102 | the calls made are the dispatch plan; a shutdown request stops drag, pinch, touch and startup and starts shutdown, which then plays iff it has variants; otherwise shutdown is untouched, and while it plays nothing else changes; otherwise drag is served for its code, pinch when drag is then inactive, touch when both are, and an arm that leaves its player active without stopping the others leaves them unchanged |
| Coordinator.PlayerSet.DispatchDrag | src/animation/coordinator.rs:67-78 | start, continue_loop or end of the drag player for the code, with the new drag state and the stopped pinch, touch and startup when it takes over; otherwise those three unchanged; no call, no change |
| Coordinator.PlayerSet.DispatchPinch | src/animation/coordinator.rs:81-92 | start, continue_loop or end of the pinch player for the code, with the new pinch state and the stopped touch and startup when it takes over; otherwise those two unchanged; no call, no change |
| Coordinator.PlayerSet.DispatchTouch | src/animation/coordinator.rs:96-100 | head or body touch: with no stage nothing changes, else the built sequence from index 0 and startup stopped; no call, no change |
| Coordinator.PlayerSet.DispatchGestures | src/animation/coordinator.rs:67-101 | the plan's calls with no shutdown; drag served for its code, pinch only when drag is then inactive, touch only when both are, with the served players' new states |
| Coordinator.PlayerSet.DispatchBelowDrag | src/animation/coordinator.rs:80-101 | pinch served for its code, then touch only when pinch is inactive; a pinch that stays active without taking over leaves touch and startup unchanged |
| Coordinator.PlayerSet.EnterIdle | src/animation/coordinator.rs:110 | the default idle player entered, its first frame or the empty path |
| Coordinator.PlayerSet.AdvanceFrame | src/animation/coordinator.rs:104-150 | only the source player steps; its frame is the result; when it gives none it is stopped and the default idle player is entered; touch and startup always give their current frame |
| Coordinator.PlayerSet.AdvanceShutdown | src/animation/coordinator.rs:105-111 | the shutdown frame, or shutdown stopped and idle entered; a held frame always comes out |
| Coordinator.PlayerSet.AdvanceDragRaise | src/animation/coordinator.rs:113-119 | the drag frame, or drag stopped and idle entered |
| Coordinator.PlayerSet.AdvancePinch | src/animation/coordinator.rs:121-127 | the pinch frame, or pinch stopped and idle entered |
| Coordinator.PlayerSet.AdvanceTouch | src/animation/coordinator.rs:129-135 | the touch frame under the cursor; the fallback cannot happen |
| Coordinator.PlayerSet.AdvanceStartup | src/animation/coordinator.rs:137-143 | the startup frame under the cursor; the fallback cannot happen |
| Coordinator.PlayerSet.AdvanceIdle | src/animation/coordinator.rs:145-149 | the default idle frame, or the player entered afresh |
| Coordinator.PlayerSet.Tick | src/animation/coordinator.rs:213-227 | the mailbox drained; a reload iff startup is not playing and the mode changed; the dispatch plan on the drained requests; the frame from the first active player after dispatch; a shutdown request with variants makes shutdown the source |
| Coordinator.PlayerSet.BeginTick | src/animation/coordinator.rs:216-223 | the drain, then the reload exactly when startup is not playing and the mode changed |
| LegacyCarousel.FirstOf | src/animation.rs:403 | some value iff the list is non-empty, and then its first element |
| LegacyCarousel.WrapNext | src/animation.rs:547 | the looping cursor stays below the length: one step forward, or back to 0 after the last frame |
| LegacyCarousel.WrapStepsWithinPass | src/animation.rs:636-640 | within one pass each tick moves the looping cursor by one frame |
| LegacyCarousel.WrapStepsAdd | src/animation.rs:636-640 | stepping a looping cursor a then b ticks is stepping it a + b ticks |
| LegacyCarousel.WrapStepsCycle | src/animation.rs:636-640 | a looping cursor is back where it started after exactly one pass, and every frame is shown on the way |
| LegacyCarousel.DrawDefaultFiles | src/animation.rs:128-137 | the default selection for the mode at some clock reading, never empty |
| LegacyCarousel.LoadDragAssets | src/animation.rs:326-335 | the drag start list, a loop list drawn from the clock and the end variants for the mode |
| LegacyCarousel.LoadPinchAssets | src/animation.rs:336-343 | the pinch start files, loop variants and end files for the mode, start and end drawn from the clock |
| LegacyCarousel.LoadTouchAssets | src/animation.rs:344-347 | the head and body touch variants for the mode, each stage with a frame |
| LegacyCarousel.LoadShutdownAssets | src/animation.rs:351 | the shutdown variants for the mode, each non-empty |
| LegacyCarousel.CarouselState.constructor | src/animation.rs:193-284 | every mode-dependent collection for the mode, a drawn startup sequence that plays iff it is non-empty, every cursor 0 and nothing else playing |
| LegacyCarousel.CarouselState.FirstFrame | src/animation.rs:296-303 | the first startup frame while startup plays, else the first default frame |
| LegacyCarousel.CarouselState.StopTouchPlayback | src/animation.rs:108-112 | touch mode None, its files cleared, its cursor 0, its variants kept |
| LegacyCarousel.CarouselState.StopStartupPlayback | src/animation.rs:114-118 | startup no longer playing, its files cleared, its cursor 0 |
| LegacyCarousel.CarouselState.StopPinchPlayback | src/animation.rs:120-126 | pinch mode None, the loop files cleared, all three cursors 0, the collected lists kept |
| LegacyCarousel.CarouselState.RefreshDefaultIdleSelection | src/animation.rs:128-137 | a fresh default draw for the current mode from its first frame |
| LegacyCarousel.CarouselState.EnterDefaultIdle | src/animation.rs:139-142 | a fresh default draw, whose first frame exists and is returned |
| LegacyCarousel.CarouselState.ReloadMode | src/animation.rs:321-358 | every mode-dependent collection anew with cursors at 0, drag end and pinch loop files cleared, touch stopped, playback modes kept, and a fresh default frame forced iff shutdown, drag and pinch are idle |
| LegacyCarousel.CarouselState.DispatchTouch | src/animation.rs:361-385 | a touch request is honoured iff nothing else plays and the requested part has a stage; then startup stops and the built sequence plays from its forced first frame; otherwise nothing changes |
| LegacyCarousel.CarouselState.DispatchShutdown | src/animation.rs:387-406 | with no variant, finished is raised and nothing else changes; otherwise startup, touch, pinch and drag stop and a drawn variant plays from index 0, its first frame held and forced |
| LegacyCarousel.CarouselState.StopForDrag | src/animation.rs:412-414 | startup, pinch and touch stopped |
| LegacyCarousel.CarouselState.StopForPinch | src/animation.rs:460-461 | startup and touch stopped |
| LegacyCarousel.CarouselState.DispatchDrag | src/animation.rs:408-455 | start plays the start list, else the loop; loop enters the loop unless already looping or starting; end plays a drawn end variant, or with none only sets mode None; each with its stops and forced first frame; other codes change nothing |
| LegacyCarousel.CarouselState.DispatchPinch | src/animation.rs:457-509 | start plays the start files, else a drawn loop variant; loop draws a variant unless already looping with frames or starting; end plays the end files, or with none only sets mode None; other codes change nothing |
| LegacyCarousel.CarouselState.AdvanceShutdown | src/animation.rs:514-528 | the next shutdown frame becomes the hold frame; past the last, playback ends, finished is raised and the hold frame is shown |
| LegacyCarousel.CarouselState.AdvanceDragStart | src/animation.rs:531-543 | the next start frame, else the loop from its first frame, else drag stops and the default idle is entered |
| LegacyCarousel.CarouselState.AdvanceDragLoop | src/animation.rs:544-549 | the loop cursor steps modulo the loop length and its frame is shown |
| LegacyCarousel.CarouselState.ResumeAfterOneShot | src/animation.rs:557-561 | the current startup frame while startup plays, else a freshly entered default idle |
| LegacyCarousel.CarouselState.AdvanceDragEnd | src/animation.rs:550-562 | each end frame once, then drag stops and startup or the default idle resumes |
| LegacyCarousel.CarouselState.AdvancePinchStart | src/animation.rs:563-581 | the next start frame, else a drawn loop variant from its first frame (the default idle if it is empty), else pinch stops and the default idle is entered |
| LegacyCarousel.CarouselState.AdvancePinchLoop | src/animation.rs:582-598 | the next loop frame; past the last a fresh variant from its first frame, or the current default frame when it is empty |
| LegacyCarousel.CarouselState.AdvancePinchEnd | src/animation.rs:599-611 | each end frame once, then pinch stops and startup or the default idle resumes |
| LegacyCarousel.CarouselState.AdvanceTouch | src/animation.rs:612-626 | each touch frame once, then touch is cleared and startup or the default idle resumes |
| LegacyCarousel.CarouselState.AdvanceStartup | src/animation.rs:627-635 | each startup frame once, then startup ends and the default idle is entered |
| LegacyCarousel.CarouselState.AdvanceDefaultIdle | src/animation.rs:636-640 | the default cursor steps modulo the sequence length and its frame is shown |
| LegacyCarousel.CarouselState.AdvanceBelowDrag | src/animation.rs:563-640 | with shutdown and drag idle the frame comes from pinch, touch, startup or the default idle, in that order; the collections never change, touch never starts, and the default idle cursor steps modulo its length |
| LegacyCarousel.CarouselState.Advance | src/animation.rs:514-640 | the frame comes from the first source in the order shutdown playing, shutdown held, drag, pinch, touch, startup, default idle; the collections never change, a held frame is never dropped, and finished is raised only when shutdown ends |
| LegacyCarousel.CarouselState.ReloadAndTouch | src/animation.rs:319-385 | a reload happens iff startup is not playing and the mode changed, and then collects for the new mode; touch only starts on a head or body request; shutdown playback is untouched |
| LegacyCarousel.CarouselState.DispatchGestures | src/animation.rs:387-509 | no gesture request changes nothing; a shutdown request with variants plays a drawn variant from its held first frame, with none raises finished; touch never starts here |
| LegacyCarousel.CarouselState.DrainAndDispatch | src/animation.rs:312-510 | the channels drained and left idle; a reload iff startup is not playing and the mode changed; with no request and no reload nothing changes; a shutdown request plays a drawn variant from its held, forced first frame, or with no variant raises finished; otherwise shutdown is untouched |
| LegacyCarousel.CarouselState.Tick | src/animation.rs:311-641 | the mailbox is drained; a forced frame wins over the advance step; shutdown plays through to finished and its hold frame persists; with no request and no reload the looping cursors step modulo their length |
| LegacyCarousel.DefaultFilesNonEmpty | src/animation/variants.rs:278-295 | when every idle variant has a frame, the default selection is never empty, so entering the default idle always has a frame |
| LegacyCarousel.LoadCarouselImages | src/animation.rs:183-284 | an unreadable happy idle directory is that error, an empty happy list is the no-frames error, and otherwise a valid state whose idle variants are the ones collected for each mode |

## Behaviour as the code has it

In a few places the code does something other than the most natural reading of the engine's design. The model follows the code in each:

- `advance_frame` does not fall through to lower players (src/animation/coordinator.rs:104-143). When the first active player gives no frame, that player is stopped and the default idle player's `enter` supplies the frame.
- `reload_for_mode` does not return every player to a neutral phase (src/animation/coordinator.rs:35-42). Drag raise, pinch and shutdown keep their playback mode; only touch is stopped by its reload.
- `DefaultIdlePlayer::interrupt` ignores its `skip_to_end` argument (src/animation/player/default_idle.rs:248-253). It always returns to the default phase.
- The `happy_turn` exclusion applies to every mode under a Touch_Body root (src/animation/assets/mod.rs:634-669), not only to Happy. For Happy it is applied a second time, before the fallback tiers.
- When no key is shared by the A, B and C stages, `build_touch_sequence` draws each stage's variant separately (src/animation/assets/mod.rs:680-734).
- No trigger writes `PINCH_ANIM_LOOP_REQUESTED` (src/animation/requests.rs:33-64). So the pinch channel only ever holds idle, start or end.

## Left out

- GTK rendering and timers. This covers `Image`, `Pixbuf::from_file`, `setup_image_input_region`, `timeout_add_local` and the widget setup of src/animation/coordinator.rs:152-241 and src/animation.rs:183-310 and 643-650. Only the order of the steps inside a tick is modelled (`Coordinator.PlayerSet.Tick`, `LegacyCarousel.CarouselState.Tick`). A frame that fails to load as a pixbuf is not modelled either.
- Filesystem I/O. `fs::read_dir`, `is_dir` and extension checks become walks over one `FileTree.Dir` value. The only read error modelled is "not a directory". Permission and I/O failures are not modelled. The png names of one directory are taken as already in sorted order.
- The wall clock. `SystemTime::now` inside `pseudo_random_index` is `Assets.ReadClock`, which may return any reading. Real readings are monotonic and correlated; the model does not know that.
- `choose_idle_abc_sequence` and `collect_drag_raise_static_b_variants`: their code is not part of this model. Their results are inputs: the `abc` argument of `DefaultIdle.DefaultIdlePlayer.NextFrame`, and the static B variants given to `DragRaise.DragRaisePlayer`.
- `load_animation_path_config` and the TOML settings it reads. The configuration is an `Assets.AnimationPathConfig` value passed in.
- The stats service and its `cal_mode`. That is floating-point mood arithmetic, so the mode is a parameter of every reload and tick.
- The `AnimationPlayer` trait of src/animation/player/mod.rs. Each player is its own class. The trait's default `stop` is modelled on each player that uses it, as a `Stop` method proved equal to `Interrupt(true)`.
- src/input_region.rs, src/drag.rs, the stats modules, src/stats_panel.rs, src/settings, src/main.rs and the re-export `mod.rs` files. These are GTK, floating point, process lifecycle and re-exports, outside the animation engine. From src/config.rs only `CAROUSEL_INTERVAL_MS` is used.
- Coordinator.NextDragRaiseFrame: states only that the player stays valid. The drag step itself is stated by `DragRaise.DragRaisePlayer.NextFrame`, which it calls.
- Coordinator.NextPinchFrame: states only that the player stays valid. The step itself is stated by `Pinch.PinchPlayer.NextFrame`.
- Coordinator.NextIdleFrame: states only that the player stays valid. The step itself is stated by `DefaultIdle.DefaultIdlePlayer.NextFrame`.
- IdleAnimation.StartOutcome: states only that the outcome is installable (`Installable`). What `start` installs is stated by `IdleAnimation.IdlePlayer.Start` and the lemmas about the chosen directory.
- Coordinator.PlayerSet.Tick: states the drain, the reload, the dispatch plan and the advance source. What the dispatch does to each player is stated by `Coordinator.PlayerSet.DispatchRequests`, which it calls; the contract of `Tick` cannot name the state between dispatch and advance.
- LegacyCarousel.CarouselState.Tick: the step after the forced frame is stated only for the shutdown hold, the drag loop and the default idle. The other sources are stated step by step in `LegacyCarousel.CarouselState.Advance` and its parts.
- `usize` overflow of cursor increments (`index + 1`) is not modelled. Cursors are unbounded naturals that the invariants keep below their sequence lengths. The `u8` and `u32` counters are modelled with their widths.
