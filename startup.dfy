/**
 * `StartupPlayer` of src/animation/player/startup.rs: plays the startup
 * animation chosen when the player is built once, frame by frame, and then
 * stays inactive. It has `stop` but no `interrupt`.
 */
module Startup {
  import opened Common
  import opened FileTree
  import opened Assets

  class StartupPlayer {
    const startupRoot: Path
    var files: seq<Path>
    var index: nat
    var active: bool

    /** The cursor stays inside the frame list; an empty list has cursor 0. */
    ghost predicate Valid()
      reads this
    {
      if files == [] then index == 0 else index < |files|
    }

    function IsActive(): bool
      reads this
    {
      active && files != []
    }

    /** The frames the player will still emit, in order. */
    function Remaining(): (r: seq<Path>)
      requires Valid()
      reads this
      ensures r == [] <==> !IsActive()
    {
      if IsActive() then files[index..] else []
    }

    /** `new`: the chosen startup frames (none when no directory qualifies), active iff there are any. */
    constructor (fs: Dir, startupRoot: Path, mode: Mode)
      ensures Valid()
      ensures this.startupRoot == startupRoot
      ensures exists nanos :: files == ChooseStartupAnimationFiles(fs, startupRoot, mode, nanos).UnwrapOr([])
      ensures index == 0 && active == (files != [])
      ensures Remaining() == files
    {
      var nanos := ReadClock();
      var chosen := ChooseStartupAnimationFiles(fs, startupRoot, mode, nanos).UnwrapOr([]);
      this.startupRoot := startupRoot;
      files := chosen;
      index := 0;
      active := chosen != [];
    }

    /** `peek_first_frame`: the first frame of a fresh playback, without playing it. */
    function PeekFirstFrame(): (r: Option<Path>)
      reads this
      ensures r.None? <==> files == []
      ensures r.Some? ==> r.value == files[0]
    {
      if files == [] then None else Some(files[0])
    }

    /**
     * `next_frame`: the next frame while active; each frame is emitted once,
     * in order, and the last one makes the player inactive.
     */
    method NextFrame() returns (frame: Option<Path>)
      requires Valid()
      modifies this
      ensures Valid()
      ensures files == old(files)
      ensures frame.None? <==> !old(IsActive())
      ensures !old(IsActive()) ==> index == old(index) && active == old(active)
      ensures old(IsActive()) ==> frame == Some(old(files[index]))
      ensures old(Remaining()) == (if frame.Some? then [frame.value] else []) + Remaining()
    {
      if !IsActive() {
        return None;
      }
      frame := Some(files[index]);
      var next := index + 1;
      if next < |files| {
        index := next;
        assert old(files[index..]) == [files[old(index)]] + files[index..];
      } else {
        active := false;
      }
    }

    /** `stop`: inactive, with no frames and the cursor at 0. */
    method Stop()
      modifies this
      ensures Valid()
      ensures !active && files == [] && index == 0
      ensures Remaining() == []
    {
      active := false;
      files := [];
      index := 0;
    }

    /** `reload`: the startup animation does not depend on the mode; nothing changes. */
    method Reload(mode: Mode)
      requires Valid()
      ensures Valid()
      ensures Remaining() == old(Remaining())
    {
    }
  }
}
