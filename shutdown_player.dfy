/**
 * `ShutdownPlayer` of src/animation/player/shutdown.rs: plays one shutdown
 * variant, keeps showing its last frame afterwards (the hold frame), and
 * reports the end of playback through the mailbox's finished flag.
 */
module Shutdown {
  import opened Common
  import opened FileTree
  import opened Assets
  import opened Requests

  class ShutdownPlayer {
    const shutdownRoot: Path
    var shutdownVariants: seq<seq<Path>>
    var shutdownFiles: seq<Path>
    var shutdownIndex: nat
    var shutdownHoldFrame: Option<Path>
    var playingShutdown: bool

    ghost predicate Valid()
      reads this
    {
      if shutdownFiles == [] then shutdownIndex == 0 else shutdownIndex < |shutdownFiles|
    }

    function IsActive(): bool
      reads this
    {
      playingShutdown || shutdownHoldFrame.Some?
    }

    /** The frames of the playback still to come, in order. */
    function Remaining(): (r: seq<Path>)
      requires Valid()
      reads this
      ensures r != [] ==> playingShutdown
    {
      if playingShutdown then shutdownFiles[shutdownIndex..] else []
    }

    constructor (fs: Dir, shutdownRoot: Path, mode: Mode)
      ensures Valid() && !IsActive()
      ensures this.shutdownRoot == shutdownRoot
      ensures shutdownVariants == CollectShutdownVariants(fs, shutdownRoot, mode)
      ensures shutdownFiles == [] && shutdownIndex == 0
    {
      this.shutdownRoot := shutdownRoot;
      shutdownVariants := CollectShutdownVariants(fs, shutdownRoot, mode);
      shutdownFiles := [];
      shutdownIndex := 0;
      shutdownHoldFrame := None;
      playingShutdown := false;
    }

    /**
     * `start`: clears the finished flag; with no variants, playback does not
     * start and the flag is raised at once; otherwise one variant is drawn and
     * playback starts at its first frame, which also becomes the hold frame.
     */
    method Start(mailbox: Mailbox)
      requires Valid() && mailbox.Valid()
      modifies this, mailbox
      ensures Valid() && mailbox.Valid()
      ensures mailbox.Pending() == old(mailbox.Pending())
      ensures shutdownVariants == old(shutdownVariants)
      ensures shutdownVariants == [] ==>
        !playingShutdown && mailbox.shutdownFinished
        && shutdownFiles == old(shutdownFiles) && shutdownIndex == old(shutdownIndex)
        && shutdownHoldFrame == old(shutdownHoldFrame)
      ensures shutdownVariants != [] ==>
        playingShutdown && !mailbox.shutdownFinished
        && shutdownFiles in shutdownVariants && shutdownIndex == 0
        && shutdownHoldFrame == (if shutdownFiles == [] then None else Some(shutdownFiles[0]))
    {
      mailbox.SetShutdownAnimationFinished(false);
      if shutdownVariants == [] {
        playingShutdown := false;
        mailbox.SetShutdownAnimationFinished(true);
        return;
      }
      var nanos := ReadClock();
      var variantIndex := PseudoRandomIndex(|shutdownVariants|, nanos);
      shutdownFiles := shutdownVariants[variantIndex];
      shutdownIndex := 0;
      playingShutdown := true;
      shutdownHoldFrame := if shutdownFiles == [] then None else Some(shutdownFiles[0]);
    }

    /**
     * `next_frame`: while playing, the next frame, which becomes the hold
     * frame; the last frame ends playback and raises the finished flag. Once
     * playback is over, the hold frame is returned, for as long as it is set.
     */
    method NextFrame(mailbox: Mailbox) returns (frame: Option<Path>)
      requires Valid() && mailbox.Valid()
      modifies this, mailbox
      ensures Valid() && mailbox.Valid()
      ensures mailbox.Pending() == old(mailbox.Pending())
      ensures shutdownVariants == old(shutdownVariants) && shutdownFiles == old(shutdownFiles)
      ensures !old(playingShutdown) ==>
        frame == old(shutdownHoldFrame) && unchanged(this) && unchanged(mailbox)
      ensures old(playingShutdown) && old(shutdownFiles) == [] ==>
        frame == old(shutdownHoldFrame) && !playingShutdown && mailbox.shutdownFinished
        && shutdownHoldFrame == old(shutdownHoldFrame)
      ensures old(playingShutdown) && old(shutdownFiles) != [] ==>
        frame == Some(old(shutdownFiles[shutdownIndex])) && shutdownHoldFrame == frame
        && (playingShutdown <==> old(shutdownIndex) + 1 < |shutdownFiles|)
        && mailbox.shutdownFinished == (!playingShutdown || old(mailbox.shutdownFinished))
      ensures old(Remaining()) == (if old(Remaining()) == [] then [] else [frame.value]) + Remaining()
      ensures old(shutdownHoldFrame).Some? ==> IsActive() && frame.Some?
    {
      if playingShutdown {
        if shutdownFiles == [] {
          playingShutdown := false;
          mailbox.SetShutdownAnimationFinished(true);
          return shutdownHoldFrame;
        }
        var current := shutdownFiles[shutdownIndex];
        shutdownHoldFrame := Some(current);
        var next := shutdownIndex + 1;
        if next < |shutdownFiles| {
          shutdownIndex := next;
          assert old(shutdownFiles[shutdownIndex..]) == [current] + shutdownFiles[shutdownIndex..];
        } else {
          playingShutdown := false;
          mailbox.SetShutdownAnimationFinished(true);
        }
        return Some(current);
      }
      return shutdownHoldFrame;
    }

    /** `interrupt`: playback stops; only `skip_to_end` also drops the hold frame. */
    method Interrupt(skipToEnd: bool)
      modifies this
      ensures Valid()
      ensures !playingShutdown && shutdownFiles == [] && shutdownIndex == 0
      ensures shutdownHoldFrame == (if skipToEnd then None else old(shutdownHoldFrame))
      ensures shutdownVariants == old(shutdownVariants)
    {
      playingShutdown := false;
      shutdownFiles := [];
      shutdownIndex := 0;
      if skipToEnd {
        shutdownHoldFrame := None;
      }
    }

    /** The trait's default `stop`, which is `interrupt(true)`: the player ends inactive. */
    method Stop()
      modifies this
      ensures Valid() && !IsActive()
      ensures shutdownFiles == [] && shutdownIndex == 0
      ensures shutdownVariants == old(shutdownVariants)
    {
      Interrupt(true);
    }

    /** `reload`: only the variants are re-collected; a running playback goes on. */
    method Reload(fs: Dir, mode: Mode)
      requires Valid()
      modifies this
      ensures Valid()
      ensures shutdownVariants == CollectShutdownVariants(fs, shutdownRoot, mode)
      ensures shutdownFiles == old(shutdownFiles) && shutdownIndex == old(shutdownIndex)
      ensures shutdownHoldFrame == old(shutdownHoldFrame) && playingShutdown == old(playingShutdown)
    {
      shutdownVariants := CollectShutdownVariants(fs, shutdownRoot, mode);
    }
  }
}
