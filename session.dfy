/**
 * The player's `ViewModel`: the track list, the track now playing, the
 * playing flag and the remembered song name, with the transport actions, the
 * remote-command handlers and the two places where the list view writes into
 * that state.
 */
module Playback {
  import opened Wrappers
  import opened Paths
  import opened Catalog
  import opened Playlist

  /** What a remote-command handler reports back (`MPRemoteCommandHandlerStatus`). */
  datatype CommandStatus = Success | CommandFailed

  /** The song name shown before anything has been played. */
  const NotPlaying: string := "Not playing"

  class Session {
    /** The MP3 files of the granted folder, in listing order. */
    var music: seq<string>
    var isPlaying: bool
    var nowPlaying: Option<string>
    /** The path of the granted folder (`downloadsUrl`). */
    var downloads: Option<string>
    /** The file name of the last track played, as remembered under "lastSong". */
    var lastSong: string
    /** The track the audio player was last created for; None for the empty player. */
    var player: Option<string>

    /** The track now playing, if any, is one of the listed tracks. */
    ghost predicate Consistent()
      reads this
    {
      nowPlaying.Some? ==> nowPlaying.value in music
    }

    /** The remembered song name is the file name of the track now playing. */
    ghost predicate Labelled()
      reads this
    {
      nowPlaying.Some? ==> lastSong == LastPathComponent(nowPlaying.value)
    }

    /** A fresh view model; `stored` is what was remembered under "lastSong", if anything. */
    constructor (stored: Option<string>)
      ensures music == [] && !isPlaying && nowPlaying == None && downloads == None && player == None
      ensures lastSong == if stored.Some? then stored.value else NotPlaying
      ensures Consistent() && Labelled()
    {
      music := [];
      isPlaying := false;
      nowPlaying := None;
      downloads := None;
      lastSong := if stored.Some? then stored.value else NotPlaying;
      player := None;
    }

    /**
     * A folder `dir` is granted and listed: `entries` is its listing and
     * `isMP3` the file-type test. Only the MP3 files are kept, in order.
     */
    method LoadFolder(dir: string, entries: seq<string>, isMP3: string -> bool)
      modifies this`downloads, this`music
      ensures downloads == Some(dir)
      ensures music == Keep(entries, isMP3)
      ensures forall t :: t in music <==> t in entries && isMP3(t)
      ensures Distinct(entries) ==> Distinct(music)
    {
      downloads := Some(dir);
      music := Keep(entries, isMP3);
      assert forall t :: t in music <==> multiset(music)[t] > 0;
      if Distinct(entries) {
        KeepDistinct(entries, isMP3);
      }
    }

    /** `play()`: playing, whatever the state before; nothing else changes. */
    method Play()
      modifies this`isPlaying
      ensures isPlaying
    {
      isPlaying := true;
    }

    /** `pause()`: not playing, whatever the state before; nothing else changes. */
    method Pause()
      modifies this`isPlaying
      ensures !isPlaying
    {
      isPlaying := false;
    }

    /**
     * `next()`: moves to the track after the current one, wrapping from the
     * last to the first, remembers its name and plays it. The current track
     * must be set and listed, or `firstIndex(of:)!` traps.
     */
    method Next()
      requires nowPlaying.Some? && nowPlaying.value in music
      modifies this`lastSong, this`nowPlaying, this`player, this`isPlaying
      ensures nowPlaying == Some(NextTrack(music, old(nowPlaying.value)))
      ensures lastSong == LastPathComponent(nowPlaying.value)
      ensures player == nowPlaying && isPlaying
      ensures Consistent() && Labelled()
    {
      var index := FirstIndex(music, nowPlaying.value);
      var url: string;
      if music[index] == music[|music| - 1] {
        url := music[0];
      } else {
        url := music[index + 1];
      }
      lastSong := LastPathComponent(url);
      nowPlaying := Some(url);
      player := Some(url);
      Play();
    }

    /**
     * `prev()`: moves to the track before the current one, wrapping from the
     * first to the last, remembers its name and plays it. The current track
     * must be set and listed, or `firstIndex(of:)!` traps.
     */
    method Prev()
      requires nowPlaying.Some? && nowPlaying.value in music
      modifies this`lastSong, this`nowPlaying, this`player, this`isPlaying
      ensures nowPlaying == Some(PrevTrack(music, old(nowPlaying.value)))
      ensures lastSong == LastPathComponent(nowPlaying.value)
      ensures player == nowPlaying && isPlaying
      ensures Consistent() && Labelled()
    {
      var index := FirstIndex(music, nowPlaying.value);
      var url: string;
      if music[index] == music[0] {
        url := music[|music| - 1];
      } else {
        url := music[index - 1];
      }
      lastSong := LastPathComponent(url);
      nowPlaying := Some(url);
      player := Some(url);
      Play();
    }

    /** The remote play command: plays and succeeds unless already playing. */
    method RemotePlay() returns (status: CommandStatus)
      modifies this`isPlaying
      ensures status == Success <==> !old(isPlaying)
      ensures isPlaying
    {
      if !isPlaying {
        Play();
        return Success;
      }
      return CommandFailed;
    }

    /** The remote pause command: pauses and succeeds unless already paused. */
    method RemotePause() returns (status: CommandStatus)
      modifies this`isPlaying
      ensures status == Success <==> old(isPlaying)
      ensures !isPlaying
    {
      if isPlaying {
        Pause();
        return Success;
      }
      return CommandFailed;
    }

    /** The remote next-track command: fails, changing nothing, when no track is set. */
    method RemoteNext() returns (status: CommandStatus)
      requires Consistent()
      modifies this`lastSong, this`nowPlaying, this`player, this`isPlaying
      ensures status == Success <==> old(nowPlaying).Some?
      ensures status == CommandFailed ==> unchanged(this)
      ensures status == Success ==>
        && nowPlaying == Some(NextTrack(music, old(nowPlaying).value))
        && lastSong == LastPathComponent(nowPlaying.value)
        && player == nowPlaying && isPlaying
      ensures Consistent()
    {
      if nowPlaying != None {
        Next();
        return Success;
      }
      return CommandFailed;
    }

    /** The remote previous-track command: fails, changing nothing, when no track is set. */
    method RemotePrev() returns (status: CommandStatus)
      requires Consistent()
      modifies this`lastSong, this`nowPlaying, this`player, this`isPlaying
      ensures status == Success <==> old(nowPlaying).Some?
      ensures status == CommandFailed ==> unchanged(this)
      ensures status == Success ==>
        && nowPlaying == Some(PrevTrack(music, old(nowPlaying).value))
        && lastSong == LastPathComponent(nowPlaying.value)
        && player == nowPlaying && isPlaying
      ensures Consistent()
    {
      if nowPlaying != None {
        Prev();
        return Success;
      }
      return CommandFailed;
    }

    /**
     * A tap on a row of the list: remembers the tapped track's name, makes it
     * the current track, loads it into the player and plays it.
     */
    method Select(url: string)
      modifies this`lastSong, this`nowPlaying, this`player, this`isPlaying
      ensures lastSong == LastPathComponent(url)
      ensures nowPlaying == Some(url) && player == nowPlaying && isPlaying
      ensures Labelled()
      ensures url in music ==> Consistent()
    {
      lastSong := LastPathComponent(url);
      nowPlaying := Some(url);
      player := Some(url);
      Play();
    }

    /**
     * The list view appears: unless nothing was ever played, the remembered
     * file in the granted folder becomes the current track and is loaded into
     * the player, without starting playback and without checking that the
     * file is still listed. `downloadsUrl!` traps when no folder is granted.
     */
    method RestoreOnAppear()
      requires lastSong != NotPlaying ==> downloads.Some?
      modifies this`nowPlaying, this`player
      ensures old(lastSong) == NotPlaying ==> unchanged(this)
      ensures lastSong != NotPlaying ==>
        nowPlaying == Some(JoinPath(downloads.value, lastSong)) && player == nowPlaying
      ensures '/' !in lastSong && old(Labelled()) ==> Labelled()
    {
      if lastSong != NotPlaying {
        var url := JoinPath(downloads.value, lastSong);
        nowPlaying := Some(url);
        player := Some(url);
      }
    }

    /**
     * The restore as intended: the remembered file becomes the current track
     * only when it is still listed, so that a later `next()` or `prev()` can
     * find it.
     */
    method RestoreOnAppearChecked()
      requires lastSong != NotPlaying ==> downloads.Some?
      modifies this`nowPlaying, this`player
      ensures lastSong == NotPlaying || JoinPath(downloads.value, lastSong) !in music ==> unchanged(this)
      ensures lastSong != NotPlaying && JoinPath(downloads.value, lastSong) in music ==>
        nowPlaying == Some(JoinPath(downloads.value, lastSong)) && player == nowPlaying
      ensures old(Consistent()) ==> Consistent()
    {
      if lastSong != NotPlaying {
        var url := JoinPath(downloads.value, lastSong);
        if url in music {
          nowPlaying := Some(url);
          player := Some(url);
        }
      }
    }
  }

  /**
   * The as-written restore can leave the current track outside the list: the
   * folder now holds only a.mp3 while "lastSong" still names b.mp3. A later
   * `next()` or `prev()` then traps on `firstIndex(of:)!`.
   */
  method RestoreLeavesList() returns (s: Session)
    ensures s.music == ["/d/a.mp3"] && s.nowPlaying == Some("/d/b.mp3")
    ensures !s.Consistent()
  {
    s := new Session(Some("b.mp3"));
    s.LoadFolder("/d", ["/d/a.mp3"], t => true);
    s.RestoreOnAppear();
    assert JoinPath("/d", "b.mp3") == "/d/b.mp3";
  }

  /** The checked restore keeps the current track listed in the same situation. */
  method RestoreCheckedKeepsList() returns (s: Session)
    ensures s.music == ["/d/a.mp3"] && s.nowPlaying == None
    ensures s.Consistent()
  {
    s := new Session(Some("b.mp3"));
    s.LoadFolder("/d", ["/d/a.mp3"], t => true);
    s.RestoreOnAppearChecked();
  }

  /**
   * The remote play command succeeds while no track is set: a fresh view
   * model reports success and is then playing with nothing loaded.
   */
  method PlayWithoutTrack() returns (s: Session, status: CommandStatus)
    ensures status == Success
    ensures s.isPlaying && s.nowPlaying == None && s.player == None
  {
    s := new Session(None);
    status := s.RemotePlay();
  }
}
