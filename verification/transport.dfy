/** The playback transport of the player window: the playlist, the index of
    the current track and the two flags `paused` and `played`, together with
    the commands every button has sent to the mixer so far. Each handler is a
    pure step from one record to the next; the mixer calls it makes are
    appended to `trace`. */
module Transport {
  import opened Options
  import opened Mixer
  import PathScan

  datatype Player = Player(
    playlist: seq<string>,
    current: int,
    paused: bool,
    played: bool,
    trace: seq<Command>)

  /** The three states the controls show: nothing loaded yet, a track
      playing, a track held. */
  datatype Mode = NotStarted | Playing | Held

  function Max(a: int, b: int): (m: int)
  {
    if a < b then b else a
  }

  /** The volume the window starts at: slider position 7 of 10. */
  const StartVolume: real := 0.7

  /** What every reachable player satisfies: the index is never negative,
      and a track can be playing only once one has been loaded. */
  predicate Valid(s: Player)
  {
    s.current >= 0 && (!s.paused ==> s.played)
  }

  /** The flags describe the mixer: something is loaded exactly when a track
      has been played, and from then on a track has been started and not
      paused since exactly when the player is not paused. */
  predicate Coherent(s: Player)
  {
    var d := Replay(Fresh, s.trace);
    && (d.loaded.Some? <==> s.played)
    && (s.played ==> d.playing == !s.paused)
  }

  function ModeOf(s: Player): (m: Mode)
  {
    if !s.played then NotStarted else if s.paused then Held else Playing
  }

  /** The window as it opens on a stored (or empty) playlist: first track
      selected, paused, nothing loaded, volume set to 0.7. */
  function Init(playlist: seq<string>): (s: Player)
    ensures s.playlist == playlist
    ensures s.current == 0 && s.paused && !s.played
    ensures Valid(s) && Coherent(s) && ModeOf(s) == NotStarted
    ensures Replay(Fresh, s.trace).loaded == None
    ensures Replay(Fresh, s.trace).volume == StartVolume
  {
    Player(playlist, 0, true, false, [SetVolume(StartVolume)])
  }

  /** What a handler leaves behind: the player, and whether the handler
      stopped early with an exception. tkinter reports the exception and the
      window carries on, keeping every field the handler had already set. */
  datatype Outcome = Outcome(player: Player, raised: bool)

  /** `play_song`: with no selection, play the current track; from a
      double-click, first make the clicked row current. Reading the playlist
      at an index past its end raises before any mixer call. */
  function PlaySong(s: Player, selection: Option<nat>): (o: Outcome)
    requires selection.None? ==> 0 <= s.current
    ensures o.player.playlist == s.playlist
    ensures selection.None? ==> o.player.current == s.current
    ensures selection.Some? ==> o.player.current == selection.value
    ensures o.raised <==> |s.playlist| <= o.player.current
    ensures o.raised ==>
      o.player.paused == s.paused && o.player.played == s.played && o.player.trace == s.trace
    ensures !o.raised ==> !o.player.paused && o.player.played
    ensures !o.raised ==>
      o.player.trace == s.trace + [Load(s.playlist[o.player.current]), Play]
  {
    var index: nat := if selection.Some? then selection.value else s.current;
    var chosen := s.(current := index);
    if index < |s.playlist| then
      Outcome(chosen.(paused := false, played := true,
                      trace := s.trace + [Load(s.playlist[index]), Play]), false)
    else
      Outcome(chosen, true)
  }

  /** `pause_song`: the play/pause button. Playing: pause. Held after a
      track was played: resume without reloading. Never played: load and
      play the current track first, then unpause; that first play raises
      when the index is past the end, and then nothing changes. */
  function PauseSong(s: Player): (o: Outcome)
    requires s.paused && !s.played ==> 0 <= s.current
    ensures o.player.playlist == s.playlist && o.player.current == s.current
    ensures o.raised <==> s.paused && !s.played && |s.playlist| <= s.current
    ensures o.raised ==> o.player == s
    ensures !o.raised ==> o.player.paused == !s.paused
    ensures !o.raised ==> o.player.played == (s.played || s.paused)
    ensures !s.paused ==> o.player.trace == s.trace + [Pause]
    ensures s.paused && s.played ==> o.player.trace == s.trace + [Unpause]
    ensures s.paused && !s.played && !o.raised ==>
      o.player.trace == s.trace + [Load(s.playlist[s.current]), Play, Unpause]
  {
    if !s.paused then
      Outcome(s.(paused := true, trace := s.trace + [Pause]), false)
    else if s.played then
      Outcome(s.(paused := false, trace := s.trace + [Unpause]), false)
    else
      var started := PlaySong(s, None);
      if started.raised then started
      else
        var t := started.player;
        Outcome(t.(paused := false, trace := t.trace + [Unpause]), false)
  }

  /** `prev_song`: step back one track, stopping at the first, then
      highlight the row below the new one and play the new track. The
      listbox has one row per track and refuses to highlight a row past its
      end, so the handler raises, with the new index already set and no
      mixer call, whenever the new track is the last one. */
  function PrevSong(s: Player): (o: Outcome)
    ensures o.player.playlist == s.playlist
    ensures o.player.current == Max(s.current - 1, 0)
    ensures o.raised <==> |s.playlist| <= o.player.current + 1
    ensures 0 <= s.current < |s.playlist| ==> (o.raised <==> |s.playlist| == 1)
    ensures o.raised ==>
      o.player.paused == s.paused && o.player.played == s.played && o.player.trace == s.trace
    ensures !o.raised ==> !o.player.paused && o.player.played
    ensures !o.raised ==>
      o.player.trace == s.trace + [Load(s.playlist[o.player.current]), Play]
  {
    var index := if s.current > 0 then s.current - 1 else 0;
    var moved := s.(current := index);
    if |s.playlist| <= index + 1 then Outcome(moved, true)
    else PlaySong(moved, None)
  }

  /** `next_song`: step forward one track, or wrap from the last track (or
      a stale index past the end) to the first. On the wrap the first track
      is played once, and the highlight of row -1 that follows raises, so
      the second play is never reached; on an empty playlist that first
      play already raises. */
  function NextSong(s: Player): (o: Outcome)
    requires 0 <= s.current
    ensures o.player.playlist == s.playlist
    ensures 0 <= o.player.current
    ensures 0 <= s.current < |s.playlist| ==>
      o.player.current == (s.current + 1) % |s.playlist|
    ensures |s.playlist| - 1 <= s.current ==> o.player.current == 0
    ensures o.raised <==> |s.playlist| - 1 <= s.current
    ensures 0 < |s.playlist| ==> !o.player.paused && o.player.played
    ensures 0 < |s.playlist| ==>
      o.player.trace == s.trace + [Load(s.playlist[o.player.current]), Play]
    ensures |s.playlist| == 0 ==>
      o.player.paused == s.paused && o.player.played == s.played && o.player.trace == s.trace
  {
    if s.current < |s.playlist| - 1 then
      PlaySong(s.(current := s.current + 1), None)
    else
      var first := PlaySong(s.(current := 0), None);
      Outcome(first.player, true)
  }

  /** `change_volume`: the slider's position divided by ten. The code does
      not clamp; the slider only offers positions 0 to 10. */
  function VolumeLevel(position: real): (level: real)
    ensures level * 10.0 == position
    ensures 0.0 <= position <= 10.0 ==> 0.0 <= level <= 1.0
  {
    position / 10.0
  }

  function ChangeVolume(s: Player, position: real): (r: Player)
    ensures r.playlist == s.playlist && r.current == s.current
    ensures r.paused == s.paused && r.played == s.played
    ensures |r.trace| == |s.trace| + 1 && r.trace[..|s.trace|] == s.trace
    ensures r.trace[|s.trace|] == SetVolume(VolumeLevel(position))
  {
    s.(trace := s.trace + [SetVolume(VolumeLevel(position))])
  }

  /** `retrieve_songs`: the playlist is replaced wholesale by the scan of
      the walk; the index and both flags are left as they were, and the
      mixer is not touched. */
  function Rescan(s: Player, walk: seq<PathScan.WalkEntry>): (r: Player)
    ensures r.playlist == PathScan.Scan(PathScan.Mp3Filter, walk)
    ensures r.current == s.current && r.paused == s.paused && r.played == s.played
    ensures r.trace == s.trace
  {
    s.(playlist := PathScan.Scan(PathScan.Mp3Filter, walk))
  }
}
