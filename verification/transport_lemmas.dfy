/** Properties of the transport across operations: the invariants every
    button keeps, what the flags say about the mixer, the three-state view
    of the controls, whole sessions of user actions, and the wrap-around of
    the next button. */
module TransportLemmas {
  import opened Options
  import opened Mixer
  import opened Transport
  import PathScan

  /** `play_song` keeps the invariants and the agreement with the mixer;
      when it completes, the mixer holds exactly the current track. */
  lemma PlaySongCoherent(s: Player, selection: Option<nat>)
    requires Valid(s) && Coherent(s)
    ensures var o := PlaySong(s, selection);
      Valid(o.player) && Coherent(o.player)
    ensures var o := PlaySong(s, selection);
      !o.raised ==> Replay(Fresh, o.player.trace).loaded == Some(o.player.playlist[o.player.current])
  {
    var o := PlaySong(s, selection);
    if !o.raised {
      LoadThenPlay(Fresh, s.trace, s.playlist[o.player.current]);
    }
  }

  /** The play/pause button keeps the invariants and keeps the flags in step
      with the mixer in all three of its branches, and when it raises. */
  lemma PauseSongCoherent(s: Player)
    requires Valid(s) && Coherent(s)
    ensures Valid(PauseSong(s).player) && Coherent(PauseSong(s).player)
  {
    var o := PauseSong(s);
    if !s.paused {
      ReplaySnoc(Fresh, s.trace, Pause);
    } else if s.played {
      ReplaySnoc(Fresh, s.trace, Unpause);
    } else if !o.raised {
      var t := s.trace + [Load(s.playlist[s.current]), Play];
      LoadThenPlay(Fresh, s.trace, s.playlist[s.current]);
      assert o.player.trace == t + [Unpause];
      ReplaySnoc(Fresh, t, Unpause);
    }
  }

  /** The previous button keeps the invariants; when it completes, the
      mixer holds the new current track, and when it raises nothing but the
      index has changed. */
  lemma PrevSongCoherent(s: Player)
    requires Valid(s) && Coherent(s)
    ensures Valid(PrevSong(s).player) && Coherent(PrevSong(s).player)
    ensures var o := PrevSong(s);
      !o.raised ==> Replay(Fresh, o.player.trace).loaded == Some(o.player.playlist[o.player.current])
  {
    var o := PrevSong(s);
    if !o.raised {
      LoadThenPlay(Fresh, s.trace, s.playlist[o.player.current]);
    }
  }

  /** The next button keeps the invariants, and on any non-empty playlist
      leaves the mixer holding the new current track, also on the wrap that
      raises after playing the first track. */
  lemma NextSongCoherent(s: Player)
    requires Valid(s) && Coherent(s)
    ensures Valid(NextSong(s).player) && Coherent(NextSong(s).player)
    ensures var o := NextSong(s);
      0 < |s.playlist| ==> Replay(Fresh, o.player.trace).loaded == Some(o.player.playlist[o.player.current])
  {
    var o := NextSong(s);
    if 0 < |s.playlist| {
      LoadThenPlay(Fresh, s.trace, s.playlist[o.player.current]);
    }
  }

  /** The play/pause button moves the controls around the three states:
      not started goes to playing (or stays, when the first play raises),
      playing goes to held, held goes to playing. */
  lemma PauseSongModes(s: Player)
    requires Valid(s)
    ensures ModeOf(s) == NotStarted ==>
      ModeOf(PauseSong(s).player) == (if PauseSong(s).raised then NotStarted else Playing)
    ensures ModeOf(s) == Playing ==> ModeOf(PauseSong(s).player) == Held
    ensures ModeOf(s) == Held ==> ModeOf(PauseSong(s).player) == Playing
  {
  }

  /** Pressing play/pause twice on a fresh window: the first press loads the
      first track once and plays it, the second only pauses it. */
  lemma ToggleTwiceFromStart(playlist: seq<string>)
    requires 0 < |playlist|
    ensures var once := PauseSong(Init(playlist));
      && !once.raised
      && once.player.current == 0
      && ModeOf(once.player) == Playing
      && once.player.trace == Init(playlist).trace + [Load(playlist[0]), Play, Unpause]
      && PauseSong(once.player).player.trace == once.player.trace + [Pause]
      && ModeOf(PauseSong(once.player).player) == Held
  {
  }

  /** Pressing next on the last track plays the first track exactly once
      and then raises, with the index at 0 and the track started. */
  lemma NextAtLastTrack(s: Player)
    requires Valid(s) && Coherent(s)
    requires 0 < |s.playlist| && s.current == |s.playlist| - 1
    ensures NextSong(s).raised
    ensures NextSong(s).player.current == 0
    ensures NextSong(s).player.trace == s.trace + [Load(s.playlist[0]), Play]
    ensures Replay(Fresh, NextSong(s).player.trace).playing
  {
    LoadThenPlay(Fresh, s.trace, s.playlist[0]);
  }

  /** A user action on the window. */
  datatype Action =
    | DoubleClick(row: nat)
    | TogglePause
    | Previous
    | Next
    | Slide(position: real)
    | LoadSongs(walk: seq<PathScan.WalkEntry>)

  /** Whether the handler for `a` raises on `s`: asking for the selected
      row of an empty list (a double-click with no track), reading the
      playlist past its end (`play_song`), or highlighting a listbox row
      outside the list (`prev_song` on the last row, `next_song` on the
      wrap). */
  predicate Raises(s: Player, a: Action)
  {
    match a
    case DoubleClick(row) => |s.playlist| <= row
    case TogglePause => s.paused && !s.played && |s.playlist| <= s.current
    case Previous => |s.playlist| <= Max(s.current - 1, 0) + 1
    case Next => |s.playlist| - 1 <= s.current
    case Slide(_) => false
    case LoadSongs(_) => false
  }

  /** One user action and what its handler leaves behind. A double-click
      on an empty list finds no selected row and raises before the index is
      written, so it changes nothing. */
  function Step(s: Player, a: Action): (o: Outcome)
    requires 0 <= s.current
    ensures o.raised <==> Raises(s, a)
    ensures a.DoubleClick? && |s.playlist| == 0 ==> o.player == s
    ensures s.trace <= o.player.trace
    ensures 0 <= o.player.current
    ensures s.played ==> o.player.played
  {
    match a
    case DoubleClick(row) =>
      if |s.playlist| == 0 then Outcome(s, true) else PlaySong(s, Some(row))
    case TogglePause => PauseSong(s)
    case Previous => PrevSong(s)
    case Next => NextSong(s)
    case Slide(position) => Outcome(ChangeVolume(s, position), false)
    case LoadSongs(walk) => Outcome(Rescan(s, walk), false)
  }

  /** A session: the actions in order; the window carries on after a
      handler raises, from whatever that handler left. */
  function Run(s: Player, actions: seq<Action>): (r: Player)
    requires 0 <= s.current
    ensures s.trace <= r.trace
    ensures 0 <= r.current
    ensures s.played ==> r.played
    decreases |actions|
  {
    if |actions| == 0 then s
    else Run(Step(s, actions[0]).player, actions[1..])
  }

  /** Every action, whether it completes or raises, keeps the invariants and
      the agreement with the mixer. */
  lemma StepKeepsInvariants(s: Player, a: Action)
    requires Valid(s) && Coherent(s)
    ensures Valid(Step(s, a).player) && Coherent(Step(s, a).player)
  {
    match a
    case DoubleClick(row) => PlaySongCoherent(s, Some(row));
    case TogglePause => PauseSongCoherent(s);
    case Previous => PrevSongCoherent(s);
    case Next => NextSongCoherent(s);
    case Slide(position) =>
      assert Step(s, a).player.trace == s.trace + [SetVolume(VolumeLevel(position))];
      ReplaySnoc(Fresh, s.trace, SetVolume(VolumeLevel(position)));
    case LoadSongs(walk) =>
  }

  /** Every session keeps the invariants and the agreement between the
      flags and the mixer. */
  lemma {:induction false} RunKeepsInvariants(s: Player, actions: seq<Action>)
    requires Valid(s) && Coherent(s)
    ensures Valid(Run(s, actions)) && Coherent(Run(s, actions))
    decreases |actions|
  {
    if |actions| > 0 {
      StepKeepsInvariants(s, actions[0]);
      RunKeepsInvariants(Step(s, actions[0]).player, actions[1..]);
    }
  }

  /** Every player reachable from the opening window is valid and coherent:
      its index is never negative, and the play/pause flags describe what
      the mixer was last told. */
  lemma Reachable(playlist: seq<string>, actions: seq<Action>)
    ensures Valid(Run(Init(playlist), actions)) && Coherent(Run(Init(playlist), actions))
  {
    RunKeepsInvariants(Init(playlist), actions);
  }

  /** A double-click on a row past the end of the playlist raises before
      any mixer call. On a non-empty list only the index has changed; on an
      empty list nothing has, as no row is selected. */
  lemma SelectOutOfRange(s: Player, row: nat)
    requires 0 <= s.current && |s.playlist| <= row
    ensures Step(s, DoubleClick(row)).raised
    ensures 0 < |s.playlist| ==> Step(s, DoubleClick(row)).player == s.(current := row)
    ensures |s.playlist| == 0 ==> Step(s, DoubleClick(row)).player == s
  {
  }

  /** A rescan that shrinks the playlist to or below the index leaves a
      stale index: previous raises without any mixer call, and next plays
      the first track and then raises. */
  lemma StaleIndexAfterRescan(s: Player, walk: seq<PathScan.WalkEntry>)
    requires 0 < |PathScan.Scan(PathScan.Mp3Filter, walk)| <= s.current
    ensures var r := Rescan(s, walk);
      Step(r, Previous).raised && Step(r, Previous).player.trace == s.trace
    ensures var r := Rescan(s, walk);
      && Step(r, Next).raised
      && Step(r, Next).player.current == 0
      && Step(r, Next).player.trace == s.trace + [Load(PathScan.Scan(PathScan.Mp3Filter, walk)[0]), Play]
  {
  }

  /** The next button pressed `k` times; a press that raises after the
      wrap still leaves the new index in place. */
  function NextTimes(s: Player, k: nat): (r: Player)
    requires 0 < |s.playlist| && 0 <= s.current
    ensures r.playlist == s.playlist && 0 <= r.current
    decreases k
  {
    if k == 0 then s else NextSong(NextTimes(s, k - 1)).player
  }

  lemma MulAtLeast(k: int, n: int)
    requires 1 <= k && 0 < n
    ensures n <= k * n
  {
  }

  /** Division with remainder is unique: a quotient and a remainder in
      `[0, n)` that rebuild `a` are `a / n` and `a % n`. */
  lemma ModUnique(a: int, n: int, q: int, m: int)
    requires 0 < n && a == q * n + m && 0 <= m < n
    ensures a % n == m
  {
    var q', m' := a / n, a % n;
    assert (q - q') * n == m' - m;
    if q > q' {
      MulAtLeast(q - q', n);
    } else if q < q' {
      MulAtLeast(q' - q, n);
    }
  }

  lemma ModAddSelf(c: nat, n: nat)
    requires c < n
    ensures (c + n) % n == c
  {
    ModUnique(c + n, n, 1, c);
  }

  lemma ModSucc(x: nat, n: nat)
    requires 0 < n
    ensures (x % n + 1) % n == (x + 1) % n
  {
    var q, m := x / n, x % n;
    if m + 1 < n {
      ModUnique(x + 1, n, q, m + 1);
      ModUnique(m + 1, n, 0, m + 1);
    } else {
      assert x + 1 == (q + 1) * n + 0;
      ModUnique(x + 1, n, q + 1, 0);
      ModUnique(m + 1, n, 1, 0);
    }
  }

  /** From a valid index, `k` presses of next land on `(current + k) mod N`;
      in particular, pressing next once per track returns to the track one
      started from. */
  lemma {:induction false} NextCycle(s: Player, k: nat)
    requires 0 < |s.playlist| && 0 <= s.current < |s.playlist|
    ensures NextTimes(s, k).current == (s.current + k) % |s.playlist|
    ensures k == |s.playlist| ==> NextTimes(s, k).current == s.current
  {
    if k > 0 {
      NextCycle(s, k - 1);
      ModSucc(s.current + k - 1, |s.playlist|);
    }
    if k == |s.playlist| {
      ModAddSelf(s.current, k);
    }
  }
}
