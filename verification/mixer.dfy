/** The audio backend seen from the player: the commands the transport issues
    to the mixer, and a small reading of what a run of those commands leaves
    the mixer doing. The mixer itself is a foreign library; only the effect of
    each command on "what is loaded" and "has it been started and not paused
    since" is modelled; a track that ends on its own is not. */
module Mixer {
  import opened Options

  /** One call into the mixer: `music.load`, `music.play`, `music.pause`,
      `music.unpause` and `music.set_volume`. */
  datatype Command =
    | Load(path: string)
    | Play
    | Pause
    | Unpause
    | SetVolume(level: real)

  /** What the mixer holds: the loaded track (if any), whether it has been
      started and not paused since, and the output volume. */
  datatype Deck = Deck(loaded: Option<string>, playing: bool, volume: real)

  /** The mixer right after `init`: nothing loaded, silent, full volume. */
  const Fresh: Deck := Deck(None, false, 1.0)

  /** Loading replaces (and stops) whatever was loaded; play and unpause
      start a loaded track; pause stops it. */
  function Apply(d: Deck, c: Command): (e: Deck)
  {
    match c
    case Load(p) => Deck(Some(p), false, d.volume)
    case Play => d.(playing := d.loaded.Some?)
    case Pause => d.(playing := false)
    case Unpause => d.(playing := d.loaded.Some?)
    case SetVolume(v) => d.(volume := v)
  }

  /** The mixer after receiving the commands of `trace`, oldest first. */
  function Replay(d: Deck, trace: seq<Command>): (e: Deck)
    decreases |trace|
  {
    if |trace| == 0 then d else Replay(Apply(d, trace[0]), trace[1..])
  }

  /** Replaying a trace in two pieces is replaying it whole: this is what lets
      each operation be judged by the commands it appends. */
  lemma {:induction false} ReplayAppend(d: Deck, t: seq<Command>, u: seq<Command>)
    ensures Replay(d, t + u) == Replay(Replay(d, t), u)
    decreases |t|
  {
    if |t| == 0 {
      assert t + u == u;
    } else {
      assert (t + u)[0] == t[0];
      assert (t + u)[1..] == t[1..] + u;
      ReplayAppend(Apply(d, t[0]), t[1..], u);
    }
  }

  /** A trace extended by one command moves the mixer one step further. */
  lemma ReplaySnoc(d: Deck, t: seq<Command>, c: Command)
    ensures Replay(d, t + [c]) == Apply(Replay(d, t), c)
  {
    ReplayAppend(d, t, [c]);
    assert Replay(Replay(d, t), [c]) == Replay(Apply(Replay(d, t), c), []);
  }

  /** Loading a track and playing it leaves exactly that track started,
      whatever the mixer was doing before. */
  lemma LoadThenPlay(d: Deck, t: seq<Command>, path: string)
    ensures Replay(d, t + [Load(path), Play]).loaded == Some(path)
    ensures Replay(d, t + [Load(path), Play]).playing
  {
    assert t + [Load(path), Play] == (t + [Load(path)]) + [Play];
    ReplaySnoc(d, t, Load(path));
    ReplaySnoc(d, t + [Load(path)], Play);
  }
}
