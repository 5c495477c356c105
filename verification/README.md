# MP3 player transport, in Dafny

A model of the logic inside the desktop MP3 player's `Player` window class (`music_player.py`). The rest of the file builds tkinter widgets around the pygame mixer. The model has two parts.

- **The playback transport.** The state is the playlist, the index of the current track, and the flags `paused` and `played`. The handlers are `play_song` (plain, or from a double-click on a playlist row), `pause_song`, `prev_song`, `next_song`, `change_volume`, and the playlist replacement at the end of `retrieve_songs`. `play_song`, `pause_song`, `prev_song` and `next_song` are pure functions from one `Transport.Player` record to an outcome holding the next. `change_volume` and the playlist replacement cannot raise and return the next `Player` directly; `TransportLemmas.Step` wraps them in an outcome. The mixer calls it makes (`load`, `play`, `pause`, `unpause`, `set_volume`) are appended to the record's `trace` as `Mixer.Command` values.
- **The directory scan.** `PathScan.Scan` takes the output of the directory walk as a sequence of `(root, files)` entries and a file-name filter. It keeps the files the filter accepts, joins each to its root with `/`, and turns every backslash into `/`. It keeps the walk's order. The program's filter is `PathScan.Mp3Filter`: the extension, as POSIX `os.path.splitext` computes it, is exactly `.mp3`. The order, membership and count lemmas hold for any filter.

`Mixer.Replay` gives a small reading of a command trace: which track is loaded, and whether a track has been started and not paused since. This lets the model state what the two flags mean. `Transport.Coherent` says:

- the mixer holds a track exactly when `played` is set;
- from then on, a track has been started and not paused since exactly when `paused` is clear.

A handler returns a `Transport.Outcome`: the player it leaves behind, and whether it stopped with an exception. tkinter reports such an exception and the window carries on with every field the handler had already set, so the outcome keeps those partial updates. Handlers raise in three ways: a double-click on an empty list, where no row is selected and reading the selection at line 145 raises before the index is written; reading the playlist past its end in `play_song`; and highlighting a listbox row outside the list in `prev_song` and `next_song`. The listbox has one row per track and Tk refuses `itemconfigure` on an index outside `[0, size)`.

`TransportLemmas.Step` and `TransportLemmas.Run` replay whole sessions of user actions, continuing after a handler raises. `TransportLemmas.Reachable` proves two things for every session from the opening window. The index is never negative. The flags agree with the mixer.

Modules: `Options` (optional values), `Mixer` (commands and their reading), `PathScan` (the scan), `Transport` (state and handlers), `TransportLemmas` (properties across handlers and sessions).

## Model

| member | source | states |
|---|---|---|
| Transport.Init | music_player.py:26-28 | A new window selects index 0, is paused, and has played nothing. It is valid and coherent, and its mode is "not started". The mixer holds no track and is set to volume 0.7. |
| Transport.PlaySong | music_player.py:143-158 | With no event the index is kept; with a double-click it becomes the clicked row. It raises exactly when that index is past the end, and then issues nothing and keeps both flags. Otherwise the player is unpaused and has played, and exactly `Load(playlist[current])` then `Play` is issued. The playlist is unchanged. |
| Transport.PauseSong | music_player.py:161-171 | From playing it issues only `Pause`. From paused after something was played it issues only `Unpause`, with no reload. From paused before anything was played it issues `Load(current)`, `Play`, `Unpause`. That last branch raises exactly when the index is past the end, and then nothing changes. Otherwise `paused` is flipped and `played` is set exactly when it was already set or the player was paused. |
| Transport.PrevSong | music_player.py:174-180 | The new index is `max(current - 1, 0)`, so a press at the first track stays there. It raises exactly when the new index is the last row or past it, with the new index kept and nothing issued. From an index in range that happens exactly on a one-track playlist. Otherwise it plays the new track. |
| Transport.NextSong | music_player.py:183-190 | From an index in range short of the last, the new index is `current + 1` and that track plays. From the last track, or a stale index past the end, the index becomes 0, the first track plays once, and the handler raises. On an empty playlist it raises with nothing issued. It raises exactly when `current >= N - 1`. |
| Transport.VolumeLevel | music_player.py:193-195 | The mixer level is the slider position divided by ten. Ten times the level gives back the position. A position in `[0, 10]` gives a level in `[0, 1]`. |
| Transport.ChangeVolume | music_player.py:193-195 | Appends exactly one `SetVolume` of the slider's level. The playlist, index and both flags are untouched. |
| Transport.Rescan | music_player.py:137-140 | The playlist becomes the `.mp3` scan of the walk wholesale. The index, both flags and the mixer trace are left unchanged. |
| Mixer.LoadThenPlay | music_player.py:149-158 | After `load(path)` then `play`, the mixer holds exactly `path` and has started it, whatever happened before. |
| PathScan.ExtStart | music_player.py:130 | The extension starts at a dot, or there is none. It exists exactly when something other than a dot lies between the last separator and the last dot, and then it starts at the last dot. Nothing after that start is a dot or a separator. |
| PathScan.SplitExt | music_player.py:130 | Root followed by extension rebuilds the name. The extension is non-empty exactly when something other than a dot lies between the last separator and the last dot, and then the root ends just before the last dot. The extension is empty or starts with a dot, and holds no further dot or separator. |
| PathScan.IsMp3Iff | music_player.py:130 | A file name without a separator passes the filter exactly when it ends in `.mp3` and something other than dots precedes that suffix. This holds in both directions. |
| PathScan.KeptWithStem | music_player.py:130 | Any stem with a non-dot character, followed by `.mp3`, is kept. This covers `song.mp3` and `.hidden.mp3`. |
| PathScan.DroppedWhenAllDots | music_player.py:130 | `.mp3`, `..mp3` and any other run of dots followed by `mp3` is a hidden name with no extension. It is dropped. |
| PathScan.DroppedWhenUpperCase | music_player.py:130 | The match is case-sensitive: `X.MP3` is dropped. |
| PathScan.DroppedWhenSuffixed | music_player.py:130 | Only the last extension counts: `X.mp3.bak` is dropped. |
| PathScan.Normalise | music_player.py:131 | The result has the same length and contains no backslash. Every backslash becomes `/` and every other character is kept in place. |
| PathScan.NormaliseIdempotent | music_player.py:131 | Normalising twice equals normalising once. A path is left unchanged exactly when it has no backslash. |
| PathScan.ScanDir | music_player.py:129-132 | A directory contributes at most as many tracks as it has files, and none contains a backslash. |
| PathScan.Scan | music_player.py:128-132 | The new playlist has at most as many entries as the walk has files, and no entry contains a backslash. |
| PathScan.ScanDirAppend | music_player.py:129-132 | Within a directory, files listed earlier come first. Scanning `f + g` gives the scan of `f` followed by the scan of `g`. |
| PathScan.ScanAppend | music_player.py:128-132 | Across the walk, directories visited earlier come first. Scanning `v + w` gives the scan of `v` followed by the scan of `w`. |
| PathScan.ScanDirMembers | music_player.py:129-132 | A path comes from a directory exactly when it is the joined and normalised path of one of its files that the filter keeps. |
| PathScan.ScanMembers | music_player.py:128-132 | A path is in the new playlist exactly when some file of the walk that the filter keeps produces it. |
| PathScan.ScanDirKeepsAll | music_player.py:129-132 | A directory keeps as many tracks as it has files exactly when the filter keeps every file in it. |
| PathScan.ScanKeepsAll | music_player.py:128-132 | The playlist is as long as the walk's file count exactly when the filter keeps every file. Otherwise it is strictly shorter. |
| PathScan.ScanIsNormalised | music_player.py:128-132 | Every stored path is a fixed point of normalisation. |
| TransportLemmas.PlaySongCoherent | music_player.py:143-158 | After `play_song`, raised or not, the player is valid and coherent. When it completes, the mixer holds exactly `playlist[current]`. |
| TransportLemmas.PauseSongCoherent | music_player.py:161-171 | All three branches of the play/pause button, and the raise in the first, keep the player valid and coherent. |
| TransportLemmas.PrevSongCoherent | music_player.py:174-180 | After `prev_song`, raised or not, the player is valid and coherent. When it completes, the mixer holds the new current track. |
| TransportLemmas.NextSongCoherent | music_player.py:183-190 | After `next_song`, including the wrap that plays once and raises, the player is valid and coherent. On any non-empty playlist the mixer holds the new current track. |
| TransportLemmas.NextAtLastTrack | music_player.py:183-190 | Next at the last track raises after issuing exactly one `Load(first)` and `Play`, with the index at 0 and the first track started. |
| TransportLemmas.PauseSongModes | music_player.py:161-171 | Play/pause moves "not started" to playing (or leaves it when the first play raises), playing to held, and held to playing. |
| TransportLemmas.ToggleTwiceFromStart | music_player.py:161-171 | On a fresh window, the first press loads the first track once, plays it, and keeps index 0. The second press issues only `Pause` and leaves the player held. |
| TransportLemmas.Step | music_player.py:79-115 | A user action raises exactly when its handler finds no selected row, reads the playlist past its end, or highlights a row outside the list. A double-click on an empty list changes nothing. Raised or not, it only appends to the mixer trace, keeps the index non-negative, and never clears `played`. |
| TransportLemmas.Run | music_player.py:79-115 | Over a whole session, carrying on after raises, the mixer trace only grows, the index stays non-negative and `played` never goes back to false. |
| TransportLemmas.StepKeepsInvariants | music_player.py:143-195 | Every action, raised or not, keeps the player valid and coherent. |
| TransportLemmas.RunKeepsInvariants | music_player.py:143-195 | Every session keeps the player valid and coherent. |
| TransportLemmas.Reachable | music_player.py:26-28 | Every player reached from the opening window by any session is valid and coherent. |
| TransportLemmas.SelectOutOfRange | music_player.py:145-149 | A double-click on a row past the end raises before any mixer call. On a non-empty list only the index has changed; on an empty list the selection lookup at line 145 raises first and nothing changes. |
| TransportLemmas.StaleIndexAfterRescan | music_player.py:137-190 | A rescan can leave the index at or past the end of the new playlist. Previous then raises with nothing issued, while next plays the first track once and raises with the index at 0. |
| TransportLemmas.NextCycle | music_player.py:183-190 | From an index in range, `k` presses of next land on `(current + k) mod N`, the raise on each wrap included. `N` presses return to the starting track. |

## Left out

- The tkinter window, frames, labels, images, listbox contents and row colours are presentation and are not modelled. The `itemconfigure` highlight calls in `prev_song` and `next_song` are modelled only through their raise: the listbox is taken to hold one row per track, as `enumerate_songs` makes it.
- The pygame mixer is a foreign library and is not modelled. Only the commands sent to it are recorded. `Mixer.Replay` is a simplified reading of them (load replaces and stops, play/unpause start a loaded track, pause stops it). Decoding errors on `load` are not modelled.
- A track that finishes on its own is not modelled: the mixer then falls silent while `paused` stays clear, so `Transport.Coherent` speaks of "started and not paused since", not of sound.
- Loading the pickled playlist at start-up and saving it after a scan are file I/O through an opaque serialiser and are not modelled. `Transport.Init` takes the starting playlist as a parameter.
- The directory picker and `os.walk` are I/O with a filesystem-dependent order and are not modelled. The walk's result is the input of `PathScan.Scan`. Directory names reported by the walk play no part in the filter.
- `PathScan.ExtStart` follows POSIX `os.path.splitext`, with `/` as the only separator. File names from the walk contain no separator, so the Windows variant agrees on them.
- Transport.VolumeLevel: line 195 divides a float by 10; the model uses exact `real` division, so float rounding is not modelled.
- Transport.PlaySong: Python also accepts a negative index, counting from the end. With no selection the model requires `0 <= current`. `TransportLemmas.Reachable` shows no reachable index is negative.
- Transport.NextSong: requires `0 <= current`. From a negative index the code moves the index and then raises at line 189 (line 149 on an empty playlist). `TransportLemmas.Reachable` shows no reachable index is negative.
- Module-level window creation, image loading and `mainloop` are not modelled.

Behaviour of the code worth noting:

- the volume is not clamped; positions outside `[0, 10]` come only from outside the slider;
- `next_song` at the last track plays the first track once, and then the highlight of row -1 at line 189 raises, so the second `play_song` at line 190 never runs;
- `prev_song` raises at line 179 on a one-track playlist, or when a rescan has left the index at the end, before playing anything;
- the first play/pause press also sends `unpause` after `play`.
