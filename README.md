# MusicSwiftUI playlist and transport model

This project models the playlist and transport state of MusicSwiftUI, a single-screen music player. In the player's `ViewModel` that state is four fields:
- `music`: the MP3 files of the granted folder, in listing order.
- `nowPlaying`: the current track, if any.
- `isPlaying`: the playing flag.
- `lastSong`: the remembered song name. It defaults to "Not playing".

The model also keeps two more fields:
- the granted folder (`downloadsUrl`);
- the track the audio player was last created for, standing in for `player`.

The following operations act on that state:
- `play`/`pause`;
- `next`/`prev`, which step circularly through the list;
- `getMusic(query:)`, the case-insensitive search over file names;
- the MP3 filter of `loadMusic`;
- the four remote-command handlers;
- the two places where the list view writes into the state: the row tap and the `onAppear` restore.

Tracks are file paths written as strings, and two URLs are equal when their paths are.

Modules:
- `Wrappers` (wrappers.dfy): `Option`.
- `Paths` (paths.dfy): `lastPathComponent`, the path join of the restore, ASCII lower-casing and substring search.
- `Catalog` (catalog.dfy): the order-keeping filter behind `loadMusic` and `getMusic`, with the search itself.
- `Playlist` (playlist.dfy): the track `next()` and `prev()` move to, and the lemmas about stepping: one step, the wrap-around, the round trip and the full cycle.
- `Playback` (session.dfy): the class `Session`, which stands for `ViewModel`. Its methods change the fields in place, and each method's postcondition ties the new state to the specification functions above.

Two predicates describe the session state:
- `Session.Consistent`: the current track, when set, is listed. This is what `next()` and `prev()` need, since they force-unwrap `firstIndex(of:)`.
- `Session.Labelled`: `lastSong` is the current track's file name.

Where the code and the player's design description disagree, the model follows the code:
- The remote play command succeeds whenever the player is not playing, even with no current track (`PlayWithoutTrack`).
- The `onAppear` restore does not check that the remembered file is still listed, and it does not touch the playing flag (see Findings).
- A row tap does not check that the tapped track is listed.
- `next()`/`prev()` on a track that is not listed trap rather than report an error. The model states this as their precondition.
- `lastSong` holds a file name, not a full path.

`next()` tests whether the current track EQUALS the last track, not whether its index is the last one. So in a list with repeats it can wrap early. The step and round-trip lemmas therefore assume that no track is repeated. This always holds for a folder listing (`Catalog.KeepDistinct`), and `Playlist.RoundTripNeedsDistinct` shows that the assumption is needed.

## Model

| member | source | states |
|---|---|---|
| Paths.LastPathComponent | Music/ContentView.swift:57-58 | the file name holds no '/', ends the path, and is the whole path or follows a '/' |
| Paths.LastPathComponentUnique | Music/ContentView.swift:57-58 | any suffix of the path with those three properties is the file name, so they define it |
| Paths.JoinPath | Music/ContentView.swift:73 | the restored path is folder + "/" + name, and its file name is that name whenever the name holds no '/' |
| Paths.LowerChar | Music/ContentView.swift:363 | an upper-case ASCII letter becomes its lower-case letter; every other character is kept; no upper-case letter is left |
| Paths.Lower | Music/ContentView.swift:363 | lower-casing keeps the length and lower-cases each character in place |
| Paths.LowerIdempotent | Music/ContentView.swift:363 | lower-casing a lower-cased string changes nothing |
| Paths.Contains | Music/ContentView.swift:363 | `contains` holds exactly when the query occurs at some position of the name |
| Catalog.Keep | Music/ContentView.swift:358 | `filter` keeps the elements that pass the test and only those, each as often as in the input, in input order |
| Catalog.KeepIdempotent | Music/ContentView.swift:358 | filtering the MP3 list again keeps it as it is |
| Catalog.KeepAgreeing | Music/ContentView.swift:363 | two tests that agree on every track keep the same tracks |
| Catalog.KeepDistinct | Music/ContentView.swift:358 | a listing without repeats gives a track list without repeats |
| Catalog.Search | Music/ContentView.swift:361-364 | an empty query gives the whole list; otherwise an order-keeping sublist holding exactly the tracks whose lower-cased name contains the lower-cased query, with their multiplicity |
| Catalog.SearchMembership | Music/ContentView.swift:361-364 | a track is listed exactly when it is in the list and the query is empty or matches its name |
| Catalog.SearchIgnoresCase | Music/ContentView.swift:363 | queries that differ only in the case of ASCII letters give the same list |
| Catalog.SearchIgnoresNameCase | Music/ContentView.swift:363 | two tracks whose names differ only in case are both shown or both hidden |
| Playlist.FirstIndex | Music/ContentView.swift:303 | `firstIndex(of:)` returns a position holding the track, with no earlier position holding it |
| Playlist.NextTrack | Music/ContentView.swift:302-306 | the track `next()` moves to is a listed track |
| Playlist.PrevTrack | Music/ContentView.swift:315-319 | the track `prev()` moves to is a listed track |
| Playlist.FirstIndexDistinct | Music/ContentView.swift:303 | in a list without repeats, a track is found at its own position |
| Playlist.NextWrapsToFirst | Music/ContentView.swift:305 | `next()` from the last track gives the first |
| Playlist.PrevWrapsToLast | Music/ContentView.swift:318 | `prev()` from the first track gives the last |
| Playlist.NextStep | Music/ContentView.swift:303-306 | without repeats, `next()` moves from position i to i + 1, or to 0 from the last position |
| Playlist.PrevStep | Music/ContentView.swift:316-319 | without repeats, `prev()` moves from position i to i - 1, or to the last position from 0 |
| Playlist.PrevAfterNext | Music/ContentView.swift:302-326 | without repeats, `prev()` after `next()` returns to the starting track |
| Playlist.NextAfterPrev | Music/ContentView.swift:302-326 | without repeats, `next()` after `prev()` returns to the starting track |
| Playlist.SingleTrackStays | Music/ContentView.swift:302-326 | on a one-track list, `next()` and `prev()` both stay on that track |
| Playlist.RoundTripNeedsDistinct | Music/ContentView.swift:305 | with a repeated track the round trip fails: in [a, b, a], `prev()` after `next()` from b gives a |
| Playlist.NextTimes | Music/ContentView.swift:302-313 | any number of `next()` presses stays on a listed track |
| Playlist.NextTimesAdd | Music/ContentView.swift:302-313 | a presses then b presses of next are a + b presses |
| Playlist.NextTimesAdvance | Music/ContentView.swift:302-313 | without repeats, k presses of next from position i reach position i + k while i + k is in the list |
| Playlist.NextTimesFullCycle | Music/ContentView.swift:302-313 | without repeats, as many presses of next as there are tracks bring any track back to itself |
| Playback.Session.constructor | Music/ContentView.swift:217-223 | a new view model has no tracks, no folder, no current track and an empty player, and is not playing; `lastSong` is the remembered name or "Not playing" |
| Playback.Session.LoadFolder | Music/ContentView.swift:348-358 | the folder is recorded; the list is the listing filtered by the MP3 test; it holds exactly the listed MP3 files and has no repeats when the listing has none |
| Playback.Session.Play | Music/ContentView.swift:292-295 | the session is playing afterwards and no other field changes, so a second call changes nothing |
| Playback.Session.Pause | Music/ContentView.swift:297-300 | the session is paused afterwards and no other field changes, so a second call changes nothing |
| Playback.Session.Next | Music/ContentView.swift:302-313 | requires a set and listed current track; the next track (wrapping) becomes current and is loaded into the player; its name becomes `lastSong`; the session plays; the list is unchanged |
| Playback.Session.Prev | Music/ContentView.swift:315-326 | requires a set and listed current track; the previous track (wrapping) becomes current and is loaded into the player; its name becomes `lastSong`; the session plays; the list is unchanged |
| Playback.Session.RemotePlay | Music/ContentView.swift:235-241 | succeeds exactly when the session was not playing; plays afterwards either way; touches nothing else |
| Playback.Session.RemotePause | Music/ContentView.swift:243-249 | succeeds exactly when the session was playing; is paused afterwards either way; touches nothing else |
| Playback.Session.RemoteNext | Music/ContentView.swift:251-257 | fails, changing nothing, exactly when no track is set; otherwise does what `next()` does |
| Playback.Session.RemotePrev | Music/ContentView.swift:259-265 | fails, changing nothing, exactly when no track is set; otherwise does what `prev()` does |
| Playback.Session.Select | Music/ContentView.swift:56-63 | the tapped track becomes current, is loaded into the player and plays; its name becomes `lastSong`; the current track is listed when the tapped one is |
| Playback.Session.RestoreOnAppear | Music/ContentView.swift:71-79 | unless `lastSong` is "Not playing", folder + "/" + `lastSong` becomes current and is loaded into the player, whether or not it is listed; the playing flag, the list and `lastSong` are unchanged |
| Playback.Session.RestoreOnAppearChecked | Music/ContentView.swift:71-79 | the same restore, but only for a listed file; it keeps the current track listed |
| Playback.RestoreLeavesList | Music/ContentView.swift:71-79 | folder lists only /d/a.mp3 and `lastSong` is b.mp3: after the restore the current track is /d/b.mp3, which is not listed |
| Playback.RestoreCheckedKeepsList | Music/ContentView.swift:71-79 | in the same situation the checked restore leaves no current track, and the state stays consistent |
| Playback.PlayWithoutTrack | Music/ContentView.swift:235-241 | the remote play command succeeds on a fresh view model, which is then playing with no track |

## Left out

- The audio player, `AVPlayer` creation and playback, and the `AVAudioSession` setup (Music/ContentView.swift:60, 223-228) are foreign media frameworks. `player` is modelled only as the path it was last created for.
- Metadata extraction and now-playing publication (`setInfo`, `setupNowPlaying`, Music/ContentView.swift:140-160, 268-290) are left out. They read media tags and publish floating-point times to a system service.
- Bookmark and sandbox handling (`addBookmark`, `loadBookmark`, `getAppSandboxDirectory`) is file I/O. `Session.LoadFolder` receives the resolved folder and its listing as parameters.
- Directory enumeration is left out. Its result is the `entries` parameter.
- The `isMP3` content-type lookup is file-system access. It is the `isMP3` parameter, an arbitrary test.
- UserDefaults persistence is modelled only as the `lastSong` field. The value read at start-up is the constructor's `stored` parameter.
- SwiftUI views, including the in-app previous/play-pause/next buttons (Music/ContentView.swift:100-128, 180-208), are UI glue. So are `VolumeSlider`, `DocumentPicker` and `@Published` change notification.
- Paths.Lower: folds only the ASCII letters A-Z, whereas Swift's `lowercased()` applies Unicode case mapping.
- Paths.Contains: compares characters one by one, whereas Swift compares grapheme clusters under canonical equivalence.
- Paths.LastPathComponent: gives the text after the final '/'. It does not strip a trailing '/' or treat the root path specially as Foundation does. Listed files never end in '/'.
- Playback.Session.Play: the idempotence of play and pause follows from the postconditions, which do not depend on the old flag. No separate lemma states it, since lemmas cannot call methods.
- Rescanning the folder while a track is current can leave that track unlisted. The code has no policy for this, and the model does not add one.

## Findings

| source | as written | input that shows it | evidently intended | confidence | as-written member | corrected member |
|---|---|---|---|---|---|---|
| Music/ContentView.swift:71-79 | the remembered file becomes the current track without a check that it is still listed, so a later next()/prev() traps on `firstIndex(of:)!` (lines 303, 316) | folder lists only /d/a.mp3, `lastSong` is "b.mp3" | restore the remembered file only when it is still listed | medium, not executed | Playback.RestoreLeavesList | Playback.Session.RestoreOnAppearChecked |
