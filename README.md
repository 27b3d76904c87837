# OSC2MIDI bridge — a Dafny model of the translation core

OSC2MIDI is a desktop bridge between Open Sound Control and MIDI. OSC
messages on addresses such as `/ch3note` or `/ch1cc7` become MIDI messages
on the selected output port. Channel-voice messages read from the MIDI
input port, or played from a MIDI file, become OSC messages sent through a
UDP client. This project models the application object `OSCMIDIApp` of
`oscplease.py`, without its Qt window, threads and sockets.

- **Codec** (`codec.dfy`, with `decimal.dfy`, `midi.dfy` and `wrappers.dfy`). Covers:
  - the MIDI → OSC branch table that the live listener and the file player share;
  - the OSC → MIDI decoder, which is a hand-written scanner for the prefix pattern `/ch(\d+)(note|noff|cc(\d+)|pressure|pitch)`, with `\d` read as an ASCII digit;
  - MIDI messages whose field ranges are the ones the MIDI library enforces when it builds a message.
- **Routes** (`routes.dfy`). The set of addresses the OSC server maps, for single-channel mode and for 16-channel mode.
- **History** (`history.dfy`). The record of sent messages: a deque capped at 100 entries, and a sweep that drops entries older than 0.1 s from the front.
- **Schedule** (`schedule.dfy`). The file player's arithmetic:
  - absolute ticks per track;
  - the stable sort of the merged list by tick;
  - the delta-tick walk, with its stop and pause checks and its failure cases.
- **Tempo** (`tempo.dfy`). Conversions between BPM and microseconds per beat, and the scan for a file's first tempo event.
- **Playlist** (`playlist.dfy`). The pure parts of the playlist:
  - the `.mid` intake filter;
  - the sorted folder listing and `os.path.join` as POSIX defines it;
  - the skip arithmetic;
  - the order in which the run loop plays files.
- **App** (`app.dfy`). The class `OscMidiApp`.
  - Its fields are the ones the source mutates: the playback flags, the playlist and its index, the tempo, the slider position and the deque.
  - Its methods are the operations of the source: the OSC handler, the listener loop, the file walk, the playlist run loop, skip, stop, play, intake and tempo reset.
  - What goes out through the MIDI port and the OSC client is collected in ghost sequences. The methods state their results in terms of the functions of the other modules.
  - A playlist run is described file by file: `PlayFile` gives what one file sends, the deque entries it writes, the time it finishes and whether it ends at a stop. The run loop is proved to play its files one after another from those results, each starting when the previous one finished.

Time is modelled as exact real seconds. The clock is a parameter: `now` for the OSC handler, and for the listener a time stamp on each incoming message. The file walk computes its clock from a start time plus the pauses and the tick delays.

What other threads do while a file plays (requesting a stop, pausing) enters the walk as a per-event environment. Each entry says whether a stop was seen before the event and for how many 10 ms polls the walk waited paused.

Observations on the source, each stated as a contract (not defects):
- **A stop during a pause.**
  - The walk checks for a stop before it waits out a pause, not after.
  - So a stop requested while paused lets the next event through.
  - In the model, the environment's stop flag is the one seen at the check before each event.
- **A reset can overwrite the file's tempo.**
  - `reset_tempo` stores the file's exact tempo, then moves the slider.
  - When the slider actually moves, its change handler sets the tempo again from the truncated BPM.
  - A file tempo that is not a whole number of BPM is therefore replaced (`App.ResetRoundsInexactTempo`).
  - A whole-BPM tempo survives (`App.ResetKeepsExactTempo`).
- **A tempo event of 0.**
  - It sets the microseconds per beat to 0.
  - The following division then raises, and the error is caught. BPM and slider stay as they were.
- **An empty playlist with looping on.**
  - The run loop resets the index to 0 and then fails reading entry 0.
  - That ends the thread with `playing` still set.

## Model

| member | source | states |
|---|---|---|
| Decimal.ShowIsNumeral | oscplease.py:755 | The decimal text an f-string gives a channel or controller number is a non-empty run of digits, and `int()` of it is that number again |
| Decimal.DigitRunOfShow | oscplease.py:753 | The greedy `\d+` group consumes exactly the digits of a formatted number when a non-digit follows |
| Decimal.ShowInjective | oscplease.py:715 | Different numbers are formatted as different texts |
| Codec.Encode | oscplease.py:711-742 | A MIDI message is sent as OSC exactly when it is one of the five channel-voice types; every other type is skipped |
| Codec.Emit | oscplease.py:711-742 | One OSC message for a channel-voice message, none for any other |
| Codec.Translate | oscplease.py:707-742 | A stream of MIDI messages sends at most one OSC message per MIDI message, each with a single argument |
| Codec.ToMidi | oscplease.py:763-805 | A recognised route builds a MIDI message only when the first argument exists and every field is in range; the message is channel-voice and on channel N-1 |
| Codec.Decode | oscplease.py:753-809 | An address the pattern does not match is rejected as invalid; an accepted message had a matching address and an argument, and sits on the channel the address names minus one |
| Codec.MatchCommandText | oscplease.py:753 | The command alternatives recognise `note`, `noff`, `ccN`, `pressure` and `pitch` whatever follows them (for `ccN`, unless more digits follow) |
| Codec.MatchCommandCc | oscplease.py:753 | After `cc` the pattern requires controller digits and reads their value |
| Codec.MatchChannel | oscplease.py:753-755 | After `/ch` and a formatted channel number, the match result is that channel with whatever command the rest matches |
| Codec.MatchFormatted | oscplease.py:753 | Every address the encoder formats is recognised as the route it came from, and trailing characters are ignored (prefix match) |
| Codec.FormatAddressInjective | oscplease.py:714-742 | Different routes are never given the same address |
| Codec.EncodeThenDecode | oscplease.py:744-809 | MIDI → OSC → MIDI recovers the channel, the command and the data; a note-on comes back with velocity 100 and a note-off (or a note-on of velocity 0) with velocity 0; extra arguments and trailing address characters make no difference |
| Codec.DecodeThenEncode | oscplease.py:753-805 | OSC → MIDI → OSC: a message the decoder accepts is canonical, and the encoder sends it back with the same first argument to an address naming the same route |
| Codec.DecodeRejectsBareCc | oscplease.py:753 | `/chNcc` without controller digits produces no MIDI message, whatever follows |
| Codec.BareCcIsNoCommand | oscplease.py:753 | `cc` followed by a non-digit matches none of the command alternatives |
| Codec.DecodeRejectsChannel | oscplease.py:755-805 | Channel numbers 0 and above 16 are rejected when the message is built, never wrapped |
| Routes.IndexOf | oscplease.py:618-632 | Every route the mode serves is mapped, at a position of the mapping loops |
| Routes.RouteTableMembership | oscplease.py:618-632 | An address is mapped exactly when the decoder recognises it as a route the mode serves (its channel, and only `note`, `noff` and `cc0`..`cc127`) and it is written in that route's canonical form |
| Routes.PressureAndPitchNotRouted | oscplease.py:618-632 | `pressure` and `pitch` addresses are never mapped, in either mode |
| Routes.RoutedAddressesDecode | oscplease.py:618-632 | Under a valid mode, every mapped address names a MIDI channel 0..15 and a note or controller command |
| Routes.RegisteredDistinct | oscplease.py:618-632 | The mapping loops never map the same address twice |
| Routes.RouteTableSize | oscplease.py:618-632 | Single-channel mode maps 130 addresses, 16-channel mode 2080 |
| History.Push | oscplease.py:205 | Appending to the deque adds one entry, or keeps 100 when full, and the new entry is last |
| History.PushKeepsNewest | oscplease.py:205 | An append keeps the newest entries: the oldest one falls out only when the deque is full |
| History.PushAll | oscplease.py:205 | Any number of appends keeps the deque within 100 entries |
| History.PushAllAppend | oscplease.py:205 | Appending two batches one after the other is appending their concatenation |
| History.PushAllKeepsNewest | oscplease.py:205 | After any appends the deque holds exactly the last min(100, total) entries of old and new together, in order |
| History.Sweep | oscplease.py:890-894 | A sweep never lengthens the deque |
| History.SweepDropsStalePrefix | oscplease.py:890-894 | The sweep removes a prefix of entries more than 0.1 s old and stops at the first entry inside the window; what remains is unchanged and in order |
| History.SweepLeavesOnlyFresh | oscplease.py:890-894 | When the time stamps are in order, every entry left after a sweep is within 0.1 s |
| History.SweepIdempotent | oscplease.py:890-894 | Sweeping again at the same moment removes nothing more |
| History.SweepKeepsBound | oscplease.py:890-894 | A sweep keeps the deque within 100 entries |
| History.PushKeepsChronological | oscplease.py:205 | Appending an entry no older than the newest keeps the deque in time order, even when the oldest falls out |
| History.SweepExample | oscplease.py:749-750 | Entries exactly 0.1 s old stay; older ones go |
| Schedule.TimelineInFoundOrder | oscplease.py:947-952 | The gathered list holds events track after track and, within a track, in file order, all from the file's tracks |
| Schedule.TimelineTicks | oscplease.py:948-952 | Each gathered event carries the running sum of its track's deltas up to and including it, and its own message |
| Schedule.Insert | oscplease.py:953 | Inserting into the sorted list adds exactly the one event |
| Schedule.SortByTick | oscplease.py:953 | The sort is a permutation of its input |
| Schedule.InsertSorted | oscplease.py:953 | Stable insertion of an event found after all others keeps the list ordered by tick, with ties in found order |
| Schedule.SortByTickSorted | oscplease.py:953 | Sorting a list in found order yields the stable order: by tick, ties in found order |
| Schedule.MergeSpec | oscplease.py:947-953 | The merged list is a permutation of all track events, non-decreasing in absolute tick, with ties kept in track order and then in order within the track |
| Schedule.DeltaTicksNonNegative | oscplease.py:965 | On the merged list every tick delta the walk sleeps for is non-negative |
| Schedule.SumDeltasIsTick | oscplease.py:955-968 | The deltas slept add up to the absolute tick of the last event reached |
| Schedule.ElapsedSplits | oscplease.py:962-968 | Time spent is pause time plus the absolute tick reached converted at the tempo; the pause wait does not move the tick accounting |
| Schedule.WalkOutcome | oscplease.py:957-1004 | An abort or a failure is reported at an event of the list, never beyond it |
| Schedule.UndisturbedWalkCompletes | oscplease.py:957-1001 | Without a stop, with a tick resolution and an OSC client, the walk handles every event |
| Schedule.StopBoundsWalk | oscplease.py:958-960 | A stop seen before event j means the walk does not complete and handles no event from j on |
| Tempo.BpmOf | oscplease.py:1031 | The BPM shown for a file tempo is 60 000 000 divided by it, rounded down |
| Tempo.BpmOfExactTempo | oscplease.py:1030-1031 | A file tempo that divides 60 000 000 exactly gives back the BPM it was derived from, and that BPM gives back the tempo |
| Tempo.DefaultTempoAgrees | oscplease.py:198-199 | The defaults 120 BPM and 500 000 µs per beat agree with each other |
| Tempo.FindTempo | oscplease.py:1027-1038 | The scan returns a tempo event at or after its starting point, and none is skipped: every tempo event from there on is that one or comes after it |
| Tempo.FirstTempoSpec | oscplease.py:1027-1038 | A tempo is found exactly when the file has a tempo event, and it is the first one in track order |
| Playlist.MidiPaths | oscplease.py:1056-1063 | The intake keeps only names ending in `.mid` (any case) |
| Playlist.MidiPathsCounts | oscplease.py:1056-1063 | Each accepted name is kept exactly as often as it was given, and every other name is dropped |
| Playlist.MidiPathsAppend | oscplease.py:1056-1063 | Taking in two batches of files is taking in their concatenation |
| Playlist.LexLeTotal | oscplease.py:822 | The string order of the folder sort is total |
| Playlist.LexLeTransitive | oscplease.py:822 | The string order is transitive |
| Playlist.LexLeAntisymmetric | oscplease.py:822 | The string order is antisymmetric |
| Playlist.InsertName | oscplease.py:822 | Insertion adds exactly the one name |
| Playlist.SortNames | oscplease.py:822 | The folder sort is a permutation of the accepted names |
| Playlist.InsertNameSorted | oscplease.py:822 | Inserting into a sorted list keeps it sorted |
| Playlist.SortNamesSorted | oscplease.py:822 | The folder sort yields names in string order |
| Playlist.SortedArrangementUnique | oscplease.py:822 | There is only one sorted arrangement of a collection of names, so the sort agrees with Python's `sorted` |
| Playlist.JoinPathShape | oscplease.py:824 | A joined path ends with the name and starts with the folder, unless the name is absolute and replaces it |
| Playlist.JoinPathKeepsExtension | oscplease.py:824 | Joining keeps the `.mid` extension of the name |
| Playlist.FolderEntriesAreMidi | oscplease.py:822-825 | Every path a folder contributes passes the intake test |
| Playlist.NextIndex | oscplease.py:861 | Skipping forward moves to the next file, and from the last file to the first |
| Playlist.PrevIndex | oscplease.py:876 | Skipping back moves to the previous file, and from the first file to the last (non-negative modulo) |
| Playlist.SkipInverse | oscplease.py:850-878 | Skipping back undoes skipping forward, and the other way round |
| Playlist.NextToPlay | oscplease.py:925-932 | The loop plays the entry at the index while it is in range; past the end it plays the first entry when looping, and otherwise ends |
| Playlist.PlayOrder | oscplease.py:924-934 | The run plays no more files than the budget allows |
| Playlist.PlayOrderEntries | oscplease.py:924-934 | The run plays only playlist entries |
| Playlist.PlayOrderOnce | oscplease.py:924-934 | Without looping the run plays the entries from the index to the end, once each |
| Playlist.PlayOrderLooping | oscplease.py:924-934 | With looping the run never ends by itself: file k is entry (start + k) mod n |
| Playlist.PlayedShift | oscplease.py:925-934 | Playing the entry the loop picks moves it from the rest of the play order to the files played |
| Playlist.PlayedPrefix | oscplease.py:924-934 | Where the loop stops, the files played are a prefix of the play order, and all of it once the budget is spent or the order ends |
| App.SentAsRecordOf | oscplease.py:711-742 | The history entry written for a message records exactly the OSC message sent for it |
| App.ServerStopAt | oscplease.py:707-709 | The listener handles exactly the messages read before it first sees the server stopped |
| App.ListenerRecordsMatchSent | oscplease.py:711-742 | The listener's history entries are exactly the OSC messages it sends, in order |
| App.WalkSentIsTranslation | oscplease.py:970-1001 | The walk sends the MIDI → OSC translation of the events it has walked, in order |
| App.WalkRecordsMatchSent | oscplease.py:970-1001 | The walk's history entries are exactly the OSC messages it sends, in order |
| App.ElapsedGrows | oscplease.py:962-967 | On the merged list and with a non-negative tempo, time never runs backwards in the walk |
| App.WalkRecordsBetween | oscplease.py:962-1001 | Every entry the walk writes is stamped between the start of the file and the time reached |
| App.WalkRecordsChronological | oscplease.py:962-1001 | The walk writes its entries in time order |
| App.CollectEvents | oscplease.py:947-952 | The nested loops gather exactly the timeline: each track's events with their running tick sums, track after track |
| App.Clamp | oscplease.py:401 | The slider keeps a value in 20..420 and moves anything outside to the nearer end |
| App.ResetKeepsExactTempo | oscplease.py:1029-1032 | A whole-BPM file tempo in the slider's range survives the reset unchanged |
| App.ResetRoundsInexactTempo | oscplease.py:1029-1032 | Any other file tempo in range is replaced by the truncated BPM's tempo whenever the slider moves |
| App.ResetToDefault | oscplease.py:1039-1043 | A file without a tempo event resets to 120 BPM and 500 000 µs per beat, and the slider to 120 |
| App.OscMidiApp.constructor | oscplease.py:196-205 | The start-up state: stopped, not looping, 120 BPM, empty playlist at index 0, empty deque |
| App.OscMidiApp.SetConnections | oscplease.py:645-665 | Records which of the MIDI ports and the OSC client are open |
| App.OscMidiApp.CleanupSentMessages | oscplease.py:890-894 | The pop loop leaves exactly the sweep of the deque |
| App.OscMidiApp.HandleOscMessage | oscplease.py:744-809 | The deque is swept first. A MIDI message goes out exactly when the address matches, playback is not paused, the message decodes and the output is open. In that case it is the decoded message and one entry is appended; otherwise nothing is sent or appended |
| App.OscMidiApp.SendAsOsc | oscplease.py:970-1001 | A message is sent through the client as its encoding and recorded, or skipped when it is not channel-voice |
| App.OscMidiApp.ListenOnce | oscplease.py:707-742 | One turn of the listener extends what was sent and recorded by the next message's share |
| App.OscMidiApp.Listen | oscplease.py:707-742 | The loop handles the messages up to the first one read after the server stopped; it sends their translation and records matching entries |
| App.OscMidiApp.RunMidiInput | oscplease.py:701-742 | Without the input port or the client nothing happens; otherwise the listener loop runs |
| App.OscMidiApp.WalkSend | oscplease.py:970-1001 | One event of the walk is sent and recorded at the time the walk has reached |
| App.OscMidiApp.WalkEvents | oscplease.py:955-1001 | The walk ends as WalkOutcome says. It sends the translation of the events it handled, records them with their send times, and its clock ends after the wait of every event it reached (a failing event has had its wait, an aborted one has not). A stop it sees is kept in `request_stop` |
| App.OscMidiApp.PlaySingleMidi | oscplease.py:941-1007 | An unreadable file fails before anything is sent and the clock does not move. Otherwise the merged list is walked: what is sent is the translation of its handled events, they are recorded with their send times, and the clock ends after the waits the walk reached |
| App.PlayFileUndisturbed | oscplease.py:943-1001 | A readable file with a tick resolution, played with the client open and no stop, sends the translation of every event of its merged list, records every one of them, ends after every wait and does not stop the run |
| App.PlayFileStoppedAtOnce | oscplease.py:957-960 | A stop requested before the first event of a file ends its walk there: nothing is sent or written, the clock does not move and the run is stopped |
| App.PlayFileUnrequestedNeverStops | oscplease.py:957-960 | A file played while no stop is requested never stops the run |
| App.RunStep | oscplease.py:923-934 | Playing one more file extends the run's per-file results by what PlayFile says of it, from the time the previous file finished; its messages follow the run's, its history entries are pushed after the run's, and only the last file of a run can have been stopped |
| App.OscMidiApp.PlayPath | oscplease.py:932-933 | The entry's path is looked up and played as `_play_single_midi` plays it: what it sends, the entries it pushes on the deque, the time it ends and whether it leaves a stop requested are exactly PlayFile's. A path that cannot be read sends and records nothing; a readable one is walked from its merged list, sends the translation of the events handled and records them with their send times |
| App.OscMidiApp.PlayEntry | oscplease.py:925-934 | One turn of the run loop plays the entry the loop picks and leaves the index one past it, so the played files stay a prefix of the play order; what it sends, the deque afterwards, the clock and the stop request are PlayFile's for that entry |
| App.OscMidiApp.PlayRun | oscplease.py:924-934 | A run that starts plays a prefix of the play order, all of it unless a stop ended the run; what it sends and records, and its stop, are those of its files in turn |
| App.OscMidiApp.RunTurn | oscplease.py:924-934 | One turn of the loop keeps the run's bookkeeping: the file played joins the run's per-file results, the messages sent and the deque are the whole run's so far, the clock is the file's finish, and a stop is requested exactly when that file was stopped |
| App.OscMidiApp.PlayTurns | oscplease.py:924-934 | The loop turns play the play order from the index while playback runs and no stop is requested, each file starting when the previous one finished. What is sent is each played file's messages in turn and the deque is the old one with each file's entries pushed in turn. No file but the last was stopped, and the loop ends with a stop requested exactly when the last file was stopped; otherwise it ends at the end of a non-looping playlist or at the budget |
| App.OscMidiApp.EndEmptyRun | oscplease.py:924-939 | An empty playlist ends the run at once without looping; with looping the index goes back to 0 and reading the first entry raises, leaving the flags as they were |
| App.OscMidiApp.EndLoop | oscplease.py:936-939 | After the loop the index is rewound and the flags cleared, unless the run is followed no further while it would go on playing |
| App.OscMidiApp.RunPlaylist | oscplease.py:923-939 | A run plays the play order and sends each played file's messages in turn, pushing its entries on the deque in turn. It stops early only because its last file was stopped, and then that file is the last it plays; a run that is not stopped plays exactly the play order. When the loop ends the index is 0 and the flags are cleared. Looping over an empty playlist instead ends the thread with the flags untouched. A run that would go on past the budget is left as it stands |
| App.OscMidiApp.Play | oscplease.py:909-921 | A run starts exactly when the playlist is non-empty and none is running; nothing changes otherwise |
| App.OscMidiApp.SkipForward | oscplease.py:850-863 | With files, the index moves to the next file (wrapping), the pause is cleared and a new run starts; with none, nothing changes |
| App.OscMidiApp.SkipBack | oscplease.py:865-878 | With files, the index moves to the previous file (wrapping), the pause is cleared and a new run starts; with none, nothing changes |
| App.OscMidiApp.Stop | oscplease.py:896-907 | A running playback is stopped; in every case the playlist is emptied and the index reset to 0 |
| App.OscMidiApp.TogglePause | oscplease.py:841-848 | Pausing flips the pause flag |
| App.OscMidiApp.ToggleLooping | oscplease.py:1119-1122 | Looping follows the check box |
| App.OscMidiApp.AddDroppedFiles | oscplease.py:1056-1063 | The dropped `.mid` files are appended in the order dropped, and nothing else changes |
| App.OscMidiApp.AddFolderToPlaylist | oscplease.py:819-826 | A cancelled dialog changes nothing; otherwise the folder's `.mid` names are appended, sorted and joined to the folder |
| App.OscMidiApp.ChangeTempo | oscplease.py:1014-1020 | A positive BPM sets the tempo and 60 000 000 / BPM µs per beat; anything else is rejected unchanged |
| App.OscMidiApp.SetSliderValue | oscplease.py:1009-1012 | The slider takes the clamped value; only when its position changes does the tempo follow it |
| App.OscMidiApp.ResetTempo | oscplease.py:1022-1048 | Nothing changes when the playlist is empty or its first file cannot be read. Otherwise the tempo becomes the first tempo event's, or the 120 BPM default, followed by the slider's handler. A tempo event of 0 sets only the µs per beat |

## Left out

- **Threads and the lock.**
  - Each operation is one atomic, sequential step: the playlist thread, the listener thread, the OSC server thread, the `join` timeouts and the lock are not modelled.
  - Another thread's actions during a file walk (stop, pause) enter only through the per-event environment.
  - What other threads do between the files of a run is not modelled.
- **The Qt window.** The window, the piano roll, the drag-and-drop frame, message boxes, logging and the playlist label are presentation only.
- **The server lifecycle.**
  - `start_server` validation and port checks, and `stop_server` resource closing, are not modelled; they open and close sockets and ports.
  - Only the route-table loops and which connections are open are modelled.
  - The OSC handler is modelled for any address it is given (with ASCII digits; see the Codec.MatchAddress line below). The dispatcher calls it only for mapped addresses, which Routes.RouteTableMembership characterises. OSC address patterns with wildcards in incoming messages are not modelled.
- **Files and I/O.**
  - `add_file_to_playlist` (a file dialog followed by `os.path.isfile`) is file-system I/O and is not modelled.
  - `send_test_note` is a UI test button and is not modelled.
  - Configuration load and save is file I/O and is not modelled.
  - MIDI file parsing is not modelled: a file is given as parsed data, and an unreadable file as its absence from `library`.
- **Floating point and the clock.**
  - Time and tempo are exact reals: float rounding of `tick2second`, of `60000000 / bpm` and of `time.time()` is not modelled.
  - Time stamps are the parameter `now` or the walk's computed clock, not a fresh clock reading after each send.
- **Tempo.BpmOf** uses integer division. For file tempos below 2^24, the bound of the MIDI format, Python's truncated float quotient agrees with it.
- **Codec.Decode** takes OSC arguments as integers. `int()` of float or string arguments, and the error it raises on other types, are not modelled.
- **Playlist.IsMidiPath** lower-cases ASCII letters only. Python's Unicode `lower()` is not modelled.
- **Codec.MatchAddress / Decimal.IsDigit** accept ASCII digits only. Python's `\d` and `int()` also accept the other Unicode decimal digits (Arabic-Indic, full-width and so on); addresses using them are not modelled.
- **Playlist.JoinPath** follows POSIX `posixpath.join`. On Windows `os.path.join` is `ntpath.join`, which inserts `\` and treats drive letters; that is not modelled.
- **App.OscMidiApp.RunPlaylist**:
  - It follows a run for at most `budget` files, because a looping run never ends by itself. A run that would play more is returned as `BudgetSpent`, with the index and the flags as they stand; the source would go on playing.
  - The walk environment of each file is given in `envs`.
  - It plays entries with `RunTurn` and `PlayEntry` rather than reading the shared flags between files.
- **App.OscMidiApp.WalkEvents** uses the tempo in force when the walk starts. A tempo change from the slider while a file plays is not modelled.
- **App.OscMidiApp.RunMidiInput**:
  - A stop of the server while a message is being sent, which would leave the client unset, is not modelled (a race between threads).
  - The blocking iteration over the input port is modelled as a finite sequence of incoming messages.
