# vlc-control, modelled in Dafny

vlc-control plays one video file in several VLC processes at once, one per audio
track: a *main* player and any number of *secondary* players. Each process is
driven through VLC's HTTP interface (`/requests/status.json`). The program
- parses the `--vlc-ports` option;
- lets the user pick the main and secondary audio tracks from labelled choices;
- checks that there are enough ports and starts one VLC process per track;
- builds a controller that fans commands out to every player: combined status,
  toggle pause, synchronise on the main player's time, fullscreen, per-player
  volume, close all.

This project models that core and proves what it promises.

| file | module | models |
|---|---|---|
| `results.dfy` | `Results`, `Bytes` | option / result / outcome types, octets |
| `decimal.dfy` | `Decimal` | decimal digits, `parseInt`-style values, how a number is rendered as text |
| `js.dfy` | `Js` | JavaScript truthiness, template-literal rendering of `undefined`, `ToNumber` on strings, loose equality `==` between a number and a string |
| `base64.dfy` | `Base64` | the Base64 alphabet and padding of section 4 of RFC 4648, with decoding |
| `utf8.dfy` | `Utf8` | UTF-8 encoding of section 3 of RFC 3629 (what `Buffer.from(string)` does), with decoding |
| `parse_options.dfy` | `ParseOptions` | `parsePortList`: the `^\d+(?:,\d+)*$` test, `split(",")`, the range check |
| `audiotracks.dfy` | `Audiotracks` | the `{idx, language, title}` record produced from ffprobe's output |
| `select_audiotrack.dfy` | `SelectAudiotrack` | `buildName` and the choice lists of the two track prompts |
| `vlc_player.dfy` | `VlcPlayer` | `generateId`, `startVlcPlayer`: option list, closed flag, command guard, request URLs, Basic credentials |
| `vlc_players_control.dfy` | `VlcPlayersControl` | `buildVlcPlayersControl` and its six operations |
| `launch.dfy` | `Launch` | the launch part of `main`: excluding the main track, the port check, the per-player options, start order |

How the outside world is modelled:
- **Effects go into one log.** Spawning a process, an HTTP request (URL and
  `Authorization` header) and a SIGTERM are all `Effect` values. They are appended
  in order to the `log` of one shared `Wire` object, which stands for the network
  and the operating system.
- **The handle is a class.** `Player` has the fields `startVlcPlayer` closes over.
  Its command methods change only the wire. `closed` changes only in `OnEvent`, which stands
  for the `exit` and `error` handlers, and nothing ever sets it back to false.
- **VLC's answers are parameters.** Every operation that reads a status takes
  VLC's reply (`VlcStatus`) as a parameter.
- **Fan-outs are specified by functions.** The functions are over `View` snapshots
  of the handles (`Broadcast`, `PauseAll`, `SyncTrace`, `CloseAllEffects`), and the
  controller's loops are proved to append exactly those effects. `ForHandle`
  extracts the effects of one handle from the log. This is how the properties
  "each handle receives X" are stated.

## Model

| member | source | states |
|---|---|---|
| `Decimal.ValueOfNatText` | src/cli/parse-options.js:12 | reading back the decimal text of a number with `parseInt(v, 10)` gives that number |
| `Decimal.IntTextInjective` | src/vlc-player.js:22-24 | different track indices and ports render as different decimal texts in the VLC arguments |
| `Decimal.LeadingZerosIgnored` | src/cli/parse-options.js:12 | leading zeros do not change the decimal value of a field |
| `Decimal.NatText` | src/vlc-player.js:22-24 | a number renders as a non-empty string of digits, with no leading zero unless it is 0 |
| `Js.NumberText` | src/vlc-player.js:82 | `${value}` in the seek command is the text "undefined" exactly when the value is missing |
| `Js.StringToNumberOfIntText` | src/vlc-players-control.js:42 | `ToNumber` of the decimal text of an id is that id |
| `Js.TextKeyMatchesExactly` | src/vlc-players-control.js:42 | a player id is loosely equal to a decimal text key exactly when the key spells that id |
| `Js.TrimNoWhitespace` | src/vlc-players-control.js:42 | `ToNumber` trims nothing from a string that starts and ends with a non-whitespace character |
| `Base64.EncodedLength` | src/vlc-player.js:55 | the Base64 text is 4 characters per started group of 3 octets |
| `Base64.SextetChar` | src/vlc-player.js:55 | each 6-bit value has its own alphabet character, which decodes back to it |
| `Base64.DecodeEncode` | src/vlc-player.js:55 | decoding the Base64 encoding of any octet string gives it back |
| `Utf8.EncodeChar` | src/vlc-player.js:55 | a character takes 1 to 4 octets, and exactly 1 when it is ASCII |
| `Utf8.DecodeFirstEncodeChar` | src/vlc-player.js:55 | decoding the front of an encoded character gives that character and its length |
| `Utf8.DecodeEncode` | src/vlc-player.js:55 | decoding the UTF-8 encoding of any string gives it back |
| `ParseOptions.MessagesTellErrorsApart` | src/cli/parse-options.js:6-14 | the two `InvalidArgumentError`s carry different messages |
| `ParseOptions.Split` | src/cli/parse-options.js:9-10 | `split(",")` gives at least one field and no field contains a comma |
| `ParseOptions.SplitJoin` | src/cli/parse-options.js:9-10 | splitting comma-joined comma-free fields gives the fields back |
| `ParseOptions.JoinSplit` | src/cli/parse-options.js:9-10 | joining the fields of a split with commas gives the input back |
| `ParseOptions.PatternIffNumericFields` | src/cli/parse-options.js:4-5 | the input matches `^\d+(?:,\d+)*$` exactly when every comma-separated field is a non-empty run of digits |
| `ParseOptions.ScannerReadsFields` | src/cli/parse-options.js:4-5 | the scanner that stands for the regular expression accepts exactly the inputs whose fields are all digit runs, and the first one non-empty |
| `ParseOptions.RunAppend` | src/cli/parse-options.js:4-5 | scanning a concatenation is scanning its two halves in turn |
| `ParseOptions.ToPorts` | src/cli/parse-options.js:9-17 | one port per field in field order, each the field's decimal value and within [1024, 65535]; fails with the range error exactly when some field is outside it |
| `ParseOptions.ParsePortList` | src/cli/parse-options.js:3-20 | the "Not a comma-separated list of numbers." error exactly when the pattern does not match; the range error exactly when it matches and some field is out of range; otherwise one in-range port per field, equal to the field's value |
| `ParseOptions.RejectsMalformed` | src/cli/parse-options.js:4-7 | the empty string, a leading or trailing comma, and any character other than a digit or comma (space, sign) are rejected with the list error |
| `ParseOptions.PortListRoundTrip` | src/cli/parse-options.js:3-20 | any non-empty list of ports in [1024, 65535], comma-joined in decimal, parses back to the same list, duplicates included |
| `ParseOptions.LeadingZerosGiveSamePort` | src/cli/parse-options.js:12-16 | a field with leading zeros parses to the port of its digits |
| `SelectAudiotrack.BuildName` | src/cli/select-audiotrack.js:3-12 | pushing the parts that apply and joining them with single spaces gives the track's label |
| `SelectAudiotrack.LabelShape` | src/cli/select-audiotrack.js:3-12 | in each of the four cases the label is exactly `[idx]`, then ` title` when the title is truthy, then ` (language)` when the language is truthy; a falsy title or language adds nothing |
| `SelectAudiotrack.LabelIdentifiesIndex` | src/cli/select-audiotrack.js:3-12 | tracks with equal labels have equal indices |
| `SelectAudiotrack.Choices` | src/cli/select-audiotrack.js:17-20 | one choice per track, in track order, whose value is the track and whose name is its label (the same list in both prompts) |
| `VlcPlayer.IdGenerator.Next` | src/vlc-player.js:3-6 | the counter is incremented before use, so ids are 1, 2, 3, … |
| `VlcPlayer.VlcOptions` | src/vlc-player.js:20-29 | the option list is `--start-paused`, `--audio-track-id=<idx>`, `--extraintf=http`, `--http-port=<port>`, `--http-password=<pw>`, then `--no-video` exactly when asked for |
| `VlcPlayer.VlcOptionListShape` | src/vlc-player.js:20-29 | the option list is determined by its inputs, and its last element is `--no-video` exactly when `noVideo` is set |
| `VlcPlayer.Player.Start` | src/vlc-player.js:8-33 | a handle takes the next id, spawns VLC with the file followed by the option list, keeps its name, port and callback, and starts open |
| `VlcPlayer.Player.OnEvent` | src/vlc-player.js:42-52 | after an `exit` or `error` event the handle is closed, and the callback runs once more exactly when there is one |
| `VlcPlayer.Player.MakeRequest` | src/vlc-player.js:56-64 | one request to the status URL with the command, carrying the handle's `Authorization` header |
| `VlcPlayer.Player.Execute` | src/vlc-player.js:34-40 | a guarded command sends one request while open and nothing once closed |
| `VlcPlayer.Issue` | src/vlc-player.js:34-40 | a command sends exactly one request from its own handle while open, none when closed |
| `VlcPlayer.CommandOfRequestUrl` | src/vlc-player.js:54-57 | the status URL has a query exactly when the command is non-empty, that query is `command=<cmd>`, and the command can be read back from it |
| `VlcPlayer.CommandTextInjective` | src/vlc-player.js:73-84 | different commands have different command texts |
| `VlcPlayer.IssueCarriesCommand` | src/vlc-player.js:56-61 | every request a handle sends for a command carries that command |
| `VlcPlayer.PasswordOfAuthorization` | src/vlc-player.js:55-60 | the `Authorization` header is `Basic` and the Base64 of the UTF-8 of `":" + password`, from which the password is recovered exactly |
| `VlcPlayer.Player.GetStatus` | src/vlc-player.js:67-72 | a closed handle yields the closed marker without a request; an open one sends one bare status request and yields VLC's answer |
| `VlcPlayer.Player.Close` | src/vlc-player.js:66 | an open handle is sent SIGTERM, a closed one nothing |
| `VlcPlayer.Player.TogglePause` | src/vlc-player.js:73 | one `pl_pause` request while open |
| `VlcPlayer.Player.Pause` | src/vlc-player.js:74-81 | an open handle reads its status once and toggles only when VLC says "playing" |
| `VlcPlayer.PauseTogglesOnlyWhenPlaying` | src/vlc-player.js:74-81 | pause sends a `pl_pause` exactly when the state is "playing", so a paused handle gets no toggle, and a closed handle gets nothing at all |
| `VlcPlayer.Player.SeekTo` | src/vlc-player.js:82 | one `seek&val=<value>` request while open |
| `VlcPlayer.Player.ToggleFullscreen` | src/vlc-player.js:83 | one `fullscreen` request while open |
| `VlcPlayer.Player.SetVolume` | src/vlc-player.js:84 | one `volume&val=<value>` request while open |
| `VlcPlayersControl.ForHandleAppend` | src/vlc-players-control.js:29-37 | what one handle sees of two runs of effects is what it sees of each, in order |
| `VlcPlayersControl.ForHandleConcat` | src/vlc-players-control.js:29-31 | with distinct ids, handle k sees exactly its own part of any fan-out |
| `VlcPlayersControl.Controller.constructor` | src/vlc-players-control.js:1-2 | the controlled list is the main handle followed by the secondaries in their order; it is a constant and never changes |
| `VlcPlayersControl.Summarize` | src/vlc-players-control.js:13-26 | the combined status fails exactly when the main status has no `information.category.meta`; otherwise its filename, state, time and length are the main handle's, fullscreen is the main handle's value coerced to a boolean, and there is one entry per handle in list order |
| `VlcPlayersControl.Entry` | src/vlc-players-control.js:19-25 | an entry copies the handle's id and name; it is closed exactly for the closed marker; volume and time are VLC's, or missing when closed |
| `VlcPlayersControl.ClosedMainFails` | src/vlc-players-control.js:14 | a closed main handle makes getStatus fail, whatever the others answer |
| `VlcPlayersControl.TopLevelFromMainOnly` | src/vlc-players-control.js:13-18 | the top-level fields of the combined status depend on the main handle's answer only |
| `VlcPlayersControl.Controller.GetStatus` | src/vlc-players-control.js:4-27 | every handle's status is read once, in list order, and the result is their combination |
| `VlcPlayersControl.Controller.TogglePause` | src/vlc-players-control.js:29-31 | every handle is sent `pl_pause`, in list order |
| `VlcPlayersControl.BroadcastPerHandle` | src/vlc-players-control.js:29-31 | with distinct ids, every handle receives a broadcast command exactly once while open, and never when closed |
| `VlcPlayersControl.BroadcastCarriesCommand` | src/vlc-players-control.js:29-36 | every request of a broadcast carries the broadcast command |
| `VlcPlayersControl.Controller.PauseEach` | src/vlc-players-control.js:34 | every handle runs its pause, in list order |
| `VlcPlayersControl.Controller.SeekEach` | src/vlc-players-control.js:36 | every handle is sent a seek to the same value |
| `VlcPlayersControl.Controller.SeekAllToMain` | src/vlc-players-control.js:35-36 | one status read of the main handle, then every handle is sent a seek to the time it reported (`undefined` when the main handle is closed) |
| `VlcPlayersControl.IssueIsNoSeek` | src/vlc-player.js:73-84 | a request for any command other than a seek is not a seek |
| `VlcPlayersControl.PauseAllHasNoSeek` | src/vlc-players-control.js:34 | the pause phase of a synchronisation sends no seek |
| `VlcPlayersControl.Controller.Synchronize` | src/vlc-players-control.js:33-37 | pauses on every handle, then one read of the main status, then a seek on every handle to the main handle's time |
| `VlcPlayersControl.SyncSeeksFollowPausesWithMainTime` | src/vlc-players-control.js:33-37 | a synchronisation is a run with no seek followed by a run of seeks only, all to the time the main handle reported after the pauses |
| `VlcPlayersControl.SyncPerHandle` | src/vlc-players-control.js:33-37 | with distinct ids, each handle sees its pause, then its status read if it is the main handle, then its seek to the main time |
| `VlcPlayersControl.Controller.ToggleFullscreen` | src/vlc-players-control.js:39 | only the main handle is sent `fullscreen` |
| `VlcPlayersControl.FindFirst` | src/vlc-players-control.js:42 | the lookup gives the first handle whose id is loosely equal to the key, or none when no handle matches |
| `VlcPlayersControl.FindByIdText` | src/vlc-players-control.js:42 | with distinct ids, the decimal text of a handle's id, as it arrives in the URL path, finds that handle |
| `VlcPlayersControl.VolumeEffects` | src/vlc-players-control.js:41-47 | fails with "No active player with such id" and touches no handle exactly when no id matches; otherwise sends the volume only to the handle found |
| `VlcPlayersControl.VolumeTouchesOnlyTarget` | src/vlc-players-control.js:41-47 | a volume change addressed by a handle's id succeeds and goes to that handle alone |
| `VlcPlayersControl.Controller.SetVolume` | src/vlc-players-control.js:41-47 | the outcome and the requests are those of the lookup |
| `VlcPlayersControl.Controller.CloseAll` | src/vlc-players-control.js:49 | every open handle is sent SIGTERM, in list order |
| `VlcPlayersControl.CloseAllPerHandle` | src/vlc-players-control.js:49 | with distinct ids, each open handle is sent SIGTERM exactly once and a closed one nothing |
| `Launch.Without` | src/index.js:36 | the offered secondary tracks are exactly the tracks other than the main one |
| `Launch.Plan` | src/index.js:38-66 | exit code 1 exactly when there are more secondary tracks than ports after the first; otherwise the main handle on port 0 and secondary i on port i + 1, in selection order |
| `Launch.PlanAssignsPorts` | src/index.js:43-66 | handle i uses port index i, no handle has `--no-video`, only the main handle has a callback, and the ports of the handles are pairwise different exactly when the ports used have no repeats |
| `Launch.SecondariesExcludeMain` | src/index.js:36 | when the secondaries are chosen from the offered tracks, no secondary handle plays the main track |
| `Launch.DefaultPortsAllowFourSecondaries` | src/index.js:22 | with the default ports 9000 to 9004, at most four secondary handles can be started |
| `Launch.DefaultPlan` | src/index.js:17-66 | with every option at its default, up to four secondaries are planned; handle i gets port 9000 + i, the binary `vlc` and the password `insecure_password` |
| `Launch.StartPlayers` | src/index.js:43-66 | the handles are started in plan order with consecutive ids, each spawning VLC once |
| `Launch.StartControl` | src/index.js:43-68 | the planned handles are started with consecutive ids and the controller is built over them, main first, with distinct ids and one shared effect log |
| `Launch.LaunchPlayers` | src/index.js:33-68 | with too few ports nothing is started and the exit code is 1; otherwise each handle is started from its plan entry with consecutive ids, main first, and the controller is built over them with distinct ids |

## Left out

- Spawning processes, signals, `fetch` and `res.json()` are not modelled as I/O. A
  spawn, request or SIGTERM is an entry in the effect log. VLC's answer is a
  parameter. What VLC then does, such as whether a seek moves playback, is outside
  the model.
- A `fetch` or `res.json()` that rejects is not modelled: every request is assumed
  to get an answer. In the program such a failure rejects the `Promise.all` of the
  operation, and in `synchronize` it stops the later phases.
- `Promise.all` and the other asynchronous points are modelled as sequential loops
  in list order:
  - The order of effects within one phase is therefore the model's own. The
    per-handle lemmas (`ForHandle…`, `…PerHandle`) state what holds whatever the
    interleaving.
  - A handle that closes in the middle of an operation, for example between
    `pause`'s status read and its toggle, is not modelled.
- VlcPlayer.Player.OnEvent has no caller in the model, because the events come from the
  operating system.
- The callback of the main handle is `process.exit(1)`. The model counts its
  invocations and does not end the program.
- `console.log`/`console.warn`/`console.error` output is not modelled.
- VlcPlayersControl.Controller.constructor: requires every handle to write to the
  same effect log as the main one. This is a modelling artefact: in the program,
  all requests go to the same network.
- Js.StringToNumber: `ToNumber` is modelled only for optional
  whitespace, an optional sign and decimal digits, and for whitespace-only strings
  (which convert to 0). Hexadecimal, binary, octal, fractional, exponent and
  `Infinity` forms count as "no match". In JavaScript several of them do denote
  an id: `1 == "0x1"`, `1 == "0b1"`, `1 == "0o1"`, `1 == "1.0"` and `1 == "1e0"` are
  all true. A request such as `POST /volume/0x1/50` (src/index.js:105-106) therefore
  reaches player 1 in the program, while the model reports no match and
  `setVolume` fails with "No active player with such id". Js.LooseEquals and
  VlcPlayersControl.FindFirst inherit this. The decimal text of an id is matched
  exactly (`Js.TextKeyMatchesExactly`).
- Utf8.Encode: a JavaScript string may hold a lone surrogate, which `Buffer.from`
  encodes as EF BF BD. A Dafny `char` cannot hold one, so passwords are modelled only
  as strings of Unicode scalar values (VlcPlayer.Credentials inherits this).
- Decimal.IntText: numbers are rendered in plain decimal. JavaScript's exponent
  form for magnitudes at or above 10^21 is not modelled.
- ParseOptions.ToPorts: `parseInt` yields a double. The model uses exact integers,
  so a field of more than 15 digits is compared exactly rather than after rounding.
  That makes no difference to the range check.
- Launch.Without: lodash's `without` compares by reference. The model compares
  track records by value, so an identical copy of the main track would also be
  removed. ffprobe's output gives every track a distinct index, so no such copy
  exists.
- The interactive prompts (`select`, `checkbox`), ffprobe (src/get-audiotracks.js)
  and commander's option handling are not modelled. The chosen tracks and the
  parsed ports are parameters of `Launch.LaunchPlayers`. Of commander's settings,
  only the defaults of `--vlc-bin`, `--vlc-ports` and `--vlc-password` are kept, as
  constants (`Launch.DefaultPlan`).
- The web interface in src/web/index.js and index.mjs are not part of this model.
  src/web/index.js calls controller operations (`refreshState`, `getState`,
  `startMainPlayer`, `addSecondaryPlayer`, `setAudiotrack`, `closePlayer`, …;
  src/web/index.js:21-84) that src/vlc-players-control.js does not define. The
  model follows src/vlc-players-control.js, whose list of handles is built once.
- The status answer is reduced to the fields the program reads. In the program,
  the spread `...(await p.getStatus())` lets a status field named `id` or `name`
  override the handle's own. VLC's status has no such fields, so the model keeps
  the handle's id and name.
