/**
 * One VLC player handle: the launch arguments, the closed flag set by the process
 * events, the guard that stops every command once closed, and the HTTP requests
 * its commands send to VLC's status endpoint.
 */
module VlcPlayer {
  import opened Results
  import opened Bytes
  import opened Decimal
  import Js
  import Base64
  import Utf8
  import opened Audiotracks

  // The answer of VLC's /requests/status.json, as far as the program reads it.

  datatype Meta = Meta(filename: Option<string>)
  datatype Category = Category(meta: Option<Meta>)
  datatype Information = Information(category: Option<Category>)

  datatype VlcStatus = VlcStatus(
    state: string,
    time: int,
    length: int,
    volume: int,
    fullscreen: Js.Value,
    information: Option<Information>)

  /** What a handle's getStatus yields: the `{ closed: true }` marker, or VLC's answer. */
  datatype PlayerStatus = ClosedMarker | Answer(status: VlcStatus)

  /** The commands a handle sends; Status is the bare status request. */
  datatype Command = Status | PlPause | Seek(time: Option<int>) | Fullscreen | Volume(level: string)

  /** The `command` query parameter of each command; the empty string for the bare status request. */
  function CommandText(c: Command): string {
    match c
    case Status => ""
    case PlPause => "pl_pause"
    case Seek(v) => "seek&val=" + Js.NumberText(v)
    case Fullscreen => "fullscreen"
    case Volume(v) => "volume&val=" + v
  }

  function BaseUrl(port: int): string {
    "http://127.0.0.1:" + IntText(port) + "/requests/status.json"
  }

  /** The URL a request goes to: the status endpoint, with `?command=` only for a non-empty command. */
  function RequestUrl(port: int, command: string): string {
    BaseUrl(port) + (if command != "" then "?command=" + command else "")
  }

  /** The text after the first '?', or None when there is none. */
  function Query(url: string): Option<string>
    decreases |url|
  {
    if url == [] then None
    else if url[0] == '?' then Some(url[1..])
    else Query(url[1..])
  }

  /** The command a request URL carries: the value of its `command` parameter, "" when it has no query. */
  function CommandOfUrl(url: string): string {
    match Query(url)
    case None => ""
    case Some(q) => if |q| >= 8 && q[..8] == "command=" then q[8..] else ""
  }

  lemma {:induction false} QueryAfterPrefix(p: string, q: string)
    requires '?' !in p
    ensures Query(p + q) == Query(q)
    decreases |p|
  {
    if p != [] {
      assert p[0] in p;
      assert (p + q)[0] == p[0];
      assert p + q != [];
      assert (p + q)[1..] == p[1..] + q;
      assert forall c :: c in p[1..] ==> c in p;
      QueryAfterPrefix(p[1..], q);
      assert Query(p + q) == Query((p + q)[1..]);
    } else {
      assert p + q == q;
    }
  }

  /**
   * A request URL has a query exactly when the command is non-empty, that query is
   * `command=<cmd>`, and the command can be read back from the URL.
   */
  lemma CommandOfRequestUrl(port: int, command: string)
    ensures Query(RequestUrl(port, command)).None? <==> command == ""
    ensures command != "" ==> Query(RequestUrl(port, command)) == Some("command=" + command)
    ensures CommandOfUrl(RequestUrl(port, command)) == command
  {
    var base := BaseUrl(port);
    var digits := IntText(port);
    assert '?' !in digits;
    assert '?' !in base;
    if command == "" {
      QueryAfterPrefix(base, "");
      assert base + "" == base;
    } else {
      QueryAfterPrefix(base, "?command=" + command);
      assert ("?command=" + command)[1..] == "command=" + command;
    }
  }

  /** The first letter of each non-empty command text. */
  function Initial(c: Command): char
    requires !c.Status?
  {
    match c
    case PlPause => 'p'
    case Seek(_) => 's'
    case Fullscreen => 'f'
    case Volume(_) => 'v'
  }

  /** Different commands produce different request URLs on the same port. */
  lemma CommandTextInjective(c1: Command, c2: Command)
    requires CommandText(c1) == CommandText(c2)
    ensures c1 == c2
  {
    var t := CommandText(c1);
    if t != "" {
      assert Initial(c1) == t[0] == Initial(c2);
      if c1.Seek? {
        var v1, v2 := Js.NumberText(c1.time), Js.NumberText(c2.time);
        assert v1 == t[9..] == v2;
        if c1.time.Some? && c2.time.Some? {
          IntTextInjective(c1.time.value, c2.time.value);
        }
      } else if c1.Volume? {
        assert c1.level == t[11..] == c2.level;
      }
    }
  }

  /** `Buffer.from(":" + password).toString("base64")`: the user-pass of section 2 of RFC 7617 with an empty user-id. */
  function Credentials(password: string): string {
    Base64.Encode(Utf8.Encode(":" + password))
  }

  function Authorization(credentials: string): string {
    "Basic " + credentials
  }

  /** The password an Authorization header carries, read back as a server would. */
  function PasswordOf(header: string): Option<string> {
    if |header| < 6 || header[..6] != "Basic " then None
    else match Base64.Decode(header[6..])
      case None => None
      case Some(octets) =>
        match Utf8.Decode(octets)
        case None => None
        case Some(userPass) => if |userPass| >= 1 && userPass[0] == ':' then Some(userPass[1..]) else None
  }

  /** The Authorization header of every request carries exactly the configured password. */
  lemma PasswordOfAuthorization(password: string)
    ensures PasswordOf(Authorization(Credentials(password))) == Some(password)
  {
    var userPass := ":" + password;
    Utf8.DecodeEncode(userPass);
    Base64.DecodeEncode(Utf8.Encode(userPass));
    assert Authorization(Credentials(password))[6..] == Credentials(password);
  }

  // The launch arguments.

  const StartPaused: string := "--start-paused"
  const ExtraInterface: string := "--extraintf=http"
  const NoVideo: string := "--no-video"

  /** The option list VLC is started with, element by element. */
  predicate IsVlcOptionList(o: seq<string>, track: Audiotrack, noVideo: bool, port: int, password: string) {
    && |o| == (if noVideo then 6 else 5)
    && o[0] == StartPaused
    && o[1] == "--audio-track-id=" + IntText(track.idx)
    && o[2] == ExtraInterface
    && o[3] == "--http-port=" + IntText(port)
    && o[4] == "--http-password=" + password
    && (noVideo ==> o[5] == NoVideo)
  }

  /** `vlcOptions`, with `--no-video` pushed at the end when asked for. */
  method VlcOptions(track: Audiotrack, noVideo: bool, port: int, password: string) returns (o: seq<string>)
    ensures IsVlcOptionList(o, track, noVideo, port, password)
  {
    o := [StartPaused, "--audio-track-id=" + IntText(track.idx), ExtraInterface,
          "--http-port=" + IntText(port), "--http-password=" + password];
    if noVideo {
      o := o + [NoVideo];
    }
  }

  /** The option list is determined by its inputs, and `--no-video` is its last element exactly when asked for. */
  lemma VlcOptionListShape(o: seq<string>, o': seq<string>, track: Audiotrack, noVideo: bool, port: int, password: string)
    requires IsVlcOptionList(o, track, noVideo, port, password)
    requires IsVlcOptionList(o', track, noVideo, port, password)
    ensures o == o'
    ensures o[|o| - 1] == NoVideo <==> noVideo
  {
    if !noVideo {
      assert o[4][2] == 'h' && NoVideo[2] == 'n';
    }
  }

  // The effects a handle has on the outside world, in the order they happen.

  datatype Effect =
    | Spawn(player: nat, bin: string, args: seq<string>)
    | Request(player: nat, port: int, command: Command, authorization: string)
    | Terminate(player: nat)

  /** The URL a request is sent to. */
  function Url(e: Effect): string
    requires e.Request?
  {
    RequestUrl(e.port, CommandText(e.command))
  }

  /** The network and the processes: one ordered log of everything the handles do. */
  class Wire {
    var log: seq<Effect>

    constructor ()
      ensures log == []
    {
      log := [];
    }
  }

  /** `generateId`: a counter shared by all handles, incremented before use. */
  class IdGenerator {
    var lastUsedId: nat

    constructor ()
      ensures lastUsedId == 0
    {
      lastUsedId := 0;
    }

    method Next() returns (id: nat)
      modifies this
      ensures id == old(lastUsedId) + 1 && lastUsedId == id
    {
      lastUsedId := lastUsedId + 1;
      id := lastUsedId;
    }
  }

  /** What the fan-out operations need to know of a handle. */
  datatype View = View(id: nat, name: string, port: int, authorization: string, closed: bool)

  /** The request a handle sends for a command: nothing once closed. */
  function Issue(v: View, c: Command): (effects: seq<Effect>)
    ensures |effects| == (if v.closed then 0 else 1)
    ensures forall e :: e in effects ==> e.Request? && e.player == v.id
  {
    if v.closed then [] else [Request(v.id, v.port, c, v.authorization)]
  }

  /** The command can be read back from the request a handle sends for it. */
  lemma IssueCarriesCommand(v: View, c: Command)
    ensures forall e :: e in Issue(v, c) ==> e.Request? && CommandOfUrl(Url(e)) == CommandText(c)
  {
    CommandOfRequestUrl(v.port, CommandText(c));
  }

  /** What getStatus yields for a reply from VLC. */
  function StatusOf(v: View, reply: VlcStatus): PlayerStatus {
    if v.closed then ClosedMarker else Answer(reply)
  }

  /** pause: one status read, then pl_pause only when VLC said "playing". */
  function PauseEffects(v: View, reply: VlcStatus): seq<Effect> {
    if v.closed then [] else Issue(v, Status) + (if reply.state == "playing" then Issue(v, PlPause) else [])
  }

  function CloseEffects(v: View): seq<Effect> {
    if v.closed then [] else [Terminate(v.id)]
  }

  predicate IsToggle(e: Effect) {
    e.Request? && CommandOfUrl(Url(e)) == CommandText(PlPause)
  }

  /** An open handle is toggled by pause exactly when VLC reported "playing"; a closed one sends nothing. */
  lemma PauseTogglesOnlyWhenPlaying(v: View, reply: VlcStatus)
    ensures v.closed ==> PauseEffects(v, reply) == []
    ensures !v.closed ==> ((exists k :: 0 <= k < |PauseEffects(v, reply)| && IsToggle(PauseEffects(v, reply)[k])) <==> reply.state == "playing")
    ensures forall e :: e in PauseEffects(v, reply) ==> e.Request? && e.player == v.id
  {
    if !v.closed {
      var effects := PauseEffects(v, reply);
      IssueCarriesCommand(v, Status);
      IssueCarriesCommand(v, PlPause);
      assert effects[0] in Issue(v, Status);
      assert !IsToggle(effects[0]);
      if reply.state == "playing" {
        assert effects[1] in Issue(v, PlPause);
        assert IsToggle(effects[1]);
      } else {
        assert |effects| == 1;
      }
    }
  }

  /** The options `startVlcPlayer` takes. */
  datatype StartOptions = StartOptions(
    vlcBin: string,
    playerName: string,
    filename: string,
    audiotrack: Audiotrack,
    noVideo: bool,
    port: int,
    password: string,
    hasCallback: bool)

  /** The process events that close a handle. */
  datatype ProcessEvent = Exit(code: int) | Error(message: string)

  /** A started VLC player. */
  class Player {
    const id: nat
    const name: string
    const port: int
    const credentials: string
    const launchArgs: seq<string>
    const hasCallback: bool
    const wire: Wire
    /** The options the handle was started with. */
    ghost const options: StartOptions
    var closed: bool
    /** How many times closeOrErrorCallback has run. */
    var callbackFires: nat

    function AsView(): View
      reads this
    {
      View(id, name, port, Authorization(credentials), closed)
    }

    /** The name, port, credentials, callback and VLC arguments are those its options ask for. */
    ghost predicate Configured() {
      && name == options.playerName
      && port == options.port
      && hasCallback == options.hasCallback
      && credentials == Credentials(options.password)
      && |launchArgs| >= 1 && launchArgs[0] == options.filename
      && IsVlcOptionList(launchArgs[1..], options.audiotrack, options.noVideo, options.port, options.password)
    }

    /** startVlcPlayer: takes the next id, spawns VLC with the option list, and starts open. */
    constructor Start(gen: IdGenerator, wire: Wire, opts: StartOptions)
      modifies gen, wire
      ensures id == old(gen.lastUsedId) + 1 && gen.lastUsedId == id
      ensures options == opts && Configured() && this.wire == wire
      ensures wire.log == old(wire.log) + [Spawn(id, opts.vlcBin, launchArgs)]
      ensures !closed && callbackFires == 0
    {
      var playerId := gen.Next();
      var options := VlcOptions(opts.audiotrack, opts.noVideo, opts.port, opts.password);
      id := playerId;
      name := opts.playerName;
      port := opts.port;
      credentials := Credentials(opts.password);
      launchArgs := [opts.filename] + options;
      hasCallback := opts.hasCallback;
      this.wire := wire;
      this.options := opts;
      closed := false;
      callbackFires := 0;
      new;
      assert launchArgs[1..] == options;
      wire.log := wire.log + [Spawn(id, opts.vlcBin, launchArgs)];
    }

    /** The `exit` and `error` handlers: the handle is closed from now on and the callback, if any, runs. */
    method OnEvent(e: ProcessEvent)
      modifies this
      ensures closed
      ensures callbackFires == old(callbackFires) + (if hasCallback then 1 else 0)
    {
      closed := true;
      if hasCallback {
        callbackFires := callbackFires + 1;
      }
    }

    /** makeRequest */
    method MakeRequest(c: Command)
      modifies wire
      ensures wire.log == old(wire.log) + [Request(id, port, c, Authorization(credentials))]
    {
      wire.log := wire.log + [Request(id, port, c, Authorization(credentials))];
    }

    /** A guarded command: one request while open, nothing once closed. */
    method Execute(c: Command)
      modifies wire
      ensures wire.log == old(wire.log) + Issue(AsView(), c)
    {
      if !closed {
        MakeRequest(c);
      }
    }

    method Close()
      modifies wire
      ensures wire.log == old(wire.log) + CloseEffects(AsView())
    {
      if !closed {
        wire.log := wire.log + [Terminate(id)];
      }
    }

    /** getStatus: the closed marker without a request, or one bare status request and VLC's reply. */
    method GetStatus(reply: VlcStatus) returns (s: PlayerStatus)
      modifies wire
      ensures s == StatusOf(AsView(), reply)
      ensures wire.log == old(wire.log) + Issue(AsView(), Status)
    {
      if closed {
        return ClosedMarker;
      }
      MakeRequest(Status);
      s := Answer(reply);
    }

    method TogglePause()
      modifies wire
      ensures wire.log == old(wire.log) + Issue(AsView(), PlPause)
    {
      Execute(PlPause);
    }

    /** pause: reads the status and toggles only a playing player. */
    method Pause(reply: VlcStatus)
      modifies wire
      ensures wire.log == old(wire.log) + PauseEffects(AsView(), reply)
    {
      if closed {
        return;
      }
      var status := GetStatus(reply);
      if status.Answer? && status.status.state == "playing" {
        TogglePause();
      }
    }

    method SeekTo(value: Option<int>)
      modifies wire
      ensures wire.log == old(wire.log) + Issue(AsView(), Seek(value))
    {
      Execute(Seek(value));
    }

    method ToggleFullscreen()
      modifies wire
      ensures wire.log == old(wire.log) + Issue(AsView(), Fullscreen)
    {
      Execute(Fullscreen);
    }

    method SetVolume(value: string)
      modifies wire
      ensures wire.log == old(wire.log) + Issue(AsView(), Volume(value))
    {
      Execute(Volume(value));
    }
  }
}
