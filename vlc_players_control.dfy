/**
 * The controller over a fixed list of handles, the main one first: it fans each
 * command out to every handle (or to the main one only), combines the statuses,
 * and finds the handle a volume change is meant for.
 */
module VlcPlayersControl {
  import opened Results
  import Js
  import opened VlcPlayer

  // Effects, one handle at a time.

  /** The effects of `effects` that concern the handle `id`, in their order. */
  function ForHandle(effects: seq<Effect>, id: nat): (mine: seq<Effect>)
    ensures |mine| <= |effects|
    ensures forall e :: e in mine ==> e in effects && e.player == id
  {
    if effects == [] then []
    else (if effects[0].player == id then [effects[0]] else []) + ForHandle(effects[1..], id)
  }

  lemma {:induction false} ForHandleAppend(a: seq<Effect>, b: seq<Effect>, id: nat)
    ensures ForHandle(a + b, id) == ForHandle(a, id) + ForHandle(b, id)
  {
    if a == [] {
      assert a + b == b;
    } else {
      assert (a + b)[0] == a[0];
      assert (a + b)[1..] == a[1..] + b;
      ForHandleAppend(a[1..], b, id);
    }
  }

  /** A run of effects of one handle alone is kept whole for that handle and dropped for every other. */
  lemma {:induction false} ForHandleOfOne(effects: seq<Effect>, owner: nat, id: nat)
    requires forall k :: 0 <= k < |effects| ==> effects[k].player == owner
    ensures ForHandle(effects, id) == if owner == id then effects else []
  {
    if effects != [] {
      var tail := effects[1..];
      assert forall k :: 0 <= k < |tail| ==> tail[k] == effects[k + 1];
      ForHandleOfOne(tail, owner, id);
      if owner == id {
        assert effects == [effects[0]] + tail;
      }
    }
  }

  /** The effects of several handles, one part per handle, in the order of the parts. */
  function Concat(parts: seq<seq<Effect>>): seq<Effect> {
    if parts == [] then [] else Concat(parts[..|parts| - 1]) + parts[|parts| - 1]
  }

  lemma ConcatSnoc(parts: seq<seq<Effect>>, part: seq<Effect>)
    ensures Concat(parts + [part]) == Concat(parts) + part
  {
    assert (parts + [part])[..|parts|] == parts;
  }

  /** One step of a fan-out loop: the log grown by part i is the log of the first i + 1 parts. */
  lemma LogStep(start: seq<Effect>, parts: seq<seq<Effect>>, i: nat, before: seq<Effect>, after: seq<Effect>)
    requires i < |parts| && before == start + Concat(parts[..i]) && after == before + parts[i]
    ensures after == start + Concat(parts[..i + 1])
  {
    assert parts[..i + 1] == parts[..i] + [parts[i]];
    ConcatSnoc(parts[..i], parts[i]);
  }

  /** One step of a loop that collects `all` element by element. */
  lemma PrefixStep<T>(done: seq<T>, all: seq<T>, i: nat)
    requires i < |all| && done == all[..i]
    ensures done + [all[i]] == all[..i + 1]
  {
  }

  /** Part i of `parts` holds effects of handle i only. */
  predicate Attributed(parts: seq<seq<Effect>>, vs: seq<View>) {
    |parts| == |vs| && forall i, e :: 0 <= i < |parts| && e in parts[i] ==> e.player == vs[i].id
  }

  predicate DistinctIds(vs: seq<View>) {
    forall i, j :: 0 <= i < j < |vs| ==> vs[i].id != vs[j].id
  }

  /** What handle `id` sees of a fan-out is what it sees of all but the last part, then that part if it is the last part's owner. */
  lemma ForHandleLastPart(parts: seq<seq<Effect>>, owner: nat, id: nat)
    requires parts != []
    requires forall e :: e in parts[|parts| - 1] ==> e.player == owner
    ensures ForHandle(Concat(parts), id)
      == ForHandle(Concat(parts[..|parts| - 1]), id) + (if owner == id then parts[|parts| - 1] else [])
  {
    var n := |parts| - 1;
    assert Concat(parts) == Concat(parts[..n]) + parts[n];
    ForHandleAppend(Concat(parts[..n]), parts[n], id);
    ForHandleOfOne(parts[n], owner, id);
  }

  /** With distinct ids, handle k sees exactly its own part of a fan-out. */
  lemma {:induction false} ForHandleConcat(parts: seq<seq<Effect>>, vs: seq<View>, k: nat)
    requires Attributed(parts, vs) && DistinctIds(vs) && k < |vs|
    ensures ForHandle(Concat(parts), vs[k].id) == parts[k]
    decreases |parts|
  {
    var n := |parts| - 1;
    var front, vsFront := parts[..n], vs[..n];
    ForHandleLastPart(parts, vs[n].id, vs[k].id);
    assert Attributed(front, vsFront);
    if k < n {
      assert vs[n].id != vs[k].id;
      ForHandleConcat(front, vsFront, k);
    } else {
      assert forall i :: 0 <= i < |vsFront| ==> vsFront[i].id != vs[k].id;
      ForHandleNone(front, vsFront, vs[k].id);
    }
  }

  /** A fan-out over handles none of which is `id` has nothing for `id`. */
  lemma {:induction false} ForHandleNone(parts: seq<seq<Effect>>, vs: seq<View>, id: nat)
    requires Attributed(parts, vs)
    requires forall i :: 0 <= i < |vs| ==> vs[i].id != id
    ensures ForHandle(Concat(parts), id) == []
    decreases |parts|
  {
    if parts != [] {
      var n := |parts| - 1;
      ForHandleLastPart(parts, vs[n].id, id);
      assert Attributed(parts[..n], vs[..n]);
      ForHandleNone(parts[..n], vs[..n], id);
    }
  }

  lemma {:induction false} ConcatMembers(parts: seq<seq<Effect>>, p: Effect -> bool)
    requires forall i, e :: 0 <= i < |parts| && e in parts[i] ==> p(e)
    ensures forall e :: e in Concat(parts) ==> p(e)
    decreases |parts|
  {
    if parts != [] {
      ConcatMembers(parts[..|parts| - 1], p);
    }
  }

  // The fan-outs.

  /** The same command to every handle, in list order; closed handles send nothing. */
  function BroadcastParts(vs: seq<View>, c: Command): (parts: seq<seq<Effect>>)
    ensures Attributed(parts, vs)
  {
    seq(|vs|, i requires 0 <= i < |vs| => Issue(vs[i], c))
  }

  function Broadcast(vs: seq<View>, c: Command): seq<Effect> {
    Concat(BroadcastParts(vs, c))
  }

  function PauseParts(vs: seq<View>, replies: seq<VlcStatus>): (parts: seq<seq<Effect>>)
    requires |replies| == |vs|
    ensures Attributed(parts, vs)
  {
    seq(|vs|, i requires 0 <= i < |vs| => PauseEffects(vs[i], replies[i]))
  }

  function PauseAll(vs: seq<View>, replies: seq<VlcStatus>): seq<Effect>
    requires |replies| == |vs|
  {
    Concat(PauseParts(vs, replies))
  }

  function CloseParts(vs: seq<View>): (parts: seq<seq<Effect>>)
    ensures Attributed(parts, vs)
  {
    seq(|vs|, i requires 0 <= i < |vs| => CloseEffects(vs[i]))
  }

  function CloseAllEffects(vs: seq<View>): seq<Effect> {
    Concat(CloseParts(vs))
  }

  /** Every handle receives the broadcast command once when open and nothing when closed. */
  lemma BroadcastPerHandle(vs: seq<View>, c: Command, k: nat)
    requires DistinctIds(vs) && k < |vs|
    ensures ForHandle(Broadcast(vs, c), vs[k].id) == Issue(vs[k], c)
    ensures |ForHandle(Broadcast(vs, c), vs[k].id)| == if vs[k].closed then 0 else 1
  {
    ForHandleConcat(BroadcastParts(vs, c), vs, k);
  }

  /** Every request of a broadcast carries the broadcast command. */
  lemma BroadcastCarriesCommand(vs: seq<View>, c: Command)
    ensures forall e :: e in Broadcast(vs, c) ==> e.Request? && CommandOfUrl(Url(e)) == CommandText(c)
  {
    var parts := BroadcastParts(vs, c);
    forall i: int, e: Effect | 0 <= i < |parts| && e in parts[i]
      ensures e.Request? && CommandOfUrl(Url(e)) == CommandText(c)
    {
      assert e in Issue(vs[i], c);
      IssueCarriesCommand(vs[i], c);
    }
    ConcatMembers(parts, (e: Effect) => e.Request? && CommandOfUrl(Url(e)) == CommandText(c));
  }

  /** closeAll: each open handle is sent SIGTERM exactly once, a closed one nothing. */
  lemma CloseAllPerHandle(vs: seq<View>, k: nat)
    requires DistinctIds(vs) && k < |vs|
    ensures ForHandle(CloseAllEffects(vs), vs[k].id) == if vs[k].closed then [] else [Terminate(vs[k].id)]
  {
    ForHandleConcat(CloseParts(vs), vs, k);
  }

  // synchronize

  /** The time a seek is sent with: the main handle's reported time, `undefined` once it is closed. */
  function MainTime(s: PlayerStatus): Option<int> {
    match s
    case ClosedMarker => None
    case Answer(st) => Some(st.time)
  }

  /** synchronize: pause every handle, read the main status, then seek every handle to the main time. */
  function SyncTrace(vs: seq<View>, pauseReplies: seq<VlcStatus>, mainReply: VlcStatus): seq<Effect>
    requires |vs| >= 1 && |pauseReplies| == |vs|
  {
    PauseAll(vs, pauseReplies) + Issue(vs[0], Status) + Broadcast(vs, Seek(MainTime(StatusOf(vs[0], mainReply))))
  }

  predicate IsSeek(e: Effect) {
    e.Request? && |CommandOfUrl(Url(e))| >= 4 && CommandOfUrl(Url(e))[..4] == "seek"
  }

  /** A request for anything but a seek is not a seek. */
  lemma IssueIsNoSeek(v: View, c: Command)
    requires !c.Seek?
    ensures forall e :: e in Issue(v, c) ==> !IsSeek(e)
  {
    IssueCarriesCommand(v, c);
    var t := CommandText(c);
    assert |t| < 4 || t[0] != 's';
  }

  /** The pause phase of a synchronisation sends no seek. */
  lemma PauseAllHasNoSeek(vs: seq<View>, pauseReplies: seq<VlcStatus>)
    requires |pauseReplies| == |vs|
    ensures forall e :: e in PauseAll(vs, pauseReplies) ==> !IsSeek(e)
  {
    var parts := PauseParts(vs, pauseReplies);
    forall i: int, e: Effect | 0 <= i < |parts| && e in parts[i]
      ensures !IsSeek(e)
    {
      IssueIsNoSeek(vs[i], Status);
      IssueIsNoSeek(vs[i], PlPause);
      assert e in Issue(vs[i], Status) || e in Issue(vs[i], PlPause);
    }
    ConcatMembers(parts, (e: Effect) => !IsSeek(e));
  }

  /**
   * Every seek of a synchronisation goes to the main handle's time, and every seek
   * comes after the whole pause phase: the trace splits into a part with no seek
   * and a part made of seeks to that time only.
   */
  lemma SyncSeeksFollowPausesWithMainTime(vs: seq<View>, pauseReplies: seq<VlcStatus>, mainReply: VlcStatus)
    requires |vs| >= 1 && |pauseReplies| == |vs|
    ensures var trace := SyncTrace(vs, pauseReplies, mainReply);
            var seek := Seek(MainTime(StatusOf(vs[0], mainReply)));
            exists n :: 0 <= n <= |trace|
              && (forall e :: e in trace[..n] ==> !IsSeek(e))
              && (forall e :: e in trace[n..] ==> e.Request? && CommandOfUrl(Url(e)) == CommandText(seek))
  {
    var seek := Seek(MainTime(StatusOf(vs[0], mainReply)));
    var pauses := PauseAll(vs, pauseReplies);
    var before := pauses + Issue(vs[0], Status);
    var trace := SyncTrace(vs, pauseReplies, mainReply);
    PauseAllHasNoSeek(vs, pauseReplies);
    IssueIsNoSeek(vs[0], Status);
    assert forall e :: e in before ==> e in pauses || e in Issue(vs[0], Status);
    BroadcastCarriesCommand(vs, seek);
    assert trace == before + Broadcast(vs, seek);
    assert trace[..|before|] == before;
    assert trace[|before|..] == Broadcast(vs, seek);
  }

  /** What one handle sees of a synchronisation: its pause, the main status read if it is the main handle, and its seek. */
  lemma SyncPerHandle(vs: seq<View>, pauseReplies: seq<VlcStatus>, mainReply: VlcStatus, k: nat)
    requires |vs| >= 1 && |pauseReplies| == |vs| && DistinctIds(vs) && k < |vs|
    ensures ForHandle(SyncTrace(vs, pauseReplies, mainReply), vs[k].id)
      == PauseEffects(vs[k], pauseReplies[k])
         + (if k == 0 then Issue(vs[0], Status) else [])
         + Issue(vs[k], Seek(MainTime(StatusOf(vs[0], mainReply))))
  {
    var seek := Seek(MainTime(StatusOf(vs[0], mainReply)));
    ForHandleAppend(PauseAll(vs, pauseReplies) + Issue(vs[0], Status), Broadcast(vs, seek), vs[k].id);
    ForHandleAppend(PauseAll(vs, pauseReplies), Issue(vs[0], Status), vs[k].id);
    ForHandleConcat(PauseParts(vs, pauseReplies), vs, k);
    ForHandleOfOne(Issue(vs[0], Status), vs[0].id, vs[k].id);
    BroadcastPerHandle(vs, seek, k);
    if k != 0 {
      assert vs[0].id != vs[k].id;
    }
  }

  // getStatus

  /** One element of the `players` list of the combined status. */
  datatype PlayerEntry = PlayerEntry(id: nat, name: string, closed: bool, volume: Option<int>, time: Option<int>)

  /** The combined status: the main handle's playback state and one entry per handle. */
  datatype Aggregate = Aggregate(
    filename: Option<string>,
    state: string,
    time: int,
    length: int,
    fullscreen: bool,
    players: seq<PlayerEntry>)

  /** Why combining fails: reading `information.category.meta.filename` off the main status throws. */
  datatype StatusError = MainHasNoMeta

  function Entry(v: View, s: PlayerStatus): (e: PlayerEntry)
    ensures e.id == v.id && e.name == v.name
    ensures e.closed <==> s.ClosedMarker?
    ensures s.Answer? ==> e.volume == Some(s.status.volume) && e.time == Some(s.status.time)
    ensures s.ClosedMarker? ==> e.volume.None? && e.time.None?
  {
    match s
    case ClosedMarker => PlayerEntry(v.id, v.name, true, None, None)
    case Answer(st) => PlayerEntry(v.id, v.name, false, Some(st.volume), Some(st.time))
  }

  /** The meta block of the main status, when every step of the path is present. */
  function MainMeta(s: PlayerStatus): Option<Meta> {
    if s.ClosedMarker? || s.status.information.None? then None
    else if s.status.information.value.category.None? then None
    else s.status.information.value.category.value.meta
  }

  /** getStatus's combination of the statuses. */
  function Summarize(vs: seq<View>, statuses: seq<PlayerStatus>): (r: Result<Aggregate, StatusError>)
    requires |vs| >= 1 && |statuses| == |vs|
    ensures r.Failure? <==> MainMeta(statuses[0]).None?
    ensures r.Success? ==>
      && statuses[0].Answer?
      && r.value.filename == MainMeta(statuses[0]).value.filename
      && r.value.state == statuses[0].status.state
      && r.value.time == statuses[0].status.time
      && r.value.length == statuses[0].status.length
      && r.value.fullscreen == Js.Truthy(statuses[0].status.fullscreen)
      && |r.value.players| == |vs|
      && forall i :: 0 <= i < |vs| ==> r.value.players[i] == Entry(vs[i], statuses[i])
  {
    match MainMeta(statuses[0])
    case None => Failure(MainHasNoMeta)
    case Some(meta) =>
      var main := statuses[0].status;
      Success(Aggregate(meta.filename, main.state, main.time, main.length, Js.Truthy(main.fullscreen),
        seq(|vs|, i requires 0 <= i < |vs| => Entry(vs[i], statuses[i]))))
  }

  function Statuses(vs: seq<View>, replies: seq<VlcStatus>): (ss: seq<PlayerStatus>)
    requires |replies| == |vs|
    ensures |ss| == |vs|
  {
    seq(|vs|, i requires 0 <= i < |vs| => StatusOf(vs[i], replies[i]))
  }

  /** A closed main handle makes getStatus throw, whatever the others answer. */
  lemma ClosedMainFails(vs: seq<View>, replies: seq<VlcStatus>)
    requires |vs| >= 1 && |replies| == |vs| && vs[0].closed
    ensures Summarize(vs, Statuses(vs, replies)) == Failure(MainHasNoMeta)
  {
  }

  /** The top-level fields of the combined status depend on the main handle alone. */
  lemma TopLevelFromMainOnly(vs: seq<View>, replies: seq<VlcStatus>, others: seq<VlcStatus>)
    requires |vs| >= 1 && |replies| == |vs| && |others| == |vs| && replies[0] == others[0]
    ensures var a, b := Summarize(vs, Statuses(vs, replies)), Summarize(vs, Statuses(vs, others));
            a.Success? == b.Success?
            && (a.Success? ==> a.value.(players := []) == b.value.(players := []))
  {
    var a, b := Statuses(vs, replies), Statuses(vs, others);
    assert a[0] == b[0];
  }

  // setVolume

  /** The first index whose handle id is loosely equal to the key, as `Array.prototype.find` picks it. */
  function FindFirst(vs: seq<View>, key: Js.Key): (r: Option<nat>)
    ensures r.Some? ==>
      && r.value < |vs|
      && Js.LooseEquals(vs[r.value].id, key)
      && forall j :: 0 <= j < r.value ==> !Js.LooseEquals(vs[j].id, key)
    ensures r.None? ==> forall j :: 0 <= j < |vs| ==> !Js.LooseEquals(vs[j].id, key)
  {
    if vs == [] then None
    else if Js.LooseEquals(vs[0].id, key) then Some(0)
    else
      var rest := FindFirst(vs[1..], key);
      assert forall j :: 1 <= j < |vs| ==> vs[1..][j - 1] == vs[j];
      if rest.None? then None else Some(rest.value + 1)
  }

  /** With distinct ids, the decimal text of a handle's id (as it arrives in the URL path) finds that handle. */
  lemma FindByIdText(vs: seq<View>, k: nat)
    requires DistinctIds(vs) && k < |vs|
    ensures FindFirst(vs, Js.StringKey(Decimal.IntText(vs[k].id))) == Some(k)
  {
    var key := Js.StringKey(Decimal.IntText(vs[k].id));
    Js.TextKeyMatchesExactly(vs[k].id, vs[k].id);
    var r := FindFirst(vs, key);
    assert r.Some?;
    var m := r.value;
    Js.TextKeyMatchesExactly(vs[k].id, vs[m].id);
    assert vs[m].id == vs[k].id;
    assert !(m < k) && !(k < m);
  }

  const NoSuchPlayer: string := "No active player with such id"

  /** The volume requests of setVolume: to the found handle, unless it is closed; an error with no request when none is found. */
  function VolumeEffects(vs: seq<View>, key: Js.Key, value: string): (r: (Outcome<string>, seq<Effect>))
    ensures r.0 == Fail(NoSuchPlayer) <==> FindFirst(vs, key).None?
    ensures r.0.Fail? ==> r.1 == []
    ensures r.0.Pass? ==> r.1 == Issue(vs[FindFirst(vs, key).value], Volume(value))
  {
    match FindFirst(vs, key)
    case None => (Fail(NoSuchPlayer), [])
    case Some(k) => (Pass, Issue(vs[k], Volume(value)))
  }

  lemma VolumeTouchesOnlyTarget(vs: seq<View>, k: nat, value: string)
    requires DistinctIds(vs) && k < |vs|
    ensures var (outcome, effects) := VolumeEffects(vs, Js.StringKey(Decimal.IntText(vs[k].id)), value);
            outcome == Pass && effects == Issue(vs[k], Volume(value))
  {
    FindByIdText(vs, k);
  }

  // The controller.

  function ViewsOf(ps: seq<Player>): (vs: seq<View>)
    reads ps
    ensures |vs| == |ps| && forall i :: 0 <= i < |ps| ==> vs[i] == ps[i].AsView()
  {
    seq(|ps|, i reads ps requires 0 <= i < |ps| => ps[i].AsView())
  }

  /** buildVlcPlayersControl: the main handle and the secondary ones, main first. */
  class Controller {
    const players: seq<Player>
    const wire: Wire

    /** Every handle writes to the controller's wire, and there is a main handle. */
    predicate Valid() {
      |players| >= 1 && forall i :: 0 <= i < |players| ==> players[i].wire == wire
    }

    function Views(): seq<View>
      reads players
    {
      ViewsOf(players)
    }

    constructor (main: Player, secondaries: seq<Player>)
      requires forall p :: p in secondaries ==> p.wire == main.wire
      ensures players == [main] + secondaries && wire == main.wire
      ensures Valid()
    {
      players := [main] + secondaries;
      wire := main.wire;
      new;
      assert forall i :: 1 <= i < |players| ==> players[i] in secondaries;
    }

    method GetStatus(replies: seq<VlcStatus>) returns (r: Result<Aggregate, StatusError>)
      requires Valid() && |replies| == |players|
      modifies wire
      ensures r == Summarize(Views(), Statuses(Views(), replies))
      ensures wire.log == old(wire.log) + Broadcast(Views(), Status)
    {
      ghost var vs := Views();
      ghost var parts := BroadcastParts(vs, Status);
      ghost var all := Statuses(vs, replies);
      var statuses: seq<PlayerStatus> := [];
      var i := 0;
      while i < |players|
        invariant 0 <= i <= |players|
        invariant statuses == all[..i]
        invariant wire.log == old(wire.log) + Concat(parts[..i])
      {
        assert parts[i] == Issue(players[i].AsView(), Status);
        assert all[i] == StatusOf(players[i].AsView(), replies[i]);
        ghost var before := wire.log;
        var s := players[i].GetStatus(replies[i]);
        PrefixStep(statuses, all, i);
        statuses := statuses + [s];
        LogStep(old(wire.log), parts, i, before, wire.log);
        i := i + 1;
      }
      assert parts[..i] == parts;
      assert statuses == all;
      r := Summarize(Views(), statuses);
    }

    method TogglePause()
      requires Valid()
      modifies wire
      ensures wire.log == old(wire.log) + Broadcast(Views(), PlPause)
    {
      ghost var vs := Views();
      ghost var parts := BroadcastParts(vs, PlPause);
      var i := 0;
      while i < |players|
        invariant 0 <= i <= |players|
        invariant wire.log == old(wire.log) + Concat(parts[..i])
      {
        assert parts[i] == Issue(players[i].AsView(), PlPause);
        ghost var before := wire.log;
        players[i].TogglePause();
        LogStep(old(wire.log), parts, i, before, wire.log);
        i := i + 1;
      }
      assert parts[..i] == parts;
    }

    /** The first phase of synchronize: every handle pauses. */
    method PauseEach(pauseReplies: seq<VlcStatus>)
      requires Valid() && |pauseReplies| == |players|
      modifies wire
      ensures wire.log == old(wire.log) + PauseAll(Views(), pauseReplies)
    {
      ghost var vs := Views();
      ghost var parts := PauseParts(vs, pauseReplies);
      var i := 0;
      while i < |players|
        invariant 0 <= i <= |players|
        invariant wire.log == old(wire.log) + Concat(parts[..i])
      {
        assert parts[i] == PauseEffects(players[i].AsView(), pauseReplies[i]);
        ghost var before := wire.log;
        players[i].Pause(pauseReplies[i]);
        LogStep(old(wire.log), parts, i, before, wire.log);
        i := i + 1;
      }
      assert parts[..i] == parts;
    }

    /** The last phase of synchronize: every handle seeks to the same time. */
    method SeekEach(time: Option<int>)
      requires Valid()
      modifies wire
      ensures wire.log == old(wire.log) + Broadcast(Views(), Seek(time))
    {
      ghost var vs := Views();
      ghost var parts := BroadcastParts(vs, Seek(time));
      var i := 0;
      while i < |players|
        invariant 0 <= i <= |players|
        invariant wire.log == old(wire.log) + Concat(parts[..i])
      {
        assert parts[i] == Issue(players[i].AsView(), Seek(time));
        ghost var before := wire.log;
        players[i].SeekTo(time);
        LogStep(old(wire.log), parts, i, before, wire.log);
        i := i + 1;
      }
      assert parts[..i] == parts;
    }

    /** The last two phases of synchronize: read the main status, then seek every handle to its time. */
    method SeekAllToMain(mainReply: VlcStatus)
      requires Valid()
      modifies wire
      ensures wire.log == old(wire.log) + Issue(Views()[0], Status)
                + Broadcast(Views(), Seek(MainTime(StatusOf(Views()[0], mainReply))))
    {
      var mainStatus := players[0].GetStatus(mainReply);
      SeekEach(MainTime(mainStatus));
    }

    method Synchronize(pauseReplies: seq<VlcStatus>, mainReply: VlcStatus)
      requires Valid() && |pauseReplies| == |players|
      modifies wire
      ensures wire.log == old(wire.log) + SyncTrace(Views(), pauseReplies, mainReply)
    {
      PauseEach(pauseReplies);
      SeekAllToMain(mainReply);
    }

    /** toggleFullscreen goes to the main handle only. */
    method ToggleFullscreen()
      requires Valid()
      modifies wire
      ensures wire.log == old(wire.log) + Issue(Views()[0], Fullscreen)
    {
      players[0].ToggleFullscreen();
    }

    method SetVolume(key: Js.Key, value: string) returns (outcome: Outcome<string>)
      requires Valid()
      modifies wire
      ensures outcome == VolumeEffects(Views(), key, value).0
      ensures wire.log == old(wire.log) + VolumeEffects(Views(), key, value).1
    {
      match FindFirst(Views(), key)
      case None =>
        outcome := Fail(NoSuchPlayer);
      case Some(k) =>
        players[k].SetVolume(value);
        outcome := Pass;
    }

    method CloseAll()
      requires Valid()
      modifies wire
      ensures wire.log == old(wire.log) + CloseAllEffects(Views())
    {
      ghost var vs := Views();
      ghost var parts := CloseParts(vs);
      var i := 0;
      while i < |players|
        invariant 0 <= i <= |players|
        invariant wire.log == old(wire.log) + Concat(parts[..i])
      {
        assert parts[i] == CloseEffects(players[i].AsView());
        ghost var before := wire.log;
        players[i].Close();
        LogStep(old(wire.log), parts, i, before, wire.log);
        i := i + 1;
      }
      assert parts[..i] == parts;
    }
  }
}
