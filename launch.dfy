/**
 * The launch of `main` in index.js: the secondary tracks are offered without the
 * main one, the program exits with code 1 when there are not enough ports, and
 * otherwise starts the main handle on the first port and each secondary handle on
 * the next ones, then builds the controller.
 */
module Launch {
  import opened Results
  import Js
  import opened Audiotracks
  import opened VlcPlayer
  import opened VlcPlayersControl

  /** The defaults of the command-line options. */
  const DefaultVlcBin: string := "vlc"
  const DefaultVlcPorts: seq<int> := [9000, 9001, 9002, 9003, 9004]
  const DefaultPassword: string := "insecure_password"

  /** `arrayWithout(audiotracks, mainAudiotrack)`: the tracks other than the main one, in their order. */
  function Without(tracks: seq<Audiotrack>, main: Audiotrack): (rest: seq<Audiotrack>)
    ensures |rest| <= |tracks|
    ensures forall t :: t in rest <==> t in tracks && t != main
  {
    if tracks == [] then []
    else (if tracks[0] == main then [] else [tracks[0]]) + Without(tracks[1..], main)
  }

  /** What every handle is started with, from the command line. */
  datatype Settings = Settings(vlcBin: string, filename: string, password: string)

  /** The name a handle is shown under: the role and the track title as a template literal renders it. */
  function RoleName(role: string, track: Audiotrack): string {
    role + " (" + Js.Text(track.title) + ")"
  }

  function MainOptions(s: Settings, port: int, main: Audiotrack): StartOptions {
    StartOptions(s.vlcBin, RoleName("MAIN", main), s.filename, main, false, port, s.password, true)
  }

  function SecondaryOptions(s: Settings, port: int, track: Audiotrack): StartOptions {
    StartOptions(s.vlcBin, RoleName("SECONDARY", track), s.filename, track, false, port, s.password, false)
  }

  /** The handles to start, main first, or the exit code when the ports do not suffice. */
  function Plan(s: Settings, ports: seq<int>, main: Audiotrack, secondaries: seq<Audiotrack>): (r: Result<seq<StartOptions>, int>)
    ensures r.Failure? <==> |secondaries| >= |ports|
    ensures r.Failure? ==> r.error == 1
    ensures r.Success? ==>
      && |r.value| == |secondaries| + 1
      && r.value[0] == MainOptions(s, ports[0], main)
      && forall i :: 1 <= i < |r.value| ==> r.value[i] == SecondaryOptions(s, ports[i], secondaries[i - 1])
  {
    if |secondaries| > |ports| - 1 then Failure(1)
    else Success([MainOptions(s, ports[0], main)]
      + seq(|secondaries|, i requires 0 <= i < |secondaries| => SecondaryOptions(s, ports[i + 1], secondaries[i])))
  }

  predicate NoDuplicates(xs: seq<int>) {
    forall i, j :: 0 <= i < j < |xs| ==> xs[i] != xs[j]
  }

  /**
   * Handle i listens on port i; the handles' ports are pairwise different exactly
   * when the ports the plan uses are, and only the main handle ends the program
   * when it exits.
   */
  lemma PlanAssignsPorts(s: Settings, ports: seq<int>, main: Audiotrack, secondaries: seq<Audiotrack>)
    requires Plan(s, ports, main, secondaries).Success?
    ensures var plan := Plan(s, ports, main, secondaries).value;
      && (forall i :: 0 <= i < |plan| ==> plan[i].port == ports[i] && !plan[i].noVideo && (plan[i].hasCallback <==> i == 0))
      && ((forall i, j :: 0 <= i < j < |plan| ==> plan[i].port != plan[j].port) <==> NoDuplicates(ports[..|plan|]))
  {
    var plan := Plan(s, ports, main, secondaries).value;
    var used := ports[..|plan|];
    forall i | 0 <= i < |plan|
      ensures plan[i].port == ports[i] == used[i] && !plan[i].noVideo && (plan[i].hasCallback <==> i == 0)
    {
      if i > 0 {
        assert plan[i] == SecondaryOptions(s, ports[i], secondaries[i - 1]);
      }
    }
  }

  /** Every track the user can pick as secondary differs from the main one, so no secondary handle plays the main track. */
  lemma SecondariesExcludeMain(s: Settings, ports: seq<int>, tracks: seq<Audiotrack>, main: Audiotrack, secondaries: seq<Audiotrack>)
    requires forall t :: t in secondaries ==> t in Without(tracks, main)
    requires Plan(s, ports, main, secondaries).Success?
    ensures var plan := Plan(s, ports, main, secondaries).value;
      forall i :: 1 <= i < |plan| ==> plan[i].audiotrack != main && plan[i].audiotrack in tracks
  {
    var plan := Plan(s, ports, main, secondaries).value;
    forall i | 1 <= i < |plan|
      ensures plan[i].audiotrack != main && plan[i].audiotrack in tracks
    {
      assert secondaries[i - 1] in secondaries;
    }
  }

  /** With the default ports, at most four secondary handles can be started. */
  lemma DefaultPortsAllowFourSecondaries(s: Settings, main: Audiotrack, secondaries: seq<Audiotrack>)
    ensures Plan(s, DefaultVlcPorts, main, secondaries).Success? <==> |secondaries| <= 4
  {
  }

  /** The settings when `--vlc-bin` and `--vlc-password` are not given. */
  function DefaultSettings(filename: string): Settings {
    Settings(DefaultVlcBin, filename, DefaultPassword)
  }

  /**
   * With every option left at its default, up to four secondary tracks get handles
   * on ports 9000, 9001, … in order, all started from `vlc` with the password
   * `insecure_password`.
   */
  lemma DefaultPlan(filename: string, main: Audiotrack, secondaries: seq<Audiotrack>)
    requires |secondaries| <= 4
    ensures var r := Plan(DefaultSettings(filename), DefaultVlcPorts, main, secondaries);
      && r.Success?
      && forall i :: 0 <= i < |r.value| ==>
           r.value[i].port == 9000 + i && r.value[i].vlcBin == "vlc" && r.value[i].password == "insecure_password"
  {
    var plan := Plan(DefaultSettings(filename), DefaultVlcPorts, main, secondaries).value;
    forall i | 0 <= i < |plan|
      ensures plan[i].port == 9000 + i && plan[i].vlcBin == "vlc" && plan[i].password == "insecure_password"
    {
      if i > 0 {
        assert plan[i] == SecondaryOptions(DefaultSettings(filename), DefaultVlcPorts[i], secondaries[i - 1]);
      }
    }
  }

  /** How the launch ends: with an exit code, or with the controller over the started handles. */
  datatype LaunchOutcome = Exited(code: int) | Started(control: Controller)

  /** The spawn effects of the started handles, in start order. */
  function Spawns(bin: string, ps: seq<Player>): seq<Effect> {
    seq(|ps|, i requires 0 <= i < |ps| => Spawn(ps[i].id, bin, ps[i].launchArgs))
  }

  lemma SpawnsSnoc(bin: string, ps: seq<Player>, p: Player)
    ensures Spawns(bin, ps + [p]) == Spawns(bin, ps) + [Spawn(p.id, bin, p.launchArgs)]
  {
  }

  /** Handle p was made from `opts` with id `id`: its constant fields, which nothing changes later. */
  ghost predicate MadeFrom(p: Player, opts: StartOptions, id: nat) {
    p.id == id && p.options == opts && p.Configured()
  }

  /** Handle p was started from `opts`, with id `id`, and is still open. */
  ghost predicate StartedFrom(p: Player, opts: StartOptions, id: nat)
    reads p
  {
    MadeFrom(p, opts, id) && !p.closed && p.callbackFires == 0
  }

  /** Starts one handle per entry of the plan, in plan order: the main one, then `secondaryAudiotracks.map(...)`. */
  method StartPlayers(gen: IdGenerator, wire: Wire, bin: string, plan: seq<StartOptions>)
    returns (ps: seq<Player>)
    requires forall i :: 0 <= i < |plan| ==> plan[i].vlcBin == bin
    modifies gen, wire
    ensures |ps| == |plan|
    ensures forall j :: 0 <= j < |ps| ==> fresh(ps[j]) && ps[j].wire == wire
    ensures forall j :: 0 <= j < |ps| ==> StartedFrom(ps[j], plan[j], old(gen.lastUsedId) + 1 + j)
    ensures gen.lastUsedId == old(gen.lastUsedId) + |ps|
    ensures wire.log == old(wire.log) + Spawns(bin, ps)
  {
    ps := [];
    var i := 0;
    while i < |plan|
      invariant 0 <= i <= |plan|
      invariant |ps| == i
      invariant forall j :: 0 <= j < i ==> MadeFrom(ps[j], plan[j], old(gen.lastUsedId) + 1 + j)
      invariant forall j :: 0 <= j < i ==> fresh(ps[j]) && ps[j].wire == wire && !ps[j].closed && ps[j].callbackFires == 0
      invariant gen.lastUsedId == old(gen.lastUsedId) + i
      invariant wire.log == old(wire.log) + Spawns(bin, ps)
    {
      var p := new Player.Start(gen, wire, plan[i]);
      SpawnsSnoc(bin, ps, p);
      ps := ps + [p];
      i := i + 1;
    }
  }

  /** Starts the planned handles and puts a controller over them, the main handle first. */
  method StartControl(gen: IdGenerator, wire: Wire, bin: string, plan: seq<StartOptions>)
    returns (control: Controller)
    requires |plan| >= 1 && forall i :: 0 <= i < |plan| ==> plan[i].vlcBin == bin
    modifies gen, wire
    ensures var ps := control.players;
      && control.Valid() && control.wire == wire
      && |ps| == |plan|
      && (forall i :: 0 <= i < |ps| ==> fresh(ps[i]) && StartedFrom(ps[i], plan[i], old(gen.lastUsedId) + 1 + i))
      && gen.lastUsedId == old(gen.lastUsedId) + |ps|
      && wire.log == old(wire.log) + Spawns(bin, ps)
      && DistinctIds(control.Views())
  {
    var ps := StartPlayers(gen, wire, bin, plan);
    control := new Controller(ps[0], ps[1..]);
    assert [ps[0]] + ps[1..] == ps;
    ghost var vs := control.Views();
    assert forall i :: 0 <= i < |vs| ==> vs[i].id == old(gen.lastUsedId) + 1 + i;
  }

  /** main's launch part: check the ports, start the handles in plan order, build the controller. */
  method LaunchPlayers(gen: IdGenerator, wire: Wire, s: Settings, ports: seq<int>, main: Audiotrack, secondaries: seq<Audiotrack>)
    returns (outcome: LaunchOutcome)
    modifies gen, wire
    ensures outcome.Exited? <==> Plan(s, ports, main, secondaries).Failure?
    ensures outcome.Exited? ==> outcome.code == 1 && wire.log == old(wire.log) && gen.lastUsedId == old(gen.lastUsedId)
    ensures outcome.Started? ==>
      var plan := Plan(s, ports, main, secondaries).value;
      var ps := outcome.control.players;
      && outcome.control.Valid() && outcome.control.wire == wire
      && |ps| == |plan|
      && (forall i :: 0 <= i < |ps| ==> fresh(ps[i]) && StartedFrom(ps[i], plan[i], old(gen.lastUsedId) + 1 + i))
      && gen.lastUsedId == old(gen.lastUsedId) + |ps|
      && wire.log == old(wire.log) + Spawns(s.vlcBin, ps)
      && DistinctIds(outcome.control.Views())
  {
    if |secondaries| > |ports| - 1 {
      return Exited(1);
    }
    var plan := Plan(s, ports, main, secondaries).value;
    var control := StartControl(gen, wire, s.vlcBin, plan);
    outcome := Started(control);
  }
}
