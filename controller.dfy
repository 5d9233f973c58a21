/**
 * The session registry of src/lib.rs: `AudioController` owns an ordered list
 * of sessions, grows it by discovering per-process sessions on every active
 * render device and by registering the default output and input endpoints,
 * and answers lookups by name.
 *
 * The audio subsystem is an abstract `AudioPlatform` value: for every step
 * the source performs on a COM object, the platform says whether it succeeds
 * and what it yields. A call that the source ends with `exit(1)` or an
 * `unwrap` panic here ends the operation with the outcome `Aborted`.
 */
module Controller {
  import opened Wrappers
  import opened SessionNaming
  import ProcessApi

  // ---------------------------------------------------------------------------
  // Sessions and the platform they come from
  // ---------------------------------------------------------------------------

  /** A controllable session; its volume control is not part of this model. */
  datatype Session = ApplicationSession(name: string) | EndPointSession(name: string)

  /** `getName()` of every session, in list order. */
  function Names(sessions: seq<Session>): (r: seq<string>)
    ensures |r| == |sessions|
    ensures forall i :: 0 <= i < |r| ==> r[i] == sessions[i].name
  {
    if sessions == [] then [] else Names(sessions[..|sessions| - 1]) + [sessions[|sessions| - 1].name]
  }

  predicate UniqueNames(names: seq<string>)
  {
    forall i, j :: 0 <= i < j < |names| ==> names[i] != names[j]
  }

  /**
   * What the platform answers for one session of a device's session
   * enumerator: whether GetSession succeeds, whether the control casts to
   * IAudioSessionControl2, the process id (None when GetProcessId fails),
   * the outcome of resolving that process's display name, and whether the
   * control casts to ISimpleAudioVolume.
   */
  datatype SessionProbe = SessionProbe(
    controlFetched: bool,
    control2Cast: bool,
    pid: Option<ProcessApi.u32>,
    processInfo: Result<string>,
    volumeCast: bool)

  /**
   * One active render device. `sessions` is None when fetching the device,
   * activating its session manager, getting its session enumerator or
   * counting its sessions fails; each of those ends the process.
   */
  datatype RenderDevice = RenderDevice(sessions: Option<seq<SessionProbe>>)

  /** A default endpoint device, and whether its endpoint volume can be activated. */
  datatype AudioEndpoint = AudioEndpoint(volumeActivates: bool)

  /**
   * An IMMDeviceEnumerator: the active render devices (None when enumerating
   * them or counting them fails) and the default render and capture devices
   * for the multimedia role (None when there is none to resolve).
   */
  datatype DeviceEnumerator = DeviceEnumerator(
    activeRender: Option<seq<RenderDevice>>,
    defaultRender: Option<AudioEndpoint>,
    defaultCapture: Option<AudioEndpoint>)

  /** The audio subsystem: CoCreateInstance of MMDeviceEnumerator yields `enumerator`, or fails. */
  datatype AudioPlatform = AudioPlatform(enumerator: Option<DeviceEnumerator>)

  /** How an operation ends: normally, or at an `exit(1)` / panic. */
  datatype Outcome = Completed | Aborted

  /** The sessions after (part of) an operation, and whether it aborted there. */
  datatype Progress = Progress(sessions: seq<Session>, aborted: bool)

  // ---------------------------------------------------------------------------
  // Specification of process-session discovery
  // ---------------------------------------------------------------------------

  /** What discovery does with one enumerated session. */
  datatype Verdict = Skipped | Panicked | Admitted(baseName: string)

  /**
   * The checks of the session loop, in source order: a session whose control
   * cannot be fetched or cast, whose pid is 0, whose process cannot be
   * resolved or whose volume cannot be cast is skipped; a failing
   * GetProcessId panics.
   */
  function Judge(p: SessionProbe): (v: Verdict)
    ensures v.Admitted? <==> p.controlFetched && p.control2Cast && p.pid.Some? && p.pid.value != 0
                             && p.processInfo.Ok? && p.volumeCast
    ensures v.Admitted? ==> v.baseName == p.processInfo.value
    ensures v.Panicked? <==> p.controlFetched && p.control2Cast && p.pid.None?
    ensures p.pid == Some(0) ==> !v.Admitted?
  {
    if !p.controlFetched then Skipped
    else if !p.control2Cast then Skipped
    else if p.pid.None? then Panicked
    else if p.pid.value == 0 then Skipped
    else if p.processInfo.Err? then Skipped
    else if !p.volumeCast then Skipped
    else Admitted(p.processInfo.value)
  }

  /** The sessions after one enumerated session has been handled. */
  function Step(sessions: seq<Session>, p: SessionProbe): (r: Progress)
    ensures r.aborted <==> Judge(p).Panicked?
    ensures sessions <= r.sessions
    ensures |r.sessions| == |sessions| + (if Judge(p).Admitted? then 1 else 0)
    ensures Judge(p).Admitted? ==>
              r.sessions[|sessions|].ApplicationSession? && r.sessions[|sessions|].name !in Names(sessions)
  {
    match Judge(p)
    case Skipped => Progress(sessions, false)
    case Panicked => Progress(sessions, true)
    case Admitted(base) => Progress(sessions + [ApplicationSession(Deduplicated(Names(sessions), base, 2))], false)
  }

  /** The inner loop over one device's sessions, up to its first panic. */
  function ScanSessions(sessions: seq<Session>, probes: seq<SessionProbe>): (r: Progress)
    ensures sessions <= r.sessions && |r.sessions| <= |sessions| + |probes|
    ensures r.aborted <==> exists i :: 0 <= i < |probes| && Judge(probes[i]).Panicked?
  {
    if probes == [] then Progress(sessions, false)
    else
      var p := ScanSessions(sessions, probes[..|probes| - 1]);
      if p.aborted then p else Step(p.sessions, probes[|probes| - 1])
  }

  /** The outer loop over the active render devices, up to the first abort. */
  function ScanDevices(sessions: seq<Session>, devices: seq<RenderDevice>): (r: Progress)
    ensures sessions <= r.sessions
    ensures !r.aborted <==> NoPanics(devices)
  {
    if devices == [] then Progress(sessions, false)
    else
      var p := ScanDevices(sessions, devices[..|devices| - 1]);
      if p.aborted then p
      else match devices[|devices| - 1].sessions
        case None => Progress(p.sessions, true)
        case Some(probes) => ScanSessions(p.sessions, probes)
  }

  /** One more pass of the inner loop. */
  lemma ScanSessionsNext(sessions: seq<Session>, probes: seq<SessionProbe>, i: nat)
    requires i < |probes|
    ensures var p := ScanSessions(sessions, probes[..i]);
            ScanSessions(sessions, probes[..i + 1]) == if p.aborted then p else Step(p.sessions, probes[i])
  {
    assert probes[..i + 1][..i] == probes[..i];
    assert probes[..i + 1][i] == probes[i];
  }

  /** One more pass of the outer loop. */
  lemma ScanDevicesNext(sessions: seq<Session>, devices: seq<RenderDevice>, d: nat)
    requires d < |devices|
    ensures var p := ScanDevices(sessions, devices[..d]);
            ScanDevices(sessions, devices[..d + 1]) ==
              if p.aborted then p
              else match devices[d].sessions
                case None => Progress(p.sessions, true)
                case Some(probes) => ScanSessions(p.sessions, probes)
  {
    assert devices[..d + 1][..d] == devices[..d];
    assert devices[..d + 1][d] == devices[d];
  }

  /** Once the inner loop has aborted, the remaining sessions change nothing. */
  lemma {:induction false} ScanSessionsStopsAt(sessions: seq<Session>, probes: seq<SessionProbe>, i: nat)
    requires i <= |probes| && ScanSessions(sessions, probes[..i]).aborted
    ensures ScanSessions(sessions, probes) == ScanSessions(sessions, probes[..i])
    decreases |probes|
  {
    if i == |probes| {
      assert probes[..i] == probes;
    } else {
      var init := probes[..|probes| - 1];
      assert init[..i] == probes[..i];
      ScanSessionsStopsAt(sessions, init, i);
    }
  }

  /** Once the outer loop has aborted, the remaining devices change nothing. */
  lemma {:induction false} ScanDevicesStopsAt(sessions: seq<Session>, devices: seq<RenderDevice>, d: nat)
    requires d <= |devices| && ScanDevices(sessions, devices[..d]).aborted
    ensures ScanDevices(sessions, devices) == ScanDevices(sessions, devices[..d])
    decreases |devices|
  {
    if d == |devices| {
      assert devices[..d] == devices;
    } else {
      var init := devices[..|devices| - 1];
      assert init[..d] == devices[..d];
      ScanDevicesStopsAt(sessions, init, d);
    }
  }

  /** GetAllProcessSessions as a whole: create an enumerator, list the devices, scan them. */
  function Discovery(sessions: seq<Session>, platform: AudioPlatform): (r: Progress)
    ensures sessions <= r.sessions
    ensures !r.aborted <==> platform.enumerator.Some? && platform.enumerator.value.activeRender.Some?
                            && NoPanics(platform.enumerator.value.activeRender.value)
  {
    match platform.enumerator
    case None => Progress(sessions, true)
    case Some(e) =>
      match e.activeRender
      case None => Progress(sessions, true)
      case Some(devices) => ScanDevices(sessions, devices)
  }

  // ---------------------------------------------------------------------------
  // A reference definition: filter the sessions, then name them in order
  // ---------------------------------------------------------------------------

  /** Discovery makes no abort along these devices. */
  predicate NoPanics(devices: seq<RenderDevice>)
  {
    forall d :: 0 <= d < |devices| ==>
      devices[d].sessions.Some? &&
      forall i :: 0 <= i < |devices[d].sessions.value| ==> !Judge(devices[d].sessions.value[i]).Panicked?
  }

  /** The resolved names of the sessions that pass every check, in enumeration order. */
  function AdmittedIn(probes: seq<SessionProbe>): (r: seq<string>)
    ensures |r| <= |probes|
  {
    if probes == [] then []
    else
      var last := Judge(probes[|probes| - 1]);
      AdmittedIn(probes[..|probes| - 1]) + (if last.Admitted? then [last.baseName] else [])
  }

  /** AdmittedIn over all devices, device by device. */
  function AdmittedAll(devices: seq<RenderDevice>): seq<string>
  {
    if devices == [] then []
    else
      var last := devices[|devices| - 1].sessions;
      AdmittedAll(devices[..|devices| - 1]) + (if last.Some? then AdmittedIn(last.value) else [])
  }

  /** Append one application session per base name, each made unique against all before it. */
  function Register(sessions: seq<Session>, bases: seq<string>): (r: seq<Session>)
    ensures |r| == |sessions| + |bases|
  {
    if bases == [] then sessions
    else
      var s := Register(sessions, bases[..|bases| - 1]);
      s + [ApplicationSession(Deduplicated(Names(s), bases[|bases| - 1], 2))]
  }

  lemma {:induction false} RegisterConcat(sessions: seq<Session>, a: seq<string>, b: seq<string>)
    ensures Register(sessions, a + b) == Register(Register(sessions, a), b)
    decreases |b|
  {
    if b == [] {
      assert a + b == a;
    } else {
      var b' := b[..|b| - 1];
      assert (a + b)[..|a + b| - 1] == a + b';
      assert (a + b)[|a + b| - 1] == b[|b| - 1];
      RegisterConcat(sessions, a, b');
    }
  }

  /** Registering a single base name appends one session. */
  lemma RegisterOne(sessions: seq<Session>, base: string)
    ensures Register(sessions, [base]) == sessions + [ApplicationSession(Deduplicated(Names(sessions), base, 2))]
  {
    assert [base][..0] == [];
  }

  lemma {:induction false} ScanSessionsIsRegister(sessions: seq<Session>, probes: seq<SessionProbe>)
    requires forall i :: 0 <= i < |probes| ==> !Judge(probes[i]).Panicked?
    ensures ScanSessions(sessions, probes) == Progress(Register(sessions, AdmittedIn(probes)), false)
  {
    if probes != [] {
      var init := probes[..|probes| - 1];
      ScanSessionsIsRegister(sessions, init);
      var last := Judge(probes[|probes| - 1]);
      var s := Register(sessions, AdmittedIn(init));
      assert ScanSessions(sessions, probes) == Step(s, probes[|probes| - 1]);
      if last.Admitted? {
        assert AdmittedIn(probes) == AdmittedIn(init) + [last.baseName];
        RegisterConcat(sessions, AdmittedIn(init), [last.baseName]);
        RegisterOne(s, last.baseName);
      } else {
        assert AdmittedIn(probes) == AdmittedIn(init) + [];
        assert AdmittedIn(init) + [] == AdmittedIn(init);
      }
    }
  }

  /**
   * Discovery over devices that never abort appends exactly the sessions that
   * pass every check, named in device order and then in session order.
   */
  lemma {:induction false} ScanDevicesIsRegister(sessions: seq<Session>, devices: seq<RenderDevice>)
    requires NoPanics(devices)
    ensures ScanDevices(sessions, devices) == Progress(Register(sessions, AdmittedAll(devices)), false)
  {
    if devices != [] {
      var init := devices[..|devices| - 1];
      assert NoPanics(init);
      ScanDevicesIsRegister(sessions, init);
      var probes := devices[|devices| - 1].sessions.value;
      assert forall i :: 0 <= i < |probes| ==> !Judge(probes[i]).Panicked?;
      ScanSessionsIsRegister(Register(sessions, AdmittedAll(init)), probes);
      RegisterConcat(sessions, AdmittedAll(init), AdmittedIn(probes));
    }
  }

  /** Without an abort, the number of appended sessions is the number of sessions passing every check. */
  lemma DiscoveryCount(sessions: seq<Session>, devices: seq<RenderDevice>)
    requires NoPanics(devices)
    ensures !ScanDevices(sessions, devices).aborted
    ensures |ScanDevices(sessions, devices).sessions| == |sessions| + |AdmittedAll(devices)|
  {
    ScanDevicesIsRegister(sessions, devices);
  }

  // ---------------------------------------------------------------------------
  // What Register, and hence discovery, guarantees
  // ---------------------------------------------------------------------------

  /** Registering only appends: the old sessions stay in front. */
  lemma {:induction false} RegisterExtends(sessions: seq<Session>, bases: seq<string>)
    ensures Register(sessions, bases)[..|sessions|] == sessions
    decreases |bases|
  {
    if bases != [] {
      var s := Register(sessions, bases[..|bases| - 1]);
      RegisterExtends(sessions, bases[..|bases| - 1]);
      assert Register(sessions, bases)[..|s|] == s;
    }
  }

  /** Registering a list is registering its first n names, then the rest. */
  lemma RegisterSplit(sessions: seq<Session>, bases: seq<string>, n: nat)
    requires n <= |bases|
    ensures Register(sessions, bases) == Register(Register(sessions, bases[..n]), bases[n..])
  {
    var a, b := bases[..n], bases[n..];
    assert a + b == bases;
    RegisterConcat(sessions, a, b);
  }

  /** A prefix of a registration is the registration of a prefix of the base names. */
  lemma RegisterPrefix(sessions: seq<Session>, bases: seq<string>, n: nat)
    requires n <= |bases|
    ensures Register(sessions, bases)[..|sessions| + n] == Register(sessions, bases[..n])
  {
    RegisterSplit(sessions, bases, n);
    RegisterExtends(Register(sessions, bases[..n]), bases[n..]);
  }

  /** Registering one more base name appends one session named against all before it. */
  lemma RegisterSnoc(sessions: seq<Session>, bases: seq<string>, k: nat)
    requires k < |bases|
    ensures var q := Register(sessions, bases[..k]);
            Register(sessions, bases[..k + 1]) == q + [ApplicationSession(Deduplicated(Names(q), bases[k], 2))]
  {
    assert bases[..k + 1][..k] == bases[..k];
    assert bases[..k + 1][k] == bases[k];
  }

  /** The k-th registered session is named uniquely against everything registered before it. */
  lemma RegisterAt(sessions: seq<Session>, bases: seq<string>, k: nat)
    requires k < |bases|
    ensures var r := Register(sessions, bases);
            r[|sessions| + k] == ApplicationSession(Deduplicated(Names(r[..|sessions| + k]), bases[k], 2))
  {
    var r := Register(sessions, bases);
    var q := Register(sessions, bases[..k]);
    var x := ApplicationSession(Deduplicated(Names(q), bases[k], 2));
    RegisterPrefix(sessions, bases, k + 1);
    RegisterSnoc(sessions, bases, k);
    SplitLast(r, q, x, |sessions| + k);
  }

  /** A sequence whose first m + 1 elements are q + [x] has q in front and x at m. */
  lemma SplitLast<T>(r: seq<T>, q: seq<T>, x: T, m: nat)
    requires m < |r| && |q| == m && r[..m + 1] == q + [x]
    ensures r[..m] == q && r[m] == x
  {
    assert r[..m] == r[..m + 1][..m];
    assert r[m] == r[..m + 1][m];
  }

  /**
   * Register only appends: the old sessions keep their places, every new
   * session is an application session, its name is its base name followed
   * by the cumulative suffixes `(2)(3)...`, and it differs from every name
   * before it, endpoint names included.
   */
  lemma RegisterAppends(sessions: seq<Session>, bases: seq<string>, k: nat)
    requires k < |bases|
    ensures Register(sessions, bases)[..|sessions|] == sessions
    ensures var s := Register(sessions, bases)[|sessions| + k];
            && s.ApplicationSession?
            && s.name !in Names(Register(sessions, bases)[..|sessions| + k])
            && exists j: nat :: s.name == bases[k] + Suffixes(2, j)
  {
    var r := Register(sessions, bases);
    RegisterExtends(sessions, bases);
    RegisterAt(sessions, bases, k);
    DeduplicatedShape(Names(r[..|sessions| + k]), bases[k], 2);
  }

  /** A registered session's name differs from the name of every session before it. */
  lemma RegisterFresh(sessions: seq<Session>, bases: seq<string>, i: nat, j: nat)
    requires i < j && |sessions| <= j < |sessions| + |bases|
    ensures Register(sessions, bases)[i].name != Register(sessions, bases)[j].name
  {
    var r := Register(sessions, bases);
    RegisterAt(sessions, bases, j - |sessions|);
    assert r[i].name == Names(r[..j])[i];
  }

  /** Registering keeps the names unique. */
  lemma RegisterKeepsUnique(sessions: seq<Session>, bases: seq<string>)
    requires UniqueNames(Names(sessions))
    ensures UniqueNames(Names(Register(sessions, bases)))
  {
    var r := Register(sessions, bases);
    RegisterExtends(sessions, bases);
    forall i, j | 0 <= i < j < |r| ensures Names(r)[i] != Names(r)[j] {
      if j >= |sessions| {
        RegisterFresh(sessions, bases, i, j);
      } else {
        assert r[i] == sessions[i] && r[j] == sessions[j];
        assert Names(sessions)[i] != Names(sessions)[j];
      }
    }
  }

  /** Discovery keeps the old sessions in place and the names unique, whether or not it aborts. */
  lemma {:induction false} ScanDevicesExtendsUnique(sessions: seq<Session>, devices: seq<RenderDevice>)
    requires UniqueNames(Names(sessions))
    ensures var r := ScanDevices(sessions, devices).sessions;
            |sessions| <= |r| && r[..|sessions|] == sessions && UniqueNames(Names(r))
  {
    if devices != [] {
      var init := devices[..|devices| - 1];
      ScanDevicesExtendsUnique(sessions, init);
      var p := ScanDevices(sessions, init);
      if !p.aborted && devices[|devices| - 1].sessions.Some? {
        ScanSessionsExtendsUnique(p.sessions, devices[|devices| - 1].sessions.value);
        PrefixOfPrefix(ScanDevices(sessions, devices).sessions, p.sessions, sessions);
      }
    }
  }

  lemma {:induction false} ScanSessionsExtendsUnique(sessions: seq<Session>, probes: seq<SessionProbe>)
    requires UniqueNames(Names(sessions))
    ensures var r := ScanSessions(sessions, probes).sessions;
            |sessions| <= |r| && r[..|sessions|] == sessions && UniqueNames(Names(r))
  {
    if probes != [] {
      var init := probes[..|probes| - 1];
      ScanSessionsExtendsUnique(sessions, init);
      var p := ScanSessions(sessions, init);
      var v := Judge(probes[|probes| - 1]);
      if !p.aborted && v.Admitted? {
        var r := ScanSessions(sessions, probes).sessions;
        assert r == Register(p.sessions, [v.baseName]) by {
          RegisterOne(p.sessions, v.baseName);
        }
        RegisterKeepsUnique(p.sessions, [v.baseName]);
        RegisterExtends(p.sessions, [v.baseName]);
        PrefixOfPrefix(r, p.sessions, sessions);
      }
    }
  }

  lemma PrefixOfPrefix<T>(r: seq<T>, p: seq<T>, s: seq<T>)
    requires |p| <= |r| && r[..|p|] == p && |s| <= |p| && p[..|s|] == s
    ensures r[..|s|] == s
  {
    assert r[..|s|] == r[..|p|][..|s|];
  }

  /**
   * A session whose process resolves to `game`, as `C:\games\game.exe`
   * without a description does (`ProcessApi.GameExeExample`).
   */
  const GAME_PROBE := SessionProbe(true, true, Some(4242), Ok("game"), true)
  const GAME_DEVICE := RenderDevice(Some([GAME_PROBE]))

  /** Two render devices each with a session of `game.exe`: the names are `game`, then `game(2)`. */
  lemma TwoGamesScenario()
    ensures Names(Discovery([], AudioPlatform(Some(DeviceEnumerator(
              Some([GAME_DEVICE, GAME_DEVICE]), None, None)))).sessions)
            == ["game", "game(2)"]
  {
    var second := [ApplicationSession("game"), ApplicationSession("game(2)")];
    TwoGamesScan();
    assert Names(second) == ["game", "game(2)"];
  }

  lemma TwoGamesScan()
    ensures ScanDevices([], [GAME_DEVICE, GAME_DEVICE])
            == Progress([ApplicationSession("game"), ApplicationSession("game(2)")], false)
  {
    var d := GAME_DEVICE;
    FirstGame();
    SecondGame();
    ScanDevicesNext([], [d, d], 1);
    assert [d, d][..1] == [d] && [d, d][..2] == [d, d];
  }

  lemma FirstGame()
    ensures ScanDevices([], [GAME_DEVICE]) == Progress([ApplicationSession("game")], false)
  {
    var d, probe := GAME_DEVICE, GAME_PROBE;
    ScanDevicesNext([], [d], 0);
    assert [d][..0] == [] && [d][..1] == [d];
    ScanSessionsNext([], [probe], 0);
    assert [probe][..0] == [] && [probe][..1] == [probe];
  }

  lemma SecondGame()
    ensures ScanSessions([ApplicationSession("game")], [GAME_PROBE])
            == Progress([ApplicationSession("game"), ApplicationSession("game(2)")], false)
  {
    var first, probe := [ApplicationSession("game")], GAME_PROBE;
    ScanSessionsNext(first, [probe], 0);
    assert [probe][..0] == [] && [probe][..1] == [probe];
    assert Names(first) == ["game"];
    GameTwice();
  }

  /** A second `game` next to `game` becomes `game(2)`. */
  lemma GameTwice()
    ensures Deduplicated(["game"], "game", 2) == "game(2)"
  {
    assert Decimal(2) == "2";
    assert "game" + Suffix(2) == "game(2)";
    assert Deduplicated(["game"], "game(2)", 3) == "game(2)";
  }

  /** A process session named like an endpoint session is renamed; the endpoint name is never taken. */
  lemma ProcessSessionAvoidsEndpointName()
    ensures Deduplicated(Names([EndPointSession("master")]), "master", 2) == "master(2)"
  {
    assert Names([EndPointSession("master")]) == ["master"];
    assert Suffix(2) == "(2)";
    assert Deduplicated(["master"], "master(2)", 3) == "master(2)";
  }

  // ---------------------------------------------------------------------------
  // Specification of endpoint registration
  // ---------------------------------------------------------------------------

  /** Append the endpoint session `name` when its default device resolved. */
  function AddEndpoint(p: Progress, device: Option<AudioEndpoint>, name: string): (r: Progress)
    ensures r.aborted <==> p.aborted || (device.Some? && !device.value.volumeActivates)
    ensures p.sessions <= r.sessions && |r.sessions| <= |p.sessions| + 1
    ensures |r.sessions| > |p.sessions| <==> !p.aborted && device.Some? && device.value.volumeActivates
    ensures |r.sessions| > |p.sessions| ==> r.sessions[|p.sessions|] == EndPointSession(name)
  {
    if p.aborted || device.None? then p
    else if !device.value.volumeActivates then Progress(p.sessions, true)
    else Progress(p.sessions + [EndPointSession(name)], false)
  }

  /** GetDefaultAudioEnpointVolumeControl with a bound enumerator `e`: output first, then input. */
  function EndpointRegistration(sessions: seq<Session>, e: DeviceEnumerator): (r: Progress)
    ensures r.aborted <==> !EndpointsActivate(e)
    ensures sessions <= r.sessions && |r.sessions| <= |sessions| + 2
  {
    AddEndpoint(AddEndpoint(Progress(sessions, false), e.defaultRender, "master"), e.defaultCapture, "mic")
  }

  /** Whether every resolved default device can activate its endpoint volume. */
  predicate EndpointsActivate(e: DeviceEnumerator)
  {
    (e.defaultRender.Some? ==> e.defaultRender.value.volumeActivates)
    && (e.defaultCapture.Some? ==> e.defaultCapture.value.volumeActivates)
  }

  /**
   * `master` is appended iff the render device resolved, then `mic` iff the
   * capture device resolved, each independent of the other, without renaming.
   */
  lemma EndpointRegistrationAppends(sessions: seq<Session>, e: DeviceEnumerator)
    requires EndpointsActivate(e)
    ensures EndpointRegistration(sessions, e) == Progress(
              sessions
              + (if e.defaultRender.Some? then [EndPointSession("master")] else [])
              + (if e.defaultCapture.Some? then [EndPointSession("mic")] else []), false)
  {
    if e.defaultRender.None? {
      assert sessions + [] == sessions;
    }
    if e.defaultCapture.None? {
      var m := sessions + (if e.defaultRender.Some? then [EndPointSession("master")] else []);
      assert m + [] == m;
    }
  }

  /**
   * The endpoint names bypass deduplication: a second registration with
   * both default devices present appends another `master`/`mic` pair and
   * the names are no longer unique.
   */
  lemma EndpointRegistrationRepeats(sessions: seq<Session>, e: DeviceEnumerator)
    requires e.defaultRender == Some(AudioEndpoint(true)) && e.defaultCapture == Some(AudioEndpoint(true))
    ensures var twice := EndpointRegistration(EndpointRegistration(sessions, e).sessions, e);
            twice == Progress(sessions + [EndPointSession("master"), EndPointSession("mic"),
                                          EndPointSession("master"), EndPointSession("mic")], false)
            && !UniqueNames(Names(twice.sessions))
  {
    var once := sessions + [EndPointSession("master"), EndPointSession("mic")];
    EndpointRegistrationAppends(sessions, e);
    EndpointRegistrationAppends(once, e);
    var twice := once + [EndPointSession("master"), EndPointSession("mic")];
    assert twice == sessions + [EndPointSession("master"), EndPointSession("mic"),
                                EndPointSession("master"), EndPointSession("mic")];
    assert Names(twice)[|sessions|] == Names(twice)[|sessions| + 2];
  }

  /**
   * A process session is only renamed against the sessions already listed:
   * one named `master` that is discovered before the endpoints are
   * registered keeps its name, and the `master` endpoint appended after it
   * duplicates that name.
   */
  lemma EndpointAfterProcessDuplicates(sessions: seq<Session>, e: DeviceEnumerator)
    requires "master" !in Names(sessions)
    requires e.defaultRender == Some(AudioEndpoint(true)) && e.defaultCapture.None?
    ensures var r := EndpointRegistration(Register(sessions, ["master"]), e);
            r == Progress(sessions + [ApplicationSession("master"), EndPointSession("master")], false)
            && !UniqueNames(Names(r.sessions))
  {
    RegisterOne(sessions, "master");
    var discovered := sessions + [ApplicationSession("master")];
    EndpointRegistrationAppends(discovered, e);
    var r := discovered + [EndPointSession("master")];
    assert r == sessions + [ApplicationSession("master"), EndPointSession("master")];
    assert Names(r)[|sessions|] == Names(r)[|sessions| + 1];
  }

  // ---------------------------------------------------------------------------
  // The controller
  // ---------------------------------------------------------------------------

  class AudioController {
    /** The audio subsystem the COM connection reaches. */
    const platform: AudioPlatform
    var defaultDevice: Option<AudioEndpoint>
    var defaultInputDevice: Option<AudioEndpoint>
    var deviceEnumerator: Option<DeviceEnumerator>
    var sessions: seq<Session>

    /** init: no enumerator, no default devices, no sessions. */
    constructor Init(platform: AudioPlatform)
      ensures this.platform == platform
      ensures defaultDevice.None? && defaultInputDevice.None? && deviceEnumerator.None?
      ensures sessions == []
    {
      this.platform := platform;
      defaultDevice := None;
      defaultInputDevice := None;
      deviceEnumerator := None;
      sessions := [];
    }

    /** GetSessions: bind a fresh device enumerator, or abort when none can be created. */
    method GetSessions() returns (outcome: Outcome)
      modifies this
      ensures outcome == Aborted <==> platform.enumerator.None?
      ensures deviceEnumerator == if outcome == Aborted then old(deviceEnumerator) else platform.enumerator
      ensures sessions == old(sessions)
      ensures defaultDevice == old(defaultDevice) && defaultInputDevice == old(defaultInputDevice)
    {
      if platform.enumerator.None? {
        return Aborted;
      }
      deviceEnumerator := platform.enumerator;
      outcome := Completed;
    }

    /** `iter().any(|i| i.getName() == name)` over the sessions. */
    method AnySessionNamed(name: string) returns (found: bool)
      ensures found <==> name in Names(sessions)
    {
      found := false;
      var i := 0;
      while i < |sessions| && !found
        invariant 0 <= i <= |sessions|
        invariant found <==> exists k :: 0 <= k < i && sessions[k].name == name
      {
        found := sessions[i].name == name;
        i := i + 1;
      }
      if found {
        var k :| 0 <= k < i && sessions[k].name == name;
        assert Names(sessions)[k] == name;
      } else {
        assert forall k :: 0 <= k < |sessions| ==> Names(sessions)[k] != name;
      }
    }

    /**
     * The renaming loop of GetAllProcessSessions: while some session has the
     * candidate name, append `(counter)` to the candidate and count up from 2.
     */
    method UniqueName(base: string) returns (name: string)
      ensures name == Deduplicated(Names(sessions), base, 2)
      ensures name !in Names(sessions)
      ensures base !in Names(sessions) ==> name == base
      ensures exists k: nat :: k <= |sessions| && name == base + Suffixes(2, k)
    {
      ghost var names := Names(sessions);
      name := base;
      var counter: nat := 2;
      var taken := AnySessionNamed(name);
      while taken
        invariant counter >= 2
        invariant taken <==> name in names
        invariant Deduplicated(names, name, counter) == Deduplicated(names, base, 2)
        decreases CountAtLeast(names, |name|)
      {
        CountAtLeastShrinks(names, name, name + Suffix(counter));
        name := name + Suffix(counter);
        counter := counter + 1;
        taken := AnySessionNamed(name);
      }
      DeduplicationPassesBounded(names, base);
    }

    /**
     * GetAllProcessSessions: scan every session of every active render
     * device and append the ones that pass every check under a unique name.
     */
    method GetAllProcessSessions() returns (outcome: Outcome)
      modifies this
      ensures sessions == Discovery(old(sessions), platform).sessions
      ensures outcome == Aborted <==> Discovery(old(sessions), platform).aborted
      ensures deviceEnumerator == old(deviceEnumerator)
      ensures defaultDevice == old(defaultDevice) && defaultInputDevice == old(defaultInputDevice)
    {
      if platform.enumerator.None? || platform.enumerator.value.activeRender.None? {
        return Aborted;
      }
      var devices := platform.enumerator.value.activeRender.value;
      ghost var start := sessions;
      for d := 0 to |devices|
        invariant ScanDevices(start, devices[..d]) == Progress(sessions, false)
        invariant deviceEnumerator == old(deviceEnumerator)
        invariant defaultDevice == old(defaultDevice) && defaultInputDevice == old(defaultInputDevice)
      {
        ScanDevicesNext(start, devices, d);
        if devices[d].sessions.None? {
          ScanDevicesStopsAt(start, devices, d + 1);
          return Aborted;
        }
        var probes := devices[d].sessions.value;
        ghost var before := sessions;
        for i := 0 to |probes|
          invariant ScanSessions(before, probes[..i]) == Progress(sessions, false)
          invariant deviceEnumerator == old(deviceEnumerator)
          invariant defaultDevice == old(defaultDevice) && defaultInputDevice == old(defaultInputDevice)
        {
          ScanSessionsNext(before, probes, i);
          var probe := probes[i];
          if !probe.controlFetched {
            continue;
          }
          if !probe.control2Cast {
            continue;
          }
          if probe.pid.None? {
            ScanSessionsStopsAt(before, probes, i + 1);
            assert ScanDevices(start, devices[..d + 1]) == ScanSessions(before, probes);
            ScanDevicesStopsAt(start, devices, d + 1);
            return Aborted;
          }
          var pid := probe.pid.value;
          if pid == 0 {
            continue;
          }
          var sessionAppName;
          match probe.processInfo {
            case Err => continue;
            case Ok(info) => sessionAppName := info;
          }
          if !probe.volumeCast {
            continue;
          }
          var name := UniqueName(sessionAppName);
          sessions := sessions + [ApplicationSession(name)];
        }
        assert probes[..|probes|] == probes;
      }
      assert devices[..|devices|] == devices;
      outcome := Completed;
    }

    /**
     * GetDefaultAudioEnpointVolumeControl: a no-op without a bound enumerator;
     * otherwise resolve both default devices and append `master` and `mic`
     * for those that resolved.
     */
    method GetDefaultAudioEnpointVolumeControl() returns (outcome: Outcome)
      modifies this
      ensures deviceEnumerator == old(deviceEnumerator)
      ensures old(deviceEnumerator).None? ==>
                outcome == Completed && sessions == old(sessions)
                && defaultDevice == old(defaultDevice) && defaultInputDevice == old(defaultInputDevice)
      ensures old(deviceEnumerator).Some? ==>
                var e := old(deviceEnumerator).value;
                && defaultDevice == e.defaultRender && defaultInputDevice == e.defaultCapture
                && sessions == EndpointRegistration(old(sessions), e).sessions
                && (outcome == Aborted <==> EndpointRegistration(old(sessions), e).aborted)
    {
      if deviceEnumerator.None? {
        return Completed;
      }
      defaultDevice := deviceEnumerator.value.defaultRender;
      defaultInputDevice := deviceEnumerator.value.defaultCapture;
      if defaultDevice.Some? {
        if !defaultDevice.value.volumeActivates {
          return Aborted;
        }
        sessions := sessions + [EndPointSession("master")];
      }
      if defaultInputDevice.Some? {
        if !defaultInputDevice.value.volumeActivates {
          return Aborted;
        }
        sessions := sessions + [EndPointSession("mic")];
      }
      outcome := Completed;
    }

    /** get_all_session_names: the names of the sessions, in list order. */
    method GetAllSessionNames() returns (names: seq<string>)
      ensures |names| == |sessions|
      ensures forall i :: 0 <= i < |names| ==> names[i] == sessions[i].name
    {
      names := [];
      for i := 0 to |sessions|
        invariant |names| == i
        invariant forall k :: 0 <= k < i ==> names[k] == sessions[k].name
      {
        names := names + [sessions[i].name];
      }
    }

    /** get_session_by_name: the first session with exactly this name, if any. */
    method GetSessionByName(name: string) returns (r: Option<Session>)
      ensures r.None? <==> name !in Names(sessions)
      ensures r.Some? ==> exists i :: 0 <= i < |sessions| && sessions[i] == r.value && r.value.name == name
                                      && forall k :: 0 <= k < i ==> sessions[k].name != name
    {
      var i := 0;
      while i < |sessions| && sessions[i].name != name
        invariant 0 <= i <= |sessions|
        invariant forall k :: 0 <= k < i ==> sessions[k].name != name
      {
        i := i + 1;
      }
      if i == |sessions| {
        r := None;
        assert forall k :: 0 <= k < |sessions| ==> Names(sessions)[k] != name;
      } else {
        r := Some(sessions[i]);
        assert Names(sessions)[i] == name;
      }
    }
  }
}
