/** handler.go of the root package: the controller reacting to container
    "start" and "die" events. */
module Handler {
  import opened Wrappers
  import opened Text
  import opened Os
  import opened Runtime
  import Pem
  import Certificates
  import Service
  import Tunnels

  const HeraHostname := "hera.hostname"
  const HeraPort := "hera.port"

  /** The outside world as the handler sees it: container inspection, DNS,
      the public-suffix parser, the certificate directory and the commands. */
  datatype Env = Env(inspect: string -> Result<Container>, lookup: Lookup, parse: UrlParser,
                     certs: Pem.Listing, sh: Shell)

  /** The host and the package-level tunnel registry. */
  datatype World = World(host: Host, registry: Tunnels.Registry)

  /** The world after handling, the error the handler returns (and the
      caller logs), the outside queries made, in order, and the tunnel the
      event started or stopped, if any. */
  datatype Handled = Handled(world: World, out: Outcome, trace: seq<Probe>, affected: Option<Tunnels.Tunnel>)

  /** `getLabel`: the label's value, or "" when the label is absent. */
  function GetLabel(c: Container, name: string): (v: string)
    ensures name in c.labels ==> v == c.labels[name]
    ensures name !in c.labels ==> v == ""
    ensures v == "" <==> name !in c.labels || c.labels[name] == ""
  {
    if name in c.labels then c.labels[name] else ""
  }

  /** The first twelve characters of a container ID, as log messages show it. */
  function ShortId(id: string): (s: string)
    ensures HasPrefix(id, s) && |s| == if |id| < 12 then |id| else 12
  {
    if |id| < 12 then id else id[..12]
  }

  /** `resolveHostname`: the container's own hostname, with at most five lookups. */
  function ResolveHostname(lookup: Lookup, c: Container): (r: Resolution)
    ensures 1 <= r.attempts <= MaxAttempts
    ensures r.address.Ok? <==> exists k :: 0 <= k < MaxAttempts && lookup(k, c.hostname).Ok?
    ensures r.address.Ok? ==>
      lookup(r.attempts - 1, c.hostname).Ok? && r.address.value == lookup(r.attempts - 1, c.hostname).value[0]
    ensures forall k :: 0 <= k < r.attempts - 1 ==> lookup(k, c.hostname).Err?
    ensures r.address.Err? ==> r.attempts == MaxAttempts && r.address.error == "Unable to connect to " + ShortId(c.id)
  {
    Resolve(lookup, c.hostname, "Unable to connect to " + ShortId(c.id))
  }

  /** `getRootHostname`: parses "https://" + hostname and joins the parsed
      domain and TLD; a parse error is wrapped. */
  function GetRootHostname(hostname: string, parse: UrlParser): (r: Result<string>)
    ensures parse("https://" + hostname).Err? <==> r.Err?
    ensures r.Err? ==>
      r.error == "Unable to parse hostname " + "https://" + hostname + ": " + parse("https://" + hostname).error
    ensures r.Ok? ==> r.value == parse("https://" + hostname).value.domain + "." + parse("https://" + hostname).value.tld
  {
    var url := "https://" + hostname;
    match parse(url)
    case Err(e) => Err("Unable to parse hostname " + url + ": " + e)
    case Ok(u) => Ok(u.domain + "." + u.tld)
  }

  /** A certificate lookup's answer and the queries it made. */
  datatype Found = Found(cert: Result<Certificates.Certificate>, trace: seq<Probe>)

  /** `getCertificate`: searches the certificate directory for the root
      hostname; a root-parse error is returned without reading the directory. */
  function GetCertificate(hostname: string, env: Env): (r: Found)
    ensures GetRootHostname(hostname, env.parse).Err? ==>
      r.cert == Err(GetRootHostname(hostname, env.parse).error) && r.trace == [ParseUrl("https://" + hostname)]
    ensures GetRootHostname(hostname, env.parse).Ok? ==>
      && r.trace == [ParseUrl("https://" + hostname), ReadCerts]
      && r.cert == Certificates.FindCertificateForHost(GetRootHostname(hostname, env.parse).value, env.certs)
  {
    match GetRootHostname(hostname, env.parse)
    case Err(e) => Found(Err(e), [ParseUrl("https://" + hostname)])
    case Ok(root) =>
      Found(Certificates.FindCertificateForHost(root, env.certs), [ParseUrl("https://" + hostname), ReadCerts])
  }

  /** The key `handleStartEvent` registers a tunnel under: as written the
      tunnel's `Config.ID` is never set, so it is always ""; corrected, it is
      the hostname label, the key `handleDieEvent` looks the tunnel up by. */
  function KeyFor(hostname: string, corrected: bool): (k: string)
    ensures corrected ==> k == hostname
    ensures !corrected ==> k == ""
  {
    if corrected then hostname else ""
  }

  /** The body of `handleStartEvent`, registering the tunnel under `KeyFor`. */
  function StartFor(w: World, env: Env, id: string, corrected: bool): (r: Handled)
    ensures |r.trace| > 0 && r.trace[0] == Inspect(id)
    ensures env.inspect(id).Err? ==> r == Handled(w, Fail(env.inspect(id).error), [Inspect(id)], None)
    ensures (env.inspect(id).Ok? &&
      (GetLabel(env.inspect(id).value, HeraHostname) == "" || GetLabel(env.inspect(id).value, HeraPort) == "")) ==>
        r == Handled(w, Pass, [Inspect(id)], None)
    ensures (env.inspect(id).Ok? && GetLabel(env.inspect(id).value, HeraHostname) != "" &&
      GetLabel(env.inspect(id).value, HeraPort) != "") ==>
        var c := env.inspect(id).value;
        var res := ResolveHostname(env.lookup, c);
        var found := GetCertificate(GetLabel(c, HeraHostname), env);
        && (res.address.Err? ==>
              r.out == Fail(res.address.error) && r.trace == [Inspect(id)] + Lookups(c.hostname, res.attempts))
        && (res.address.Ok? ==>
              && r.trace == [Inspect(id)] + Lookups(c.hostname, res.attempts) + found.trace
              && (r.out.Pass? <==> found.cert.Ok?))
        && (res.address.Ok? && found.cert.Err? ==> r.out == Fail(found.cert.error))
        && (res.address.Ok? && found.cert.Ok? ==>
              var t := Tunnels.NewTunnel(Tunnels.Config(KeyFor(GetLabel(c, HeraHostname), corrected), res.address.value,
                                                        GetLabel(c, HeraHostname), GetLabel(c, HeraPort)), found.cert.value);
              var st := Tunnels.Start(w.host, w.registry, env.sh, t);
              && r.world == World(st.host, st.registry)
              && (r.affected.Some? <==> st.out.Pass?)
              && (r.affected.Some? ==> r.affected.value == t))
    ensures r.out.Fail? ==> r.world == w && r.affected.None?
    ensures r.affected.None? ==> r.world.registry == w.registry
    ensures r.affected.Some? ==>
      var c := env.inspect(id).value;
      var t := r.affected.value;
      && env.inspect(id).Ok?
      && r.out.Pass?
      && ResolveHostname(env.lookup, c).address.Ok?
      && t.config == Tunnels.Config(KeyFor(GetLabel(c, HeraHostname), corrected),
                                    ResolveHostname(env.lookup, c).address.value,
                                    GetLabel(c, HeraHostname), GetLabel(c, HeraPort))
      && r.world.registry == w.registry[t.config.id := Some(t)]
      && Holds(r.world.host.fs, Service.ConfigFilePath(t.service), Tunnels.ConfigContents(t))
      && Holds(r.world.host.fs, Service.RunFilePath(t.service), Tunnels.RunContents(t))
  {
    match env.inspect(id)
    case Err(e) => Handled(w, Fail(e), [Inspect(id)], None)
    case Ok(c) =>
      var hostname := GetLabel(c, HeraHostname);
      var port := GetLabel(c, HeraPort);
      if hostname == "" || port == "" then Handled(w, Pass, [Inspect(id)], None)
      else
        var res := ResolveHostname(env.lookup, c);
        var t1 := [Inspect(id)] + Lookups(c.hostname, res.attempts);
        match res.address
        case Err(e) => Handled(w, Fail(e), t1, None)
        case Ok(ip) =>
          var found := GetCertificate(hostname, env);
          var t2 := t1 + found.trace;
          match found.cert
          case Err(e) => Handled(w, Fail(e), t2, None)
          case Ok(cert) =>
            Launch(w, env.sh, Tunnels.NewTunnel(Tunnels.Config(KeyFor(hostname, corrected), ip, hostname, port), cert), t2)
  }

  /** Starts `t` and reports success whatever the start's outcome: a failed
      start is only logged, and no tunnel is returned for it. */
  function Launch(w: World, sh: Shell, t: Tunnels.Tunnel, trace: seq<Probe>): (r: Handled)
    ensures r.out == Pass && r.trace == trace
    ensures var st := Tunnels.Start(w.host, w.registry, sh, t);
      && r.world == World(st.host, st.registry)
      && (r.affected.Some? <==> st.out.Pass?)
    ensures r.affected.Some? ==>
      && r.affected.value == t
      && r.world.registry == w.registry[t.config.id := Some(t)]
      && Holds(r.world.host.fs, Service.ConfigFilePath(t.service), Tunnels.ConfigContents(t))
      && Holds(r.world.host.fs, Service.RunFilePath(t.service), Tunnels.RunContents(t))
    ensures r.affected.None? ==> r.world.registry == w.registry
  {
    var st := Tunnels.Start(w.host, w.registry, sh, t);
    Handled(World(st.host, st.registry), Pass, trace, if st.out.Pass? then Some(t) else None)
  }

  /** `handleStartEvent` as written: the tunnel is registered under "". */
  function HandleStartEventAsWritten(w: World, env: Env, id: string): (r: Handled)
    ensures r.world.registry.Keys <= w.registry.Keys + {""}
    ensures r.affected.Some? ==> r.world.registry == w.registry["" := r.affected]
  {
    StartFor(w, env, id, false)
  }

  /** `handleStartEvent` with the tunnel registered under its hostname. */
  function HandleStartEvent(w: World, env: Env, id: string): (r: Handled)
    ensures r.affected.Some? ==>
      env.inspect(id).Ok? &&
      var hostname := GetLabel(env.inspect(id).value, HeraHostname);
      && hostname != ""
      && r.world.registry == w.registry[hostname := r.affected]
      && r.affected.value.config.hostname == hostname
    ensures r.affected.None? ==> r.world.registry == w.registry
  {
    StartFor(w, env, id, true)
  }

  /** The tunnel registered under `hostname`, as `GetTunnelForHost` is
      called: a missing or stopped entry is an error. */
  function GetTunnelForHost(reg: Tunnels.Registry, hostname: string): (r: Result<Tunnels.Tunnel>)
    ensures r.Ok? <==> hostname in reg && reg[hostname].Some?
    ensures r.Ok? ==> reg[hostname] == Some(r.value)
    ensures r.Err? ==> r.error == "No tunnel exists for " + hostname
  {
    if hostname in reg && reg[hostname].Some? then Ok(reg[hostname].value)
    else Err("No tunnel exists for " + hostname)
  }

  /** `handleDieEvent`: stops the tunnel found for the container's hostname. */
  function HandleDieEvent(w: World, env: Env, id: string): (r: Handled)
    ensures r.trace == [Inspect(id)]
    ensures r.world.host.fs == w.host.fs
    ensures env.inspect(id).Err? ==> r == Handled(w, Fail(env.inspect(id).error), [Inspect(id)], None)
    ensures env.inspect(id).Ok? && GetLabel(env.inspect(id).value, HeraHostname) == "" ==>
      r == Handled(w, Pass, [Inspect(id)], None)
    ensures (env.inspect(id).Ok? && GetLabel(env.inspect(id).value, HeraHostname) != "" &&
      GetTunnelForHost(w.registry, GetLabel(env.inspect(id).value, HeraHostname)).Err?) ==>
        r.out == Fail("No tunnel exists for " + GetLabel(env.inspect(id).value, HeraHostname)) && r.world == w
    ensures (env.inspect(id).Ok? && GetLabel(env.inspect(id).value, HeraHostname) != "" &&
      GetTunnelForHost(w.registry, GetLabel(env.inspect(id).value, HeraHostname)).Ok?) ==>
      var t := GetTunnelForHost(w.registry, GetLabel(env.inspect(id).value, HeraHostname)).value;
      && r.world.host.log == w.host.log + [Service.DownCmd(t.service)]
      && (r.out.Pass? <==> env.sh(w.host.log, Service.DownCmd(t.service)).Ok?)
      && (r.out.Fail? ==> r.out == Fail(env.sh(w.host.log, Service.DownCmd(t.service)).error))
      && (r.out.Pass? ==> r.affected == Some(t) && r.world.registry == w.registry[t.config.id := None])
      && (r.out.Fail? ==> r.affected.None? && r.world.registry == w.registry)
    ensures r.world.host.log == w.host.log ==> r.world == w && r.affected.None?
  {
    match env.inspect(id)
    case Err(e) => Handled(w, Fail(e), [Inspect(id)], None)
    case Ok(c) =>
      var hostname := GetLabel(c, HeraHostname);
      if hostname == "" then Handled(w, Pass, [Inspect(id)], None)
      else
        match GetTunnelForHost(w.registry, hostname)
        case Err(e) => Handled(w, Fail(e), [Inspect(id)], None)
        case Ok(t) =>
          var st := Tunnels.Stop(w.host, w.registry, env.sh, t);
          Handled(World(st.host, st.registry), st.out, [Inspect(id)], if st.out.Pass? then Some(t) else None)
  }

  /** `HandleEvent`: "start" and "die" are handled, every other status is
      ignored; the handler's error is only logged. With `corrected` false
      this is the handler as written; with it true, a started tunnel is
      registered under its hostname, the correction of the finding below. */
  function HandleEvent(w: World, env: Env, e: Event, corrected: bool): (r: Handled)
    ensures e.status == "start" && !corrected ==> r == HandleStartEventAsWritten(w, env, e.id)
    ensures e.status == "start" && corrected ==> r == HandleStartEvent(w, env, e.id)
    ensures e.status == "die" ==> r == HandleDieEvent(w, env, e.id)
    ensures e.status != "start" && e.status != "die" ==> r == Handled(w, Pass, [], None)
  {
    if e.status == "start" then StartFor(w, env, e.id, corrected)
    else if e.status == "die" then HandleDieEvent(w, env, e.id)
    else Handled(w, Pass, [], None)
  }

  /** `HandleContainer`: an already-running container is handled as a start event. */
  function HandleContainer(w: World, env: Env, id: string, corrected: bool): (r: Handled)
    ensures r == HandleEvent(w, env, Event("start", id), corrected)
  {
    StartFor(w, env, id, corrected)
  }

  /** As written, a die event never finds the tunnel the matching start
      event launched: it was registered under "", not under its hostname, so
      the tunnel keeps running and `handleDieEvent` reports an error. */
  lemma {:induction false} AsWrittenDieMissesTunnel(w: World, env: Env, id: string)
    requires HandleStartEventAsWritten(w, env, id).affected.Some?
    requires env.inspect(id).Ok? && GetTunnelForHost(w.registry, GetLabel(env.inspect(id).value, HeraHostname)).Err?
    ensures var r1 := HandleStartEventAsWritten(w, env, id);
      var r2 := HandleDieEvent(r1.world, env, id);
      r2.out.Fail? && r2.world == r1.world && r2.affected.None?
  {
  }

  /** With the tunnel registered under its hostname, the die event of the
      same container stops exactly the tunnel its start event launched and
      marks its registry entry stopped. */
  lemma {:induction false} StartThenDieStops(w: World, env: Env, id: string)
    requires HandleStartEvent(w, env, id).affected.Some?
    ensures var r1 := HandleStartEvent(w, env, id);
      var t := r1.affected.value;
      var r2 := HandleDieEvent(r1.world, env, id);
      && r2.world.host.log == r1.world.host.log + [Service.DownCmd(t.service)]
      && (r2.out.Pass? <==> env.sh(r1.world.host.log, Service.DownCmd(t.service)).Ok?)
      && (r2.out.Pass? ==> r2.affected == r1.affected && r2.world.registry == w.registry[t.config.hostname := None])
  {
    var r1 := HandleStartEvent(w, env, id);
    StartRegistersFindable(w, env, id);
    DieStopsFound(r1.world, w.registry, env, id, r1.affected.value);
  }

  /** A die event whose hostname label names a tunnel just registered on top
      of `before` stops it, leaving `before` with the entry marked stopped. */
  lemma DieStopsFound(w: World, before: Tunnels.Registry, env: Env, id: string, t: Tunnels.Tunnel)
    requires env.inspect(id).Ok?
    requires var hostname := GetLabel(env.inspect(id).value, HeraHostname);
      && hostname != "" && t.config.id == hostname && t.config.hostname == hostname
      && w.registry == before[hostname := Some(t)]
    ensures var r := HandleDieEvent(w, env, id);
      && r.world.host.log == w.host.log + [Service.DownCmd(t.service)]
      && (r.out.Pass? <==> env.sh(w.host.log, Service.DownCmd(t.service)).Ok?)
      && (r.out.Fail? ==> r.out == Fail(env.sh(w.host.log, Service.DownCmd(t.service)).error))
      && (r.out.Pass? ==> r.affected == Some(t) && r.world.registry == before[t.config.hostname := None])
  {
    var hostname := t.config.id;
    assert GetTunnelForHost(w.registry, hostname) == Ok(t);
    assert before[hostname := Some(t)][hostname := None] == before[hostname := None];
  }

  /** The tunnel a corrected start event registers is the one
      `GetTunnelForHost` returns for the container's hostname label. */
  lemma StartRegistersFindable(w: World, env: Env, id: string)
    requires HandleStartEvent(w, env, id).affected.Some?
    ensures env.inspect(id).Ok?
    ensures var r1 := HandleStartEvent(w, env, id);
      var t := r1.affected.value;
      var hostname := GetLabel(env.inspect(id).value, HeraHostname);
      && hostname != "" && t.config.id == hostname && t.config.hostname == hostname
      && r1.world.registry == w.registry[hostname := Some(t)]
  {
  }

  /** The scenario of the finding: inspecting `id` shows one container
      with a full 64-character ID, labelled for `site.tld` on port 80,
      whose hostname `web` resolves at once; `site.tld` is its own root
      hostname, the certificate directory holds `site.tld.pem`, and every
      command succeeds. */
  const SiteContainer := Container("c0ffee0123456789abcdef0123456789abcdef0123456789abcdef0123456789", "web", map[HeraHostname := "site.tld", HeraPort := "80"])

  ghost predicate Site(env: Env, id: string) {
    && env.inspect(id) == Ok(SiteContainer)
    && env.lookup(0, "web").Ok?
    && env.parse("https://site.tld") == Ok(Url("site", "tld"))
    && env.certs == Ok(["site.tld.pem"])
    && forall log, c :: env.sh(log, c).Ok?
  }

  /** An environment that answers as the scenario says. */
  function SiteEnv(): (env: Env)
    ensures forall id :: Site(env, id)
  {
    Env(_ => Ok(SiteContainer), (_, _) => Ok(["10.0.0.2"]), _ => Ok(Url("site", "tld")),
        Ok(["site.tld.pem"]), (_, _) => Ok(""))
  }

  /** A fresh world: the filesystem holds only the s6 services root, every
      path can be read and written, and no tunnel is registered. */
  predicate Fresh(w: World) {
    && w.host.fs.nodes.Keys == {Service.ServicesPath} && IsDir(w.host.fs, Service.ServicesPath)
    && w.host.fs.unreadable == {} && w.host.fs.unwritable == {}
    && w.registry == map[]
  }

  /** A fresh world, with no command issued yet. */
  function FreshWorld(): (w: World)
    ensures Fresh(w)
  {
    World(Host(Fs(map[Service.ServicesPath := Dir], {}, {}), []), map[])
  }

  /** On a fresh host with commands that succeed, any tunnel whose hostname
      is one path element starts: the service directory and both files are
      created, and the service, not yet supervised, is handed to s6. */
  lemma StartsOnFreshHost(w: World, t: Tunnels.Tunnel, sh: Shell)
    requires Fresh(w)
    requires '/' !in t.service.hostname
    requires forall log, c :: sh(log, c).Ok?
    ensures Tunnels.Start(w.host, w.registry, sh, t).out.Pass?
  {
    var s := t.service;
    Tunnels.StartOutcome(w.host, w.registry, sh, t);
    ParentOfJoin(Service.ServicesPath, s.hostname);
    assert |Service.ServicePath(s)| > |Service.ServicesPath|;
    assert |Service.ConfigFilePath(s)| > |Service.ServicesPath|;
    assert |Service.RunFilePath(s)| > |Service.ServicesPath|;
    assert |Service.SupervisePath(s)| > |Service.ServicesPath|;
    assert Tunnels.Prepares(w.host.fs, s);
    assert Service.IsSupervised(w.host.fs, s) == Ok(false);
  }

  /** `site.tld` is a single path element. */
  lemma SiteIsOneElement()
    ensures '/' !in "site.tld"
  {
    var h := "site.tld";
    assert forall i | 0 <= i < |h| :: h[i] != '/';
  }

  /** In the scenario, the container's labels are read and its hostname
      resolves on the first lookup. */
  lemma SiteLabelsResolve(env: Env, id: string)
    requires Site(env, id)
    ensures GetLabel(SiteContainer, HeraHostname) == "site.tld" && GetLabel(SiteContainer, HeraPort) == "80"
    ensures ResolveHostname(env.lookup, SiteContainer).address.Ok?
    ensures |SiteContainer.id| == 64 && ShortId(SiteContainer.id) == SiteContainer.id[..12]
  {
    assert HeraHostname != HeraPort by { assert HeraHostname[5] != HeraPort[5]; }
    var c := SiteContainer;
    ResolveFirstTry(env.lookup, c.hostname, "Unable to connect to " + ShortId(c.id));
  }

  /** In the scenario, `site.tld` is its own root hostname and the
      certificate `site.tld.pem` is found for it. */
  lemma SiteCertificate(env: Env, id: string)
    requires Site(env, id)
    ensures GetCertificate("site.tld", env).cert.Ok?
  {
    assert "https://" + "site.tld" == "https://site.tld";
    assert "site" + "." + "tld" == "site.tld";
    assert GetRootHostname("site.tld", env.parse) == Ok("site.tld");
    assert !Contains("site.tld", Pem.Extension) by { MissingChar("site.tld", Pem.Extension, 'm'); }
    assert "site.tld" + Pem.Extension == "site.tld.pem";
    Certificates.FindsOwnFile("site.tld", ["site.tld.pem"]);
  }

  /** In the scenario, the start event launches a tunnel, whichever key it
      is registered under. */
  lemma SiteStarts(w: World, env: Env, id: string, corrected: bool)
    requires Fresh(w) && Site(env, id)
    ensures StartFor(w, env, id, corrected).affected.Some?
  {
    var c := SiteContainer;
    SiteLabelsResolve(env, id);
    SiteCertificate(env, id);
    var ip := ResolveHostname(env.lookup, c).address.value;
    var cert := GetCertificate("site.tld", env).cert.value;
    var t := Tunnels.NewTunnel(Tunnels.Config(KeyFor("site.tld", corrected), ip, "site.tld", "80"), cert);
    assert t.service.hostname == "site.tld";
    SiteIsOneElement();
    assert forall log, cmd :: env.sh(log, cmd).Ok?;
    StartsOnFreshHost(w, t, env.sh);
    LaunchesWith(w, env, id, corrected, "site.tld", "80", ip, cert);
  }

  /** Once the labels, the address and the certificate are in hand, the
      start event launches a tunnel whenever `Tunnels.Start` passes. */
  lemma LaunchesWith(w: World, env: Env, id: string, corrected: bool,
                     hostname: string, port: string, ip: string, cert: Certificates.Certificate)
    requires env.inspect(id).Ok?
    requires GetLabel(env.inspect(id).value, HeraHostname) == hostname != ""
    requires GetLabel(env.inspect(id).value, HeraPort) == port != ""
    requires ResolveHostname(env.lookup, env.inspect(id).value).address == Ok(ip)
    requires GetCertificate(hostname, env).cert == Ok(cert)
    requires Tunnels.Start(w.host, w.registry, env.sh,
      Tunnels.NewTunnel(Tunnels.Config(KeyFor(hostname, corrected), ip, hostname, port), cert)).out.Pass?
    ensures StartFor(w, env, id, corrected).affected.Some?
  {
  }

  /** The finding on the scenario, as written: the tunnel is registered
      under "", and the container's die event reports "No tunnel exists for
      site.tld" and issues no command. */
  lemma SiteDieAsWritten(w: World, env: Env, id: string)
    requires Fresh(w) && Site(env, id)
    ensures var r1 := HandleStartEventAsWritten(w, env, id);
      var r2 := HandleDieEvent(r1.world, env, id);
      && r1.affected.Some? && r1.world.registry.Keys == {""}
      && r2.out == Fail("No tunnel exists for " + "site.tld") && r2.world == r1.world
  {
    SiteStarts(w, env, id, false);
    SiteLabelsResolve(env, id);
    var r1 := HandleStartEventAsWritten(w, env, id);
    assert r1.world.registry == map["" := r1.affected];
    EmptyKeyMisses(r1.world.registry, r1.affected, "site.tld");
    var r2 := HandleDieEvent(r1.world, env, id);
    assert r2.out == Fail("No tunnel exists for " + "site.tld");
    assert r2.world == r1.world;
  }

  /** A registry holding only the empty key has no tunnel for a named host. */
  lemma EmptyKeyMisses(reg: Tunnels.Registry, v: Option<Tunnels.Tunnel>, hostname: string)
    requires reg == map["" := v] && hostname != ""
    ensures reg.Keys == {""}
    ensures GetTunnelForHost(reg, hostname).Err?
  {
  }

  /** The same scenario, corrected: the tunnel is registered under
      `site.tld`, and the die event issues `s6-svc -d` on its service. */
  lemma SiteDieCorrected(w: World, env: Env, id: string)
    requires Fresh(w) && Site(env, id)
    ensures var r1 := HandleStartEvent(w, env, id);
      var r2 := HandleDieEvent(r1.world, env, id);
      && r1.affected.Some? && r1.world.registry.Keys == {"site.tld"}
      && r2.world.host.log == r1.world.host.log + [Cmd("s6-svc", ["-d", "/var/run/s6/services/" + "site.tld"])]
      && r2.out.Pass? && r2.world.registry == map["site.tld" := None]
  {
    SiteStarts(w, env, id, true);
    SiteLabelsResolve(env, id);
    StartThenDieStops(w, env, id);
    var r1 := HandleStartEvent(w, env, id);
    var t := r1.affected.value;
    assert r1.world.registry == map["site.tld" := r1.affected];
    Service.PathLayout(t.service);
  }
}
