/** hera/hera.go of the older revision: the controller's decisions over
    `ActiveTunnels`, the map from a container's own hostname to its tunnel. */
module Hera {
  import opened Wrappers
  import opened Os
  import opened Runtime
  import HeraTunnel

  /** Container inspection, DNS and the commands. */
  datatype Env = Env(inspect: string -> Result<Container>, lookup: Lookup, sh: Shell)

  datatype Hera = Hera(host: Host, activeTunnels: map<string, HeraTunnel.Tunnel>)

  /** The state after an event, the start error that was only logged, and
      the outside queries made. */
  datatype Handled = Handled(state: Hera, out: Outcome, trace: seq<Probe>)

  /** Both label keys are present, whatever their values. */
  predicate Labelled(c: Container) {
    "hera.hostname" in c.labels && "hera.port" in c.labels
  }

  /** `HandleStartEvent`: a labelled container whose hostname resolves on
      the first and only lookup gets a tunnel, recorded under its own
      hostname before the tunnel is started, and kept whatever `Start`
      reports. */
  function HandleStartEvent(st: Hera, env: Env, id: string): (r: Handled)
    requires env.inspect(id).Ok?
    ensures var c := env.inspect(id).value;
      !Labelled(c) ==> r == Handled(st, Pass, [Inspect(id)])
    ensures var c := env.inspect(id).value;
      Labelled(c) && env.lookup(0, c.hostname).Err? ==>
        r == Handled(st, Pass, [Inspect(id), LookupHost(c.hostname)])
    ensures var c := env.inspect(id).value;
      Labelled(c) && env.lookup(0, c.hostname).Ok? ==>
        var t := HeraTunnel.NewTunnel(env.lookup(0, c.hostname).value[0], c.labels["hera.hostname"], c.labels["hera.port"]);
        && r.state.activeTunnels == st.activeTunnels[c.hostname := t]
        && r.trace == [Inspect(id), LookupHost(c.hostname)]
        && r.state.host == HeraTunnel.Start(st.host, env.sh, t).host
        && r.out == HeraTunnel.Start(st.host, env.sh, t).out
  {
    var c := env.inspect(id).value;
    if !Labelled(c) then Handled(st, Pass, [Inspect(id)])
    else
      match env.lookup(0, c.hostname)
      case Err(_) => Handled(st, Pass, [Inspect(id), LookupHost(c.hostname)])
      case Ok(resolved) =>
        var t := HeraTunnel.NewTunnel(resolved[0], c.labels["hera.hostname"], c.labels["hera.port"]);
        var active := st.activeTunnels[c.hostname := t];
        var s := HeraTunnel.Start(st.host, env.sh, t);
        Handled(Hera(s.host, active), s.out, [Inspect(id), LookupHost(c.hostname)])
  }

  /** `HandleDieEvent`: stops the tunnel recorded under the container's
      hostname, if any; the record itself is kept. An inspect error ends the
      handling with nothing stopped. */
  function HandleDieEvent(st: Hera, env: Env, id: string): (r: Handled)
    ensures r.out == Pass && r.trace == [Inspect(id)]
    ensures r.state.activeTunnels == st.activeTunnels
    ensures r.state.host.fs == st.host.fs
    ensures env.inspect(id).Err? ==> r.state == st
    ensures env.inspect(id).Ok? && env.inspect(id).value.hostname !in st.activeTunnels ==> r.state == st
    ensures env.inspect(id).Ok? && env.inspect(id).value.hostname in st.activeTunnels ==>
      var t := st.activeTunnels[env.inspect(id).value.hostname];
      r.state.host.log == st.host.log + [Cmd("s6-svc", ["-d", t.paths.servicePath])]
  {
    match env.inspect(id)
    case Err(_) => Handled(st, Pass, [Inspect(id)])
    case Ok(c) =>
      if c.hostname in st.activeTunnels then
        Handled(Hera(HeraTunnel.Stop(st.host, env.sh, st.activeTunnels[c.hostname]), st.activeTunnels), Pass, [Inspect(id)])
      else Handled(st, Pass, [Inspect(id)])
  }

  /** The event loop's routing: "start" and "die" events are handled, every
      other event is passed over. */
  function HandleEvent(st: Hera, env: Env, e: Event): (r: Handled)
    requires e.status == "start" ==> env.inspect(e.id).Ok?
    ensures e.status == "start" ==> r == HandleStartEvent(st, env, e.id)
    ensures e.status == "die" ==> r == HandleDieEvent(st, env, e.id)
    ensures e.status != "start" && e.status != "die" ==> r == Handled(st, Pass, [])
  {
    if e.status == "start" then HandleStartEvent(st, env, e.id)
    else if e.status == "die" then HandleDieEvent(st, env, e.id)
    else Handled(st, Pass, [])
  }

  /** A die event after a start event of the same labelled, resolvable
      container stops the tunnel that was started, through its
      `/etc/services.d` directory, even when starting it failed. */
  lemma {:induction false} StartThenDie(st: Hera, env: Env, id: string)
    requires env.inspect(id).Ok? && Labelled(env.inspect(id).value)
    requires env.lookup(0, env.inspect(id).value.hostname).Ok?
    ensures var c := env.inspect(id).value;
      var started := HandleStartEvent(st, env, id).state;
      var r := HandleDieEvent(started, env, id);
      && r.state.host.log == started.host.log + [Cmd("s6-svc", ["-d", "/etc/services.d/" + c.labels["hera.hostname"]])]
      && r.state.activeTunnels == started.activeTunnels
  {
    var c := env.inspect(id).value;
    var started := HandleStartEvent(st, env, id).state;
    assert c.hostname in started.activeTunnels;
  }

  /** Two labelled containers that share an internal hostname share one
      record, and the later start replaces the earlier tunnel. */
  lemma {:induction false} SharedHostnameOverwrites(st: Hera, env: Env, id1: string, id2: string)
    requires env.inspect(id1).Ok? && Labelled(env.inspect(id1).value)
    requires env.inspect(id2).Ok? && Labelled(env.inspect(id2).value)
    requires env.inspect(id1).value.hostname == env.inspect(id2).value.hostname
    requires env.lookup(0, env.inspect(id2).value.hostname).Ok?
    ensures var h := env.inspect(id2).value.hostname;
      var first := HandleStartEvent(st, env, id1).state;
      var second := HandleStartEvent(first, env, id2).state;
      && h in second.activeTunnels
      && second.activeTunnels[h].heraHostname == env.inspect(id2).value.labels["hera.hostname"]
      && second.activeTunnels.Keys == first.activeTunnels.Keys
  {
    var h := env.inspect(id2).value.hostname;
    var first := HandleStartEvent(st, env, id1).state;
    assert env.lookup(0, env.inspect(id1).value.hostname).Ok?;
    assert h in first.activeTunnels;
  }
}
