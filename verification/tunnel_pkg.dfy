/** tunnel/tunnel.go: the `tunnel` package of the split revision. Its
    configuration has no `ID`; the registry is keyed by hostname, `Get` reads
    it and `Stop` leaves it alone. Service preparation and the start
    protocol are the root package's unchanged, so they are reused here. */
module TunnelPkg {
  import opened Wrappers
  import opened Os
  import Service
  import Certificates
  import Tunnels

  datatype Config = Config(ip: string, hostname: string, port: string)

  datatype Tunnel = Tunnel(config: Config, certificate: Certificates.Certificate, service: Service.Service)

  /** The package-level `registry`, keyed by public hostname. */
  type Registry = map<string, Tunnel>

  datatype Started = Started(host: Host, registry: Registry, out: Outcome)

  /** The same tunnel as the root package sees it; the split configuration
      carries no ID, which none of the shared steps reads. */
  function AsRoot(t: Tunnel): (r: Tunnels.Tunnel)
    ensures r.config.hostname == t.config.hostname && r.config.ip == t.config.ip && r.config.port == t.config.port
    ensures r.certificate == t.certificate && r.service == t.service
  {
    Tunnels.Tunnel(Tunnels.Config("", t.config.ip, t.config.hostname, t.config.port), t.certificate, t.service)
  }

  /** `New`: the service is named after the hostname. */
  function New(config: Config, certificate: Certificates.Certificate): (t: Tunnel)
    ensures t.config == config && t.certificate == certificate
    ensures Service.ServicePath(t.service) == "/var/run/s6/services/" + config.hostname
    ensures Service.ConfigFilePath(t.service) == "/var/run/s6/services/" + config.hostname + "/config.yml"
    ensures Service.RunFilePath(t.service) == "/var/run/s6/services/" + config.hostname + "/run"
    ensures Service.LogFilePath(t.service) == "/var/log/hera/" + config.hostname + ".log"
    ensures AsRoot(t) == Tunnels.NewTunnel(Tunnels.Config("", config.ip, config.hostname, config.port), certificate)
  {
    var t := Tunnel(config, certificate, Service.Service(config.hostname));
    Service.PathLayout(t.service);
    t
  }

  /** `Get`: the tunnel registered for a hostname, or an error when none is. */
  function Get(reg: Registry, hostname: string): (r: Result<Tunnel>)
    ensures r.Ok? <==> hostname in reg
    ensures r.Ok? ==> r.value == reg[hostname]
    ensures r.Err? ==> r.error == "No tunnel exists for " + hostname
  {
    if hostname in reg then Ok(reg[hostname]) else Err("No tunnel exists for " + hostname)
  }

  /** `Start`: prepares and starts the service; only when both succeed is
      the tunnel registered under its hostname. */
  function Start(h: Host, reg: Registry, sh: Shell, t: Tunnel): (r: Started)
    ensures var p := Tunnels.PrepareService(h, AsRoot(t));
      p.out.Fail? ==> r == Started(p.host, reg, p.out)
    ensures var p := Tunnels.PrepareService(h, AsRoot(t)); var s := Tunnels.StartService(p.host, sh, AsRoot(t));
      p.out.Pass? ==> r.host == s.host && r.out == s.out
    ensures r.out.Pass? ==> r.registry == reg[t.config.hostname := t]
    ensures r.out.Fail? ==> r.registry == reg
    ensures r.out.Pass? ==> Holds(r.host.fs, Service.ConfigFilePath(t.service), Tunnels.ConfigContents(AsRoot(t)))
    ensures r.out.Pass? ==> Holds(r.host.fs, Service.RunFilePath(t.service), Tunnels.RunContents(AsRoot(t)))
    ensures Tunnels.PrepareService(h, AsRoot(t)).out.Fail? ==> r.host.log == h.log
  {
    var p := Tunnels.PrepareService(h, AsRoot(t));
    if p.out.Fail? then Started(p.host, reg, p.out)
    else
      var s := Tunnels.StartService(p.host, sh, AsRoot(t));
      if s.out.Fail? then Started(s.host, reg, s.out)
      else Started(s.host, reg[t.config.hostname := t], Pass)
  }

  /** `Stop`: stops the service; the registry is never touched. */
  function Stop(h: Host, reg: Registry, sh: Shell, t: Tunnel): (r: Started)
    ensures r.host == Host(h.fs, h.log + [Service.DownCmd(t.service)])
    ensures r.out.Fail? <==> sh(h.log, Service.DownCmd(t.service)).Err?
    ensures r.out.Fail? ==> r.out == Fail(sh(h.log, Service.DownCmd(t.service)).error)
    ensures r.registry == reg
  {
    var st := Service.Stop(h, sh, t.service);
    Started(st.host, reg, st.out)
  }

  /** A started tunnel can be found again by its hostname. */
  lemma StartThenGet(h: Host, reg: Registry, sh: Shell, t: Tunnel)
    requires Start(h, reg, sh, t).out.Pass?
    ensures Get(Start(h, reg, sh, t).registry, t.config.hostname) == Ok(t)
  {
  }

  /** A stopped tunnel stays registered: `Get` still returns it after
      `Stop`, whatever `Stop` reports. */
  lemma StopKeepsRegistration(h: Host, reg: Registry, sh: Shell, t: Tunnel)
    requires Get(reg, t.config.hostname) == Ok(t)
    ensures Get(Stop(h, reg, sh, t).registry, t.config.hostname) == Ok(t)
  {
  }

  /** The split package starts a tunnel exactly as the root package does:
      the same files, the same commands and the same outcome; only the
      registry key differs. */
  lemma {:induction false} StartAgreesWithRoot(h: Host, reg: Registry, rootReg: Tunnels.Registry, sh: Shell, t: Tunnel)
    ensures Start(h, reg, sh, t).host == Tunnels.Start(h, rootReg, sh, AsRoot(t)).host
    ensures Start(h, reg, sh, t).out == Tunnels.Start(h, rootReg, sh, AsRoot(t)).out
  {
  }
}
