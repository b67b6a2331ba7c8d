/** hera/service.go of the older revision: the same s6 service as the root
    package, but configured by a `ServiceConfig` whose `TunnelHostname` names
    the service, and restarted with `s6-svc -wr`. Every operation except the
    restart is the root service's applied to that hostname. */
module HeraService {
  import opened Wrappers
  import opened Os
  import Root = Service

  /** The container's own hostname and the public hostname of its tunnel. */
  datatype ServiceConfig = ServiceConfig(hostname: string, tunnelHostname: string)

  datatype Service = Service(config: ServiceConfig)

  /** The root service this one behaves as: it is named after the tunnel
      hostname, and the container hostname plays no part. */
  function Shared(s: Service): (r: Root.Service)
    ensures Root.ServicePath(r) == "/var/run/s6/services/" + s.config.tunnelHostname
    ensures Root.ConfigFilePath(r) == "/var/run/s6/services/" + s.config.tunnelHostname + "/config.yml"
    ensures Root.RunFilePath(r) == "/var/run/s6/services/" + s.config.tunnelHostname + "/run"
    ensures Root.SupervisePath(r) == "/var/run/s6/services/" + s.config.tunnelHostname + "/supervise"
    ensures Root.LogFilePath(r) == "/var/log/hera/" + s.config.tunnelHostname + ".log"
  {
    var r := Root.Service(s.config.tunnelHostname);
    Root.PathLayout(r);
    r
  }

  /** Two services for the same tunnel hostname share every path and
      command, whatever their container hostnames; different tunnel
      hostnames share none. */
  lemma PathsFollowTunnelHostname(a: Service, b: Service)
    ensures a.config.tunnelHostname == b.config.tunnelHostname ==> Shared(a) == Shared(b)
    ensures a.config.tunnelHostname != b.config.tunnelHostname ==>
      && Root.ServicePath(Shared(a)) != Root.ServicePath(Shared(b))
      && Root.LogFilePath(Shared(a)) != Root.LogFilePath(Shared(b))
  {
    if a.config.tunnelHostname != b.config.tunnelHostname {
      Root.PathsInjective(Shared(a), Shared(b));
    }
  }

  /** The paths the service's tests expect for container "f56540dbf360"
      serving "site.tld". */
  lemma PathExamples()
    ensures var s := Shared(Service(ServiceConfig("f56540dbf360", "site.tld")));
      && Root.ServicePath(s) == "/var/run/s6/services/site.tld"
      && Root.ConfigFilePath(s) == "/var/run/s6/services/site.tld/config.yml"
      && Root.RunFilePath(s) == "/var/run/s6/services/site.tld/run"
      && Root.LogFilePath(s) == "/var/log/hera/site.tld.log"
  {
    var dir := "/var/run/s6/services/" + "site.tld";
    assert dir == "/var/run/s6/services/site.tld";
    assert dir + "/config.yml" == "/var/run/s6/services/site.tld/config.yml";
    assert dir + "/run" == "/var/run/s6/services/site.tld/run";
    assert "/var/log/hera/" + "site.tld" + ".log" == "/var/log/hera/site.tld.log";
  }

  /** `s6-svc -wr`: restart once the service is up again. */
  function RestartCmd(s: Service): Cmd {
    Cmd("s6-svc", ["-wr", Root.ServicePath(Shared(s))])
  }

  /** `restart`: waits for the service to go down, then restarts it with
      `-wr`; when the wait fails nothing else is issued. */
  function Restart(h: Host, sh: Shell, s: Service): (r: Step<Outcome>)
    ensures r.host.fs == h.fs
    ensures var w := Root.WaitDownCmd(Shared(s));
      sh(h.log, w).Err? ==> r.host.log == h.log + [w] && r.out == Fail(sh(h.log, w).error)
    ensures var w := Root.WaitDownCmd(Shared(s));
      sh(h.log, w).Ok? ==>
        && r.host.log == h.log + [w, Cmd("s6-svc", ["-wr", "/var/run/s6/services/" + s.config.tunnelHostname])]
        && (r.out.Fail? <==> sh(h.log + [w], RestartCmd(s)).Err?)
        && (r.out.Fail? ==> r.out == Fail(sh(h.log + [w], RestartCmd(s)).error))
  {
    var w := Root.WaitUntilDown(h, sh, Shared(s));
    if w.out.Fail? then w
    else Root.RunChecked(w.host, sh, RestartCmd(s))
  }

  /** Against the root revision's restart, only the second command differs:
      `-wr` where the root package brings the service up with `-u`. */
  lemma {:induction false} RestartAgainstRoot(h: Host, sh: Shell, s: Service)
    requires sh(h.log, Root.WaitDownCmd(Shared(s))).Ok?
    ensures var mine := Restart(h, sh, s).host.log;
      var root := Root.Restart(h, sh, Shared(s)).host.log;
      && |mine| == |root| == |h.log| + 2
      && mine[..|h.log| + 1] == root[..|h.log| + 1]
      && mine[|h.log| + 1] == RestartCmd(s) && root[|h.log| + 1] == Root.UpCmd(Shared(s))
  {
    var w := Root.WaitDownCmd(Shared(s));
    assert (h.log + [w, RestartCmd(s)])[..|h.log| + 1] == h.log + [w];
    assert (h.log + [w, Root.UpCmd(Shared(s))])[..|h.log| + 1] == h.log + [w];
  }
}
