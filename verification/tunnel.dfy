/** tunnel.go of the root package: a tunnel pairs a container's address with
    a public hostname and certificate, materialises the s6 service for it and
    keeps a registry of started tunnels keyed by `Config.ID`. */
module Tunnels {
  import opened Wrappers
  import opened Text
  import opened Os
  import Service
  import Certificates

  datatype Config = Config(id: string, ip: string, hostname: string, port: string)

  datatype Tunnel = Tunnel(config: Config, certificate: Certificates.Certificate, service: Service.Service)

  /** The package-level `registry`; a `None` value is a nil `*Tunnel`. */
  type Registry = map<string, Option<Tunnel>>

  /** The host and registry after a tunnel operation, and its error. */
  datatype Started = Started(host: Host, registry: Registry, out: Outcome)

  /** `NewTunnel`: the service is named after the public hostname, so every
      generated path derives from it. */
  function NewTunnel(config: Config, certificate: Certificates.Certificate): (t: Tunnel)
    ensures t.config == config && t.certificate == certificate
    ensures Service.ServicePath(t.service) == "/var/run/s6/services/" + config.hostname
    ensures Service.ConfigFilePath(t.service) == "/var/run/s6/services/" + config.hostname + "/config.yml"
    ensures Service.RunFilePath(t.service) == "/var/run/s6/services/" + config.hostname + "/run"
    ensures Service.LogFilePath(t.service) == "/var/log/hera/" + config.hostname + ".log"
  {
    var t := Tunnel(config, certificate, Service.Service(config.hostname));
    Service.PathLayout(t.service);
    t
  }

  /** The lines of the generated cloudflared configuration. */
  function ConfigLines(t: Tunnel): seq<string> {
    [ "hostname: " + t.config.hostname,
      "url: " + t.config.ip + ":" + t.config.port,
      "logfile: " + Service.LogFilePath(t.service),
      "origincert: " + Certificates.FullPath(t.certificate),
      "no-autoupdate: true" ]
  }

  /** The configuration file: its lines joined by newlines, with no newline
      after the last. */
  function ConfigContents(t: Tunnel): string {
    Join(ConfigLines(t), "\n")
  }

  /** The launcher script. */
  function RunContents(t: Tunnel): string {
    Join(["#!/bin/sh", "exec cloudflared --config " + Service.ConfigFilePath(t.service)], "\n")
  }

  /** No field of the tunnel that reaches the configuration holds a newline. */
  predicate SingleLineFields(t: Tunnel) {
    && '\n' !in t.config.hostname && '\n' !in t.config.ip && '\n' !in t.config.port
    && '\n' !in t.certificate.name
  }

  /** The configuration lines of a tunnel built by `NewTunnel`. */
  lemma ConfigLinesLayout(config: Config, certificate: Certificates.Certificate)
    ensures ConfigLines(NewTunnel(config, certificate)) ==
      [ "hostname: " + config.hostname,
        "url: " + config.ip + ":" + config.port,
        "logfile: /var/log/hera/" + config.hostname + ".log",
        "origincert: /certs/" + certificate.name,
        "no-autoupdate: true" ]
  {
    var h := config.hostname;
    assert Certificates.FullPath(certificate) == "/certs/" + certificate.name by {
      assert "/certs" + "/" == "/certs/";
    }
    assert "logfile: " + ("/var/log/hera/" + h + ".log") == "logfile: /var/log/hera/" + h + ".log" by {
      assert "logfile: " + "/var/log/hera/" == "logfile: /var/log/hera/";
    }
    assert "origincert: " + ("/certs/" + certificate.name) == "origincert: /certs/" + certificate.name by {
      assert "origincert: " + "/certs/" == "origincert: /certs/";
    }
  }

  /** Each configuration line is a single line. */
  lemma ConfigLinesSingle(config: Config, certificate: Certificates.Certificate)
    requires SingleLineFields(NewTunnel(config, certificate))
    ensures var t := NewTunnel(config, certificate);
      forall i :: 0 <= i < |ConfigLines(t)| ==> '\n' !in ConfigLines(t)[i]
  {
    var t := NewTunnel(config, certificate);
    var lines := ConfigLines(t);
    assert '\n' !in "hostname: " && '\n' !in "url: " && '\n' !in ":" && '\n' !in "logfile: ";
    assert '\n' !in "origincert: " && '\n' !in "no-autoupdate: true";
    assert '\n' !in Service.LogFilePath(t.service) by {
      var l := Service.LogFilePath(t.service);
      assert l == Service.LogPath + "/" + t.service.hostname + ".log" by { Service.PathLayout(t.service); }
      assert '\n' !in Service.LogPath + "/" && '\n' !in ".log";
    }
    assert '\n' !in Certificates.FullPath(t.certificate) by {
      assert '\n' !in Certificates.CertificatePath + "/";
    }
  }

  /** Read back line by line, a tunnel built by `NewTunnel` has exactly the
      five configuration lines, and the file does not end in a newline. */
  lemma ConfigFileFormat(config: Config, certificate: Certificates.Certificate)
    requires SingleLineFields(NewTunnel(config, certificate))
    ensures Split(ConfigContents(NewTunnel(config, certificate)), '\n') ==
      [ "hostname: " + config.hostname,
        "url: " + config.ip + ":" + config.port,
        "logfile: /var/log/hera/" + config.hostname + ".log",
        "origincert: /certs/" + certificate.name,
        "no-autoupdate: true" ]
    ensures HasSuffix(ConfigContents(NewTunnel(config, certificate)), "\n" + "no-autoupdate: true")
  {
    var t := NewTunnel(config, certificate);
    var lines := ConfigLines(t);
    ConfigLinesSingle(config, certificate);
    SplitJoin(lines, '\n');
    assert Split(ConfigContents(t), '\n') == lines;
    ConfigLinesLayout(config, certificate);
    JoinSuffix(lines, "\n");
    assert lines[|lines| - 1] == "no-autoupdate: true";
  }

  /** The launcher script is the shebang line followed by the cloudflared
      command pointing at the service's configuration file. */
  lemma RunFileFormat(config: Config, certificate: Certificates.Certificate)
    ensures RunContents(NewTunnel(config, certificate)) ==
      "#!/bin/sh" + "\n" + "exec cloudflared --config " + "/var/run/s6/services/" + config.hostname + "/config.yml"
  {
    var t := NewTunnel(config, certificate);
    var path := "/var/run/s6/services/" + config.hostname + "/config.yml";
    JoinPair("#!/bin/sh", "exec cloudflared --config " + path, "\n");
  }

  /** `writeConfigFile`: (over)writes the configuration file, which needs
      the service directory to exist; nothing else changes and no command is
      issued. */
  function WriteConfigFile(h: Host, t: Tunnel): (r: Step<Outcome>)
    ensures r.host.log == h.log
    ensures var p := Service.ConfigFilePath(t.service);
      r.out.Pass? <==> IsDir(h.fs, Service.ServicePath(t.service)) && p !in h.fs.unwritable && !IsDir(h.fs, p)
    ensures r.out.Pass? ==> Holds(r.host.fs, Service.ConfigFilePath(t.service), ConfigContents(t))
    ensures r.out.Pass? ==> OnlyAt(h.fs, r.host.fs, Service.ConfigFilePath(t.service))
    ensures r.out.Fail? ==> r.host == h
  {
    ParentOfJoin(Service.ServicePath(t.service), "config.yml");
    WriteFile(h, Service.ConfigFilePath(t.service), ConfigContents(t), ModeConfig)
  }

  /** `writeRunFile`: (over)writes the launcher script in the service
      directory. */
  function WriteRunFile(h: Host, t: Tunnel): (r: Step<Outcome>)
    ensures r.host.log == h.log
    ensures var p := Service.RunFilePath(t.service);
      r.out.Pass? <==> IsDir(h.fs, Service.ServicePath(t.service)) && p !in h.fs.unwritable && !IsDir(h.fs, p)
    ensures r.out.Pass? ==> Holds(r.host.fs, Service.RunFilePath(t.service), RunContents(t))
    ensures r.out.Pass? ==> OnlyAt(h.fs, r.host.fs, Service.RunFilePath(t.service))
    ensures r.out.Fail? ==> r.host == h
  {
    ParentOfJoin(Service.ServicePath(t.service), "run");
    WriteFile(h, Service.RunFilePath(t.service), RunContents(t), ModePerm)
  }

  /** Both writers overwrite: writing twice leaves what writing once leaves. */
  lemma WritersIdempotent(h: Host, t: Tunnel)
    ensures WriteConfigFile(WriteConfigFile(h, t).host, t) == WriteConfigFile(h, t)
    ensures WriteRunFile(WriteRunFile(h, t).host, t) == WriteRunFile(h, t)
  {
  }

  /** When `prepareService` succeeds: the service directory exists or can be
      made (a failed `Mkdir` is ignored, but then nothing can be written in
      it), and neither file is unwritable or a directory. */
  predicate Prepares(fs: Fs, s: Service.Service) {
    var sp := Service.ServicePath(s);
    && !StatFails(fs, sp)
    && (IsDir(fs, sp) || (sp !in fs.nodes && sp !in fs.unwritable && InDir(fs, sp)))
    && Service.ConfigFilePath(s) !in fs.unwritable && !IsDir(fs, Service.ConfigFilePath(s))
    && Service.RunFilePath(s) !in fs.unwritable && !IsDir(fs, Service.RunFilePath(s))
  }

  /** `prepareService`: `Create`, then the configuration file, then the
      launcher script, stopping at the first error. */
  function PrepareService(h: Host, t: Tunnel): (r: Step<Outcome>)
    ensures r.host.log == h.log
    ensures r.out.Pass? <==> Prepares(h.fs, t.service)
    ensures r.out.Pass? ==> IsDir(r.host.fs, Service.ServicePath(t.service))
    ensures StatFails(h.fs, Service.ServicePath(t.service)) ==> r.host == h && r.out.Fail?
    ensures r.out.Pass? ==> Holds(r.host.fs, Service.ConfigFilePath(t.service), ConfigContents(t))
    ensures r.out.Pass? ==> Holds(r.host.fs, Service.RunFilePath(t.service), RunContents(t))
    ensures r.out.Fail? ==> SameAt(h.fs, r.host.fs, Service.RunFilePath(t.service))
    ensures !SameAt(h.fs, r.host.fs, Service.RunFilePath(t.service)) ==>
      Holds(r.host.fs, Service.ConfigFilePath(t.service), ConfigContents(t))
    ensures forall p ::
      (p != Service.ServicePath(t.service) && p != Service.ConfigFilePath(t.service) && p != Service.RunFilePath(t.service))
      ==> SameAt(h.fs, r.host.fs, p)
  {
    Service.FilesDistinct(t.service);
    var c := Service.Create(h, t.service);
    if c.out.Fail? then c
    else
      assert SameAt(h.fs, c.host.fs, Service.ConfigFilePath(t.service));
      assert SameAt(h.fs, c.host.fs, Service.RunFilePath(t.service));
      WriteFiles(c.host, t)
  }

  /** The two writes of `prepareService`, the configuration first; the
      launcher is written only when the configuration was. */
  function WriteFiles(h: Host, t: Tunnel): (r: Step<Outcome>)
    ensures r.host.log == h.log && r.host.fs.unreadable == h.fs.unreadable
    ensures var s := t.service;
      r.out.Pass? <==>
        && IsDir(h.fs, Service.ServicePath(s))
        && Service.ConfigFilePath(s) !in h.fs.unwritable && !IsDir(h.fs, Service.ConfigFilePath(s))
        && Service.RunFilePath(s) !in h.fs.unwritable && !IsDir(h.fs, Service.RunFilePath(s))
    ensures r.out.Pass? ==> Holds(r.host.fs, Service.ConfigFilePath(t.service), ConfigContents(t))
    ensures r.out.Pass? ==> Holds(r.host.fs, Service.RunFilePath(t.service), RunContents(t))
    ensures r.out.Fail? ==> SameAt(h.fs, r.host.fs, Service.RunFilePath(t.service))
    ensures !SameAt(h.fs, r.host.fs, Service.RunFilePath(t.service)) ==>
      Holds(r.host.fs, Service.ConfigFilePath(t.service), ConfigContents(t))
    ensures forall p :: p != Service.ConfigFilePath(t.service) && p != Service.RunFilePath(t.service) ==>
      SameAt(h.fs, r.host.fs, p)
  {
    Service.FilesDistinct(t.service);
    var w := WriteConfigFile(h, t);
    if w.out.Fail? then w
    else
      assert SameAt(h.fs, w.host.fs, Service.ServicePath(t.service));
      assert SameAt(h.fs, w.host.fs, Service.RunFilePath(t.service));
      WriteRunFile(w.host, t)
  }

  /** `startService`: exactly one of three branches. An unsupervised service is
      only handed to s6 (`Supervise`); a supervised one is asked for its
      status and then restarted when running or started when not. */
  function StartService(h: Host, sh: Shell, t: Tunnel): (r: Step<Outcome>)
    ensures r.host.fs == h.fs
    ensures var s := t.service;
      StatFails(h.fs, Service.SupervisePath(s)) ==> r.host == h && r.out.Fail?
    ensures var s := t.service;
      Service.IsSupervised(h.fs, s) == Ok(false) ==> Service.OneCommand(h, sh, Service.SuperviseCmd(), r)
    ensures var s := t.service; var status := sh(h.log, Service.StatusCmd(s));
      Service.IsSupervised(h.fs, s) == Ok(true) && status.Err? ==>
        r.host.log == h.log + [Service.StatusCmd(s)] && r.out == Fail(status.error)
    ensures var s := t.service; var status := sh(h.log, Service.StatusCmd(s)); var h1 := h.log + [Service.StatusCmd(s)];
      Service.IsSupervised(h.fs, s) == Ok(true) && status.Ok? && Contains(status.value, "true") ==>
        && (r.host.log == h1 + [Service.WaitDownCmd(s)] || r.host.log == h1 + [Service.WaitDownCmd(s), Service.UpCmd(s)])
        && (r.host.log == h1 + [Service.WaitDownCmd(s)] <==> sh(h1, Service.WaitDownCmd(s)).Err?)
        && r.out == Service.Restart(Host(h.fs, h1), sh, s).out
    ensures var s := t.service; var status := sh(h.log, Service.StatusCmd(s)); var h1 := h.log + [Service.StatusCmd(s)];
      Service.IsSupervised(h.fs, s) == Ok(true) && status.Ok? && !Contains(status.value, "true") ==>
        Service.OneCommand(Host(h.fs, h1), sh, Service.UpCmd(s), r)
  {
    match Service.IsSupervised(h.fs, t.service)
    case Err(e) => Step(h, Fail(e))
    case Ok(supervised) =>
      if !supervised then Service.Supervise(h, sh)
      else
        var st := Service.IsRunning(h, sh, t.service);
        match st.out
        case Err(e) => Step(st.host, Fail(e))
        case Ok(running) =>
          if running then Service.Restart(st.host, sh, t.service)
          else Service.Start(st.host, sh, t.service)
  }

  /** Whatever the branch, the start protocol issues one of these command
      sequences: it brings the service up at most once, restarts only after
      waiting for it to go down, and never both registers and starts it. */
  lemma StartServiceCommands(h: Host, sh: Shell, t: Tunnel)
    ensures var s := t.service; var issued := StartService(h, sh, t).host.log[|h.log|..];
      || issued == []
      || issued == [Service.SuperviseCmd()]
      || issued == [Service.StatusCmd(s)]
      || issued == [Service.StatusCmd(s), Service.UpCmd(s)]
      || issued == [Service.StatusCmd(s), Service.WaitDownCmd(s)]
      || issued == [Service.StatusCmd(s), Service.WaitDownCmd(s), Service.UpCmd(s)]
  {
    var r := StartService(h, sh, t);
    var issued := r.host.log[|h.log|..];
    assert r.host.log == h.log + issued;
  }

  /** `Start`: prepares and starts the service; only when both succeed is
      the tunnel registered under its `Config.ID`. */
  function Start(h: Host, reg: Registry, sh: Shell, t: Tunnel): (r: Started)
    ensures var p := PrepareService(h, t);
      p.out.Fail? ==> r == Started(p.host, reg, p.out)
    ensures var p := PrepareService(h, t); var s := StartService(p.host, sh, t);
      p.out.Pass? ==> r.host == s.host && r.out == s.out
    ensures r.out.Pass? <==> Prepares(h.fs, t.service) && StartService(PrepareService(h, t).host, sh, t).out.Pass?
    ensures r.out.Pass? ==> r.registry == reg[t.config.id := Some(t)]
    ensures r.out.Fail? ==> r.registry == reg
    ensures r.out.Pass? ==> Holds(r.host.fs, Service.ConfigFilePath(t.service), ConfigContents(t))
    ensures r.out.Pass? ==> Holds(r.host.fs, Service.RunFilePath(t.service), RunContents(t))
    ensures PrepareService(h, t).out.Fail? ==> r.host.log == h.log
  {
    var p := PrepareService(h, t);
    if p.out.Fail? then Started(p.host, reg, p.out)
    else
      var s := StartService(p.host, sh, t);
      if s.out.Fail? then Started(s.host, reg, s.out)
      else Started(s.host, reg[t.config.id := Some(t)], Pass)
  }

  /** `startService` reads the filesystem only through the stat of the
      `supervise` path, so two hosts that stat it alike and agree on the
      commands issued so far start the service alike. */
  lemma StartServiceReadsSupervise(h1: Host, h2: Host, sh: Shell, t: Tunnel)
    requires h1.log == h2.log
    requires Stat(h1.fs, Service.SupervisePath(t.service)) == Stat(h2.fs, Service.SupervisePath(t.service))
    ensures StartService(h1, sh, t).out == StartService(h2, sh, t).out
    ensures StartService(h1, sh, t).host.log == StartService(h2, sh, t).host.log
  {
    assert Service.IsSupervised(h1.fs, t.service) == Service.IsSupervised(h2.fs, t.service);
  }

  /** Whether `Start` succeeds is decided by the host it starts from: the
      service must be preparable there, and the start protocol must succeed
      as it would on that host, since preparing touches none of the paths
      the protocol reads. */
  lemma StartOutcome(h: Host, reg: Registry, sh: Shell, t: Tunnel)
    ensures Start(h, reg, sh, t).out.Pass? <==> Prepares(h.fs, t.service) && StartService(h, sh, t).out.Pass?
  {
    var p := PrepareService(h, t);
    if p.out.Pass? {
      var sp, sup := Service.ServicePath(t.service), Service.SupervisePath(t.service);
      Service.FilesDistinct(t.service);
      ParentOfJoin(sp, "supervise");
      assert Parent(sup) == sp;
      assert SameAt(h.fs, p.host.fs, sup);
      assert p.host.fs.unreadable == h.fs.unreadable;
      assert Stat(h.fs, sup) == Stat(p.host.fs, sup);
      StartServiceReadsSupervise(p.host, h, sh, t);
    }
  }

  /** `Stop`: brings the service down; on success the registry entry becomes
      nil but its key stays, on failure the registry is unchanged. */
  function Stop(h: Host, reg: Registry, sh: Shell, t: Tunnel): (r: Started)
    ensures r.host == Host(h.fs, h.log + [Service.DownCmd(t.service)])
    ensures r.out.Fail? <==> sh(h.log, Service.DownCmd(t.service)).Err?
    ensures r.out.Fail? ==> r.out == Fail(sh(h.log, Service.DownCmd(t.service)).error)
    ensures r.out.Pass? ==> r.registry == reg[t.config.id := None] && t.config.id in r.registry
    ensures r.out.Fail? ==> r.registry == reg
  {
    var st := Service.Stop(h, sh, t.service);
    if st.out.Fail? then Started(st.host, reg, st.out)
    else Started(st.host, reg[t.config.id := None], Pass)
  }
}
