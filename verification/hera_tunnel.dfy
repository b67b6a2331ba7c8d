/** hera/tunnel.go of the older revision: the tunnel's service directory
    lives under `/etc/services.d` and is linked into the s6 services root;
    the generated files and the start protocol differ from the later
    revisions. */
module HeraTunnel {
  import opened Wrappers
  import opened Text
  import opened Os
  import Service

  const ServicesDir := "/etc/services.d"
  const S6ServicesPath := "/var/run/s6/services"
  const LogDir := "/var/log/hera"

  datatype TunnelConfig = TunnelConfig(
    servicePath: string, runFilePath: string, s6ServicesPath: string,
    s6TunnelServicePath: string, configFilePath: string, logFilePath: string)

  datatype Tunnel = Tunnel(containerHostname: string, heraHostname: string, heraPort: string, paths: TunnelConfig)

  /** `NewTunnel`: every path derives from the public hostname. */
  function NewTunnel(containerHostname: string, heraHostname: string, heraPort: string): (t: Tunnel)
    ensures t.containerHostname == containerHostname && t.heraHostname == heraHostname && t.heraPort == heraPort
    ensures t.paths.servicePath == "/etc/services.d/" + heraHostname
    ensures t.paths.runFilePath == "/etc/services.d/" + heraHostname + "/run"
    ensures t.paths.configFilePath == "/etc/services.d/" + heraHostname + "/config.yml"
    ensures t.paths.s6ServicesPath == "/var/run/s6/services"
    ensures t.paths.s6TunnelServicePath == "/var/run/s6/services/" + heraHostname
    ensures t.paths.logFilePath == "/var/log/hera/" + heraHostname + ".log"
  {
    var servicePath := PathJoin(ServicesDir, heraHostname);
    assert ServicesDir + "/" == "/etc/services.d/";
    assert S6ServicesPath + "/" == "/var/run/s6/services/";
    assert LogDir + "/" == "/var/log/hera/";
    Tunnel(containerHostname, heraHostname, heraPort,
      TunnelConfig(servicePath, PathJoin(servicePath, "run"), S6ServicesPath,
                   PathJoin(S6ServicesPath, heraHostname), PathJoin(servicePath, "config.yml"),
                   PathJoin(LogDir, heraHostname + ".log")))
  }

  /** The service directory, the s6 link and the two generated files are
      four different paths. */
  predicate Distinct(p: TunnelConfig) {
    && p.servicePath != p.s6TunnelServicePath
    && p.configFilePath != p.runFilePath
    && p.servicePath != p.configFilePath && p.servicePath != p.runFilePath
    && p.s6TunnelServicePath != p.configFilePath && p.s6TunnelServicePath != p.runFilePath
  }

  /** `NewTunnel` lays its paths out distinctly. */
  lemma PathsDistinct(containerHostname: string, heraHostname: string, heraPort: string)
    ensures Distinct(NewTunnel(containerHostname, heraHostname, heraPort).paths)
  {
    var p := NewTunnel(containerHostname, heraHostname, heraPort).paths;
    assert p.servicePath[1] == 'e' && p.s6TunnelServicePath[1] == 'v';
    assert p.configFilePath[1] == 'e' && p.runFilePath[1] == 'e';
    PathJoinInjective(p.servicePath, "config.yml", "run");
  }

  /** Both generated files sit directly in the service directory, so they
      can be written only once it exists. */
  lemma FilesInServiceDir(containerHostname: string, heraHostname: string, heraPort: string)
    ensures var p := NewTunnel(containerHostname, heraHostname, heraPort).paths;
      Parent(p.configFilePath) == p.servicePath && Parent(p.runFilePath) == p.servicePath
  {
    var p := NewTunnel(containerHostname, heraHostname, heraPort).paths;
    ParentOfJoin(p.servicePath, "run");
    ParentOfJoin(p.servicePath, "config.yml");
  }

  function ConfigLines(t: Tunnel): seq<string> {
    [ "hostname: " + t.heraHostname,
      "url: " + t.containerHostname + ":" + t.heraPort,
      "logfile: " + t.paths.logFilePath ]
  }

  /** `GenerateConfigFile`'s contents: every line ends in a newline. */
  function ConfigContents(t: Tunnel): string {
    Terminated(ConfigLines(t))
  }

  /** Read back line by line, the configuration is the three lines and an
      empty remainder after the final newline. */
  lemma ConfigFileFormat(containerHostname: string, heraHostname: string, heraPort: string)
    requires '\n' !in containerHostname && '\n' !in heraHostname && '\n' !in heraPort
    ensures var t := NewTunnel(containerHostname, heraHostname, heraPort);
      && Split(ConfigContents(t), '\n') ==
         [ "hostname: " + heraHostname,
           "url: " + containerHostname + ":" + heraPort,
           "logfile: " + "/var/log/hera/" + heraHostname + ".log",
           "" ]
      && HasSuffix(ConfigContents(t), "\n")
  {
    var t := NewTunnel(containerHostname, heraHostname, heraPort);
    var lines := ConfigLines(t);
    assert '\n' !in "hostname: " && '\n' !in "url: " && '\n' !in ":" && '\n' !in "logfile: ";
    assert '\n' !in "/var/log/hera/" && '\n' !in ".log";
    assert lines[2] == "logfile: " + "/var/log/hera/" + heraHostname + ".log";
    assert forall i :: 0 <= i < |lines| ==> '\n' !in lines[i];
    SplitTerminated(lines);
  }

  /** `GenerateRunFile`'s contents. */
  function RunContents(t: Tunnel): string {
    "#!/usr/bin/with-contenv sh" + "\n" + "exec cloudflared --config " + t.paths.configFilePath
  }

  /** The launcher script: the shebang line, then the cloudflared command
      on the configuration under `/etc/services.d`, with no final newline. */
  lemma RunFileFormat(containerHostname: string, heraHostname: string, heraPort: string)
    requires '\n' !in heraHostname
    ensures Split(RunContents(NewTunnel(containerHostname, heraHostname, heraPort)), '\n') ==
      [ "#!/usr/bin/with-contenv sh",
        "exec cloudflared --config " + "/etc/services.d/" + heraHostname + "/config.yml" ]
  {
    var t := NewTunnel(containerHostname, heraHostname, heraPort);
    var first := "#!/usr/bin/with-contenv sh";
    var second := "exec cloudflared --config " + "/etc/services.d/" + heraHostname + "/config.yml";
    assert RunContents(t) == first + "\n" + second;
    assert Join([first, second], "\n") == first + "\n" + second by {
      JoinPair(first, second, "\n");
    }
    assert '\n' !in first by {
      forall i | 0 <= i < |first| ensures first[i] != '\n' { }
    }
    assert '\n' !in second by {
      var x, y := "exec cloudflared --config ", "/etc/services.d/";
      assert forall i | 0 <= i < |x| :: x[i] != '\n';
      assert forall i | 0 <= i < |y| :: y[i] != '\n';
      assert forall i | 0 <= i < |"/config.yml"| :: "/config.yml"[i] != '\n';
    }
    SplitJoin([first, second], '\n');
  }

  /** `PrepareService`: makes the service directory when stat reports it
      missing, which fails outside an existing directory; an existing path,
      or a stat error of another kind, is left alone without error. */
  function PrepareService(h: Host, t: Tunnel): (r: Step<Outcome>)
    ensures r.host.log == h.log
    ensures var p := t.paths.servicePath;
      StatFails(h.fs, p) || p in h.fs.nodes ==> r == Step(h, Pass)
    ensures var p := t.paths.servicePath;
      !StatFails(h.fs, p) && p !in h.fs.nodes ==>
        && (r.out.Pass? <==> InDir(h.fs, p) && p !in h.fs.unwritable)
        && (r.out.Pass? ==> IsDir(r.host.fs, p) && OnlyAt(h.fs, r.host.fs, p))
        && (r.out.Fail? ==> r.host == h)
  {
    match Stat(h.fs, t.paths.servicePath)
    case Ok(None) => Mkdir(h, t.paths.servicePath)
    case _ => Step(h, Pass)
  }

  /** `GenerateConfigFile`: creates or truncates the file in its directory
      and writes it. */
  function GenerateConfigFile(h: Host, t: Tunnel): (r: Step<Outcome>)
    ensures r.host.log == h.log
    ensures var p := t.paths.configFilePath; r.out.Pass? <==> InDir(h.fs, p) && p !in h.fs.unwritable && !IsDir(h.fs, p)
    ensures r.out.Pass? ==> Holds(r.host.fs, t.paths.configFilePath, ConfigContents(t))
    ensures r.out.Pass? ==> OnlyAt(h.fs, r.host.fs, t.paths.configFilePath)
    ensures r.out.Fail? ==> r.host == h
  {
    WriteFile(h, t.paths.configFilePath, ConfigContents(t), ModeCreate)
  }

  /** `GenerateRunFile`: writes the launcher script in its directory, then
      makes it executable. */
  function GenerateRunFile(h: Host, t: Tunnel): (r: Step<Outcome>)
    ensures r.host.log == h.log
    ensures var p := t.paths.runFilePath; r.out.Pass? <==> InDir(h.fs, p) && p !in h.fs.unwritable && !IsDir(h.fs, p)
    ensures r.out.Pass? ==>
      t.paths.runFilePath in r.host.fs.nodes && r.host.fs.nodes[t.paths.runFilePath] == File(RunContents(t), ModeExec)
    ensures OnlyAt(h.fs, r.host.fs, t.paths.runFilePath)
    ensures r.out.Fail? ==> r.host == h
  {
    var w := WriteFile(h, t.paths.runFilePath, RunContents(t), ModeCreate);
    if w.out.Fail? then w
    else Chmod(w.host, t.paths.runFilePath, ModeExec)
  }

  /** The commands of this revision. */
  function UpCmd(t: Tunnel): Cmd { Cmd("s6-svc", ["-u", t.paths.s6TunnelServicePath]) }
  function ScanCmd(t: Tunnel): Cmd { Cmd("s6-svscanctl", ["-a", t.paths.s6ServicesPath]) }
  function DownCmd(t: Tunnel): Cmd { Cmd("s6-svc", ["-d", t.paths.servicePath]) }

  /** `StartService`: when the s6 link can be stat'ed the service is brought
      up; otherwise the link is created in the s6 services root and s6 asked
      to rescan, and a link that cannot be created is an error with no
      command issued. */
  function StartService(h: Host, sh: Shell, t: Tunnel): (r: Step<Outcome>)
    ensures var l := t.paths.s6TunnelServicePath;
      !StatFails(h.fs, l) && l in h.fs.nodes ==> Service.OneCommand(h, sh, UpCmd(t), r)
    ensures var l := t.paths.s6TunnelServicePath;
      (StatFails(h.fs, l) || l !in h.fs.nodes) && (!InDir(h.fs, l) || l in h.fs.unwritable || l in h.fs.nodes) ==>
        r.host == h && r.out.Fail?
    ensures var l := t.paths.s6TunnelServicePath;
      InDir(h.fs, l) && l !in h.fs.unwritable && l !in h.fs.nodes ==>
        var linked := h.fs.(nodes := h.fs.nodes[l := Link(t.paths.servicePath)]);
        Service.OneCommand(Host(linked, h.log), sh, ScanCmd(t), r)
    ensures OnlyAt(h.fs, r.host.fs, t.paths.s6TunnelServicePath)
  {
    match Stat(h.fs, t.paths.s6TunnelServicePath)
    case Ok(Some(_)) => Service.RunChecked(h, sh, UpCmd(t))
    case _ =>
      var l := Symlink(h, t.paths.servicePath, t.paths.s6TunnelServicePath);
      if l.out.Fail? then l
      else Service.RunChecked(l.host, sh, ScanCmd(t))
  }

  /** `Start`: `PrepareService`, `GenerateConfigFile`, `GenerateRunFile` and
      `StartService` in that order, stopping at the first error. */
  function Start(h: Host, sh: Shell, t: Tunnel): (r: Step<Outcome>)
    ensures var p := PrepareService(h, t); var c := GenerateConfigFile(p.host, t);
      var g := GenerateRunFile(c.host, t);
      && (p.out.Fail? ==> r == p)
      && (p.out.Pass? && c.out.Fail? ==> r == c)
      && (p.out.Pass? && c.out.Pass? && g.out.Fail? ==> r == g)
      && (p.out.Pass? && c.out.Pass? && g.out.Pass? ==> r == StartService(g.host, sh, t))
    ensures |h.log| <= |r.host.log| <= |h.log| + 1 && r.host.log[..|h.log|] == h.log
    ensures r.out.Pass? ==> |r.host.log| == |h.log| + 1 && r.host.log[|h.log|] in {UpCmd(t), ScanCmd(t)}
    ensures Distinct(t.paths) && r.host.log != h.log ==>
      && Holds(r.host.fs, t.paths.configFilePath, ConfigContents(t))
      && t.paths.runFilePath in r.host.fs.nodes && r.host.fs.nodes[t.paths.runFilePath] == File(RunContents(t), ModeExec)
  {
    var p := PrepareService(h, t);
    if p.out.Fail? then p
    else
      var c := GenerateConfigFile(p.host, t);
      if c.out.Fail? then c
      else
        var g := GenerateRunFile(c.host, t);
        if g.out.Fail? then g
        else
          var st := StartService(g.host, sh, t);
          assert Distinct(t.paths) ==> SameAt(c.host.fs, g.host.fs, t.paths.configFilePath);
          assert Distinct(t.paths) ==> SameAt(g.host.fs, st.host.fs, t.paths.configFilePath);
          assert Distinct(t.paths) ==> SameAt(g.host.fs, st.host.fs, t.paths.runFilePath);
          st
  }

  /** `Stop`: brings the service down through its `/etc/services.d` path;
      a failure is only logged, so the caller learns nothing. */
  function Stop(h: Host, sh: Shell, t: Tunnel): (r: Host)
    ensures r == Host(h.fs, h.log + [Cmd("s6-svc", ["-d", t.paths.servicePath])])
  {
    Run(h, sh, DownCmd(t)).host
  }
}
