/** service.go of the root package: an s6 service directory named after a
    tunnel's public hostname, and the s6 commands that drive it. The split
    `tunnel` package uses the same service (its test checks the same paths
    and behaviour). */
module Service {
  import opened Wrappers
  import opened Text
  import opened Os

  const ServicesPath := "/var/run/s6/services"
  const LogPath := "/var/log/hera"

  /** A service; the command runner is the `Shell` passed to each operation. */
  datatype Service = Service(hostname: string)

  /** `servicePath`: the directory under the s6 services root named after
      the hostname. */
  function ServicePath(s: Service): (p: string)
    ensures HasPrefix(p, ServicesPath + "/")
    ensures p[|ServicesPath| + 1..] == s.hostname
  {
    PathJoin(ServicesPath, s.hostname)
  }

  function ConfigFilePath(s: Service): (p: string)
    ensures HasPrefix(p, ServicePath(s) + "/")
    ensures p[|ServicePath(s)| + 1..] == "config.yml"
  {
    PathJoin(ServicePath(s), "config.yml")
  }

  function RunFilePath(s: Service): (p: string)
    ensures HasPrefix(p, ServicePath(s) + "/")
    ensures p[|ServicePath(s)| + 1..] == "run"
  {
    PathJoin(ServicePath(s), "run")
  }

  function SupervisePath(s: Service): (p: string)
    ensures HasPrefix(p, ServicePath(s) + "/")
    ensures p[|ServicePath(s)| + 1..] == "supervise"
  {
    PathJoin(ServicePath(s), "supervise")
  }

  /** `LogFilePath`: `<LogPath>/<hostname>.log`. */
  function LogFilePath(s: Service): (p: string)
    ensures HasPrefix(p, LogPath + "/") && HasSuffix(p, ".log")
    ensures |p| == |LogPath| + 1 + |s.hostname| + 4
    ensures p[|LogPath| + 1..|p| - 4] == s.hostname
  {
    JoinPair(PathJoin(LogPath, s.hostname), "log", ".");
    Join([PathJoin(LogPath, s.hostname), "log"], ".")
  }

  /** The layout the tests of the service expect, for any hostname. */
  lemma PathLayout(s: Service)
    ensures ServicePath(s) == "/var/run/s6/services/" + s.hostname
    ensures ConfigFilePath(s) == "/var/run/s6/services/" + s.hostname + "/config.yml"
    ensures RunFilePath(s) == "/var/run/s6/services/" + s.hostname + "/run"
    ensures SupervisePath(s) == "/var/run/s6/services/" + s.hostname + "/supervise"
    ensures LogFilePath(s) == "/var/log/hera/" + s.hostname + ".log"
  {
    ServiceDirLayout(s);
    ServiceFileLayout(s, "config.yml");
    ServiceFileLayout(s, "run");
    ServiceFileLayout(s, "supervise");
    LogFileLayout(s);
  }

  /** The service directory is the hostname under `/var/run/s6/services`. */
  lemma ServiceDirLayout(s: Service)
    ensures ServicePath(s) == "/var/run/s6/services/" + s.hostname
  {
    assert ServicesPath + "/" == "/var/run/s6/services/";
  }

  /** A file of the service is named under its directory. */
  lemma ServiceFileLayout(s: Service, name: string)
    ensures PathJoin(ServicePath(s), name) == "/var/run/s6/services/" + s.hostname + ("/" + name)
  {
    ServiceDirLayout(s);
  }

  /** The log file is `<hostname>.log` under `/var/log/hera`. */
  lemma LogFileLayout(s: Service)
    ensures LogFilePath(s) == "/var/log/hera/" + s.hostname + ".log"
  {
    assert LogPath + "/" == "/var/log/hera/";
    JoinPair(PathJoin(LogPath, s.hostname), "log", ".");
  }

  /** The files of one service sit at distinct paths below its directory. */
  lemma FilesDistinct(s: Service)
    ensures ConfigFilePath(s) != RunFilePath(s) && ConfigFilePath(s) != SupervisePath(s)
    ensures RunFilePath(s) != SupervisePath(s)
    ensures ServicePath(s) != ConfigFilePath(s) && ServicePath(s) != RunFilePath(s)
    ensures ServicePath(s) != SupervisePath(s)
  {
    PathJoinInjective(ServicePath(s), "config.yml", "run");
    PathJoinInjective(ServicePath(s), "config.yml", "supervise");
    PathJoinInjective(ServicePath(s), "run", "supervise");
  }

  /** Two services with different hostnames share no path. */
  lemma PathsInjective(a: Service, b: Service)
    requires a != b
    ensures ServicePath(a) != ServicePath(b)
    ensures ConfigFilePath(a) != ConfigFilePath(b) && RunFilePath(a) != RunFilePath(b)
    ensures SupervisePath(a) != SupervisePath(b) && LogFilePath(a) != LogFilePath(b)
  {
    PathJoinInjective(ServicesPath, a.hostname, b.hostname);
    PathJoinDirInjective(ServicePath(a), ServicePath(b), "config.yml");
    PathJoinDirInjective(ServicePath(a), ServicePath(b), "run");
    PathJoinDirInjective(ServicePath(a), ServicePath(b), "supervise");
    PathJoinInjective(LogPath, a.hostname, b.hostname);
    JoinPair(PathJoin(LogPath, a.hostname), "log", ".");
    JoinPair(PathJoin(LogPath, b.hostname), "log", ".");
  }

  /** `Create`: makes the service directory when it does not exist. The result
      of `Mkdir` is ignored, so only a failing existence check is an error. */
  function Create(h: Host, s: Service): (r: Step<Outcome>)
    ensures r.host.log == h.log
    ensures r.out.Fail? <==> StatFails(h.fs, ServicePath(s))
    ensures r.out.Fail? || IsDir(h.fs, ServicePath(s)) ==> r.host == h
    ensures r.host == h || (IsDir(r.host.fs, ServicePath(s)) && OnlyAt(h.fs, r.host.fs, ServicePath(s)))
    ensures r.out.Pass? ==>
      (IsDir(r.host.fs, ServicePath(s)) <==>
        || IsDir(h.fs, ServicePath(s))
        || (ServicePath(s) !in h.fs.nodes && ServicePath(s) !in h.fs.unwritable && InDir(h.fs, ServicePath(s))))
  {
    match DirExists(h.fs, ServicePath(s))
    case Err(e) => Step(h, Fail(e))
    case Ok(present) =>
      if !present then Step(Mkdir(h, ServicePath(s)).host, Pass)
      else Step(h, Pass)
  }

  /** Creating twice leaves the same host and answer as creating once. */
  lemma CreateIdempotent(h: Host, s: Service)
    ensures Create(Create(h, s).host, s) == Create(h, s)
  {
  }

  /** After a successful `Create` on a free, writable path inside an
      existing directory the service directory exists; an existing directory
      is not touched. */
  lemma CreateEnsuresDirectory(h: Host, s: Service)
    requires !StatFails(h.fs, ServicePath(s)) && ServicePath(s) !in h.fs.unwritable
    requires (ServicePath(s) !in h.fs.nodes && InDir(h.fs, ServicePath(s))) || IsDir(h.fs, ServicePath(s))
    ensures Create(h, s).out.Pass? && IsDir(Create(h, s).host.fs, ServicePath(s))
  {
  }

  /** With a regular file where the services root should be, the existence
      check fails with "not a directory", and `Create` returns that error; with
      a regular file at the service path, so does `IsSupervised`. */
  lemma NotADirectory(h: Host, s: Service)
    requires '/' !in s.hostname && ServicePath(s) !in h.fs.unreadable
    ensures ServicesPath in h.fs.nodes && h.fs.nodes[ServicesPath].File? ==>
      Create(h, s) == Step(h, Fail("stat " + ServicePath(s) + ": not a directory"))
    ensures SupervisePath(s) !in h.fs.unreadable && ServicePath(s) in h.fs.nodes && h.fs.nodes[ServicePath(s)].File? ==>
      IsSupervised(h.fs, s) == Err("stat " + SupervisePath(s) + ": not a directory")
  {
    ParentOfJoin(ServicesPath, s.hostname);
    ParentOfJoin(ServicePath(s), "supervise");
  }

  /** The commands the service issues. */
  function SuperviseCmd(): Cmd { Cmd("s6-svscanctl", ["-a", ServicesPath]) }
  function UpCmd(s: Service): Cmd { Cmd("s6-svc", ["-u", ServicePath(s)]) }
  function DownCmd(s: Service): Cmd { Cmd("s6-svc", ["-d", ServicePath(s)]) }
  function WaitDownCmd(s: Service): Cmd { Cmd("s6-svwait", ["-d", ServicePath(s)]) }
  function StatusCmd(s: Service): Cmd { Cmd("s6-svstat", ["-u", ServicePath(s)]) }

  /** Issues exactly one command, keeps the filesystem, and fails exactly
      when that command fails, with its error. */
  ghost predicate OneCommand(h: Host, sh: Shell, c: Cmd, r: Step<Outcome>) {
    && r.host == Host(h.fs, h.log + [c])
    && (r.out.Fail? <==> sh(h.log, c).Err?)
    && (r.out.Fail? ==> r.out.error == sh(h.log, c).error)
  }

  /** Runs `c`, keeping only whether it failed. */
  function RunChecked(h: Host, sh: Shell, c: Cmd): (r: Step<Outcome>)
    ensures OneCommand(h, sh, c, r)
  {
    var st := Run(h, sh, c);
    Step(st.host, st.out.ToOutcome())
  }

  /** `Supervise`: asks s6-svscan to rescan the services root. */
  function Supervise(h: Host, sh: Shell): (r: Step<Outcome>)
    ensures OneCommand(h, sh, Cmd("s6-svscanctl", ["-a", ServicesPath]), r)
  {
    RunChecked(h, sh, SuperviseCmd())
  }

  /** `Start`: brings the service up. */
  function Start(h: Host, sh: Shell, s: Service): (r: Step<Outcome>)
    ensures OneCommand(h, sh, Cmd("s6-svc", ["-u", ServicePath(s)]), r)
  {
    RunChecked(h, sh, UpCmd(s))
  }

  /** `Stop`: brings the service down. */
  function Stop(h: Host, sh: Shell, s: Service): (r: Step<Outcome>)
    ensures OneCommand(h, sh, Cmd("s6-svc", ["-d", ServicePath(s)]), r)
  {
    RunChecked(h, sh, DownCmd(s))
  }

  /** `waitUntilDown`: waits for the service to be down. */
  function WaitUntilDown(h: Host, sh: Shell, s: Service): (r: Step<Outcome>)
    ensures OneCommand(h, sh, Cmd("s6-svwait", ["-d", ServicePath(s)]), r)
  {
    RunChecked(h, sh, WaitDownCmd(s))
  }

  /** `Restart`: waits for the service to go down, then brings it up; when
      the wait fails nothing is brought up. */
  function Restart(h: Host, sh: Shell, s: Service): (r: Step<Outcome>)
    ensures r.host.fs == h.fs
    ensures sh(h.log, WaitDownCmd(s)).Err? ==>
      r.host.log == h.log + [WaitDownCmd(s)] && r.out == Fail(sh(h.log, WaitDownCmd(s)).error)
    ensures sh(h.log, WaitDownCmd(s)).Ok? ==>
      && r.host.log == h.log + [WaitDownCmd(s), UpCmd(s)]
      && (r.out.Fail? <==> sh(h.log + [WaitDownCmd(s)], UpCmd(s)).Err?)
      && (r.out.Fail? ==> r.out == Fail(sh(h.log + [WaitDownCmd(s)], UpCmd(s)).error))
  {
    var w := WaitUntilDown(h, sh, s);
    if w.out.Fail? then w
    else Start(w.host, sh, s)
  }

  /** `IsSupervised`: whether s6 has taken the directory over, which shows as
      a `supervise` directory inside it. */
  function IsSupervised(fs: Fs, s: Service): (r: Result<bool>)
    ensures r.Err? <==> StatFails(fs, SupervisePath(s))
    ensures r.Ok? ==> (r.value <==> IsDir(fs, SupervisePath(s)))
  {
    DirExists(fs, SupervisePath(s))
  }

  /** `IsRunning`: asks `s6-svstat -u`; running exactly when its output
      contains "true". A failing command yields its error. */
  function IsRunning(h: Host, sh: Shell, s: Service): (r: Step<Result<bool>>)
    ensures r.host == Host(h.fs, h.log + [StatusCmd(s)])
    ensures r.out.Err? <==> sh(h.log, StatusCmd(s)).Err?
    ensures r.out.Err? ==> r.out.error == sh(h.log, StatusCmd(s)).error
    ensures r.out.Ok? ==> (r.out.value <==> Contains(sh(h.log, StatusCmd(s)).value, "true"))
  {
    var st := Run(h, sh, StatusCmd(s));
    match st.out
    case Err(e) => Step(st.host, Err(e))
    case Ok(out) => Step(st.host, Ok(Contains(out, "true")))
  }

  /** The outcomes the service's test checks for `IsRunning`. */
  lemma IsRunningExamples(h: Host, sh: Shell, s: Service)
    requires sh(h.log, StatusCmd(s)).Ok?
    ensures sh(h.log, StatusCmd(s)).value == "true" ==> IsRunning(h, sh, s).out == Ok(true)
    ensures sh(h.log, StatusCmd(s)).value == "" ==> IsRunning(h, sh, s).out == Ok(false)
  {
    if sh(h.log, StatusCmd(s)).value == "true" {
      assert OccursAt("true", "true", 0);
    }
  }
}
