# hera tunnel lifecycle, modelled in Dafny

hera watches a container runtime. For each container labelled with
`hera.hostname` and `hera.port`, it runs a `cloudflared` tunnel under the s6
process supervisor. This project models the tunnel lifecycle engine as pure
functions over an immutable host state.

The host state has two parts:

- an abstract filesystem: a map from path to directory, file or link, plus
  the paths whose stat fails and the paths that cannot be written. A
  directory, file or link can only be created inside an existing directory,
  and a path whose directory is a regular file fails to stat with "not a
  directory";
- the log of s6 commands issued so far.

The outside world comes in as parameters:

- command results come from a `Shell` oracle, which sees the command history;
- DNS answers come from a `Lookup` oracle, indexed by attempt number;
- `tld.Parse` is a `UrlParser` oracle;
- the certificate directory is a `Listing`, the result of reading `/certs`;
- container inspection is a function from container ID to a result.

The repository holds three revisions of the engine side by side. Each one is
modelled in its own modules.

- **Root package** (`service.go`, `tunnel.go`, `certificate.go`, `handler.go`):
  modules `Service`, `Tunnels`, `Certificates` and `Handler`. The registry is
  keyed by the tunnel's `Config.ID`.
- **Split packages** (`tunnel/`, `certificate/`): module `TunnelPkg`. The
  registry is keyed by public hostname.
  - Preparation and start reuse the root `Tunnels` functions. The code is the
    same apart from the configuration type.
  - `tunnel/service.go` is not part of this model. Its test checks the same
    paths and behaviour as the root `Service`, so `TunnelPkg` uses that module.
  - `certificate/certificate.go` is the root `certificate.go` with shorter
    names (`FindAll`, `Verify`, `FindForHostname`). The `Certificates` module
    models both, and its `*Example` lemmas restate that package's tests.
- **Older `hera/` package**: modules `HeraService`, `HeraTunnel`,
  `HeraCertificate`, `HeraContainer` and `Hera`. The service directory lives
  in `/etc/services.d` and is linked into the s6 root. Restart uses `-wr`.
  Certificate lookup falls back to `cert.pem`. `ActiveTunnels` is keyed by
  the container's own hostname.

Shared helper modules:

- `Wrappers`: `Option`, `Result` and `Outcome`.
- `Text`: prefix, suffix, substring, `strings.Split`/`Join`, and `filepath.Join`
  and `filepath.Dir` on clean names.
- `Os`: the filesystem and the command log.
- `Pem`: the `.pem` filter and the name-before-`.pem` match, which all three
  revisions share.
- `Runtime`: containers, events, the DNS retry loop and the parser oracle.

Where the documented design and the code disagree, the model follows the code:

- The root `handleDieEvent` reports an error when no tunnel is found; it is
  not a silent no-op.
- The root handler never sets `Config.ID` (see Findings).
- The older revision records tunnels under the container's internal hostname.

## Model

| member | source | states |
|---|---|---|
| Service.ServicePath | service.go:36-38 | the service directory is `/var/run/s6/services/` followed by exactly the hostname |
| Service.ConfigFilePath | service.go:41-43 | the configuration file is `config.yml` directly inside the service directory |
| Service.RunFilePath | service.go:46-48 | the launcher script is `run` directly inside the service directory |
| Service.SupervisePath | service.go:51-53 | the s6 marker is `supervise` directly inside the service directory |
| Service.LogFilePath | service.go:56-60 | the log file sits in `/var/log/hera/`, ends in `.log`, and what lies between is exactly the hostname |
| Service.PathLayout | service.go:36-60 | for every hostname h, the five paths are literally `/var/run/s6/services/h`, `.../h/config.yml`, `.../h/run`, `.../h/supervise` and `/var/log/hera/h.log` |
| Service.FilesDistinct | service.go:41-53 | a service's directory, configuration, run and supervise paths are pairwise different |
| Service.PathsInjective | service.go:36-60 | two services with different hostnames share no path |
| Service.Create | service.go:63-74 | fails exactly when the existence check fails (an unreadable service path, or a regular file where the services root should be); no command is issued; an existing directory is left untouched; otherwise the service path is the only thing that can change; after success the directory exists exactly when it existed before or the path was free, writable and inside an existing directory |
| Service.CreateIdempotent | service.go:63-74 | creating twice gives the same host and answer as creating once |
| Service.NotADirectory | service.go:63-74 | with a regular file at `/var/run/s6/services`, `Create` returns the stat error "not a directory" and changes nothing; with a regular file at the service path, `IsSupervised` returns that error too (service.go:132-139) |
| Service.CreateEnsuresDirectory | service.go:63-74 | when the path can be stat'ed and written, and either already a directory or free inside an existing directory, `Create` succeeds and the directory exists afterwards |
| Service.Supervise | service.go:77-84 | issues exactly `s6-svscanctl -a /var/run/s6/services`, keeps the filesystem, and fails exactly when that command fails, with its error |
| Service.Start | service.go:87-94 | issues exactly `s6-svc -u <service path>` and propagates its failure |
| Service.Stop | service.go:97-104 | issues exactly `s6-svc -d <service path>` and propagates its failure |
| Service.WaitUntilDown | service.go:122-129 | issues exactly `s6-svwait -d <service path>` and propagates its failure |
| Service.Restart | service.go:107-119 | waits with `s6-svwait -d`, then brings the service up with `s6-svc -u`; when the wait fails, only the wait is issued and its error is returned; when the up command fails, its error is returned |
| Service.IsSupervised | service.go:132-139 | true exactly when `<service path>/supervise` is a directory; an error exactly when that path cannot be stat'ed, because it is unreadable or the service path is a regular file |
| Service.IsRunning | service.go:142-149 | issues `s6-svstat -u` once; running exactly when its output contains "true"; a failing command gives exactly its own error, unchanged |
| Service.IsRunningExamples | tunnel/service_test.go:97-127 | output "true" means running and empty output means not running |
| Tunnels.NewTunnel | tunnel.go:31-41 | keeps the configuration and certificate, and names the service after the public hostname, so all four paths are that hostname's |
| Tunnels.ConfigFileFormat | tunnel.go:134-151 | read back line by line, the configuration is exactly the five lines: `hostname`, `url: ip:port`, the log path, the `/certs/` certificate path and `no-autoupdate: true`; the file ends in that last line, with no trailing newline |
| Tunnels.RunFileFormat | tunnel.go:154-167 | the launcher script is exactly `#!/bin/sh`, a newline, and `exec cloudflared --config /var/run/s6/services/<hostname>/config.yml` |
| Tunnels.WriteConfigFile | tunnel.go:134-151 | succeeds exactly when the service directory exists and the file path is writable and not a directory; afterwards the file holds the configuration and nothing else has changed; a failure leaves the host as it was |
| Tunnels.WriteRunFile | tunnel.go:154-167 | succeeds exactly when the service directory exists and the script path is writable and not a directory; afterwards the file holds the launcher and nothing else has changed; a failure leaves the host as it was |
| Tunnels.WritersIdempotent | tunnel.go:134-167 | writing either file twice leaves what writing it once leaves |
| Tunnels.PrepareService | tunnel.go:73-90 | issues no command; succeeds exactly when the service path can be stat'ed, is a directory or can be made inside an existing directory, and neither file path is unwritable or a directory (a failed `Mkdir` is ignored, so a service path that is a file fails at the first write); on success the service directory exists and both files hold their contents; a failure never touches the run file; only the three service paths can change |
| Tunnels.StartService | tunnel.go:93-131 | leaves the filesystem alone and takes exactly one branch: unsupervised means `Supervise` alone; supervised means a status query, then a restart when running and a start when not; a failing status query stops it; the restart's or start's error is returned |
| Tunnels.StartServiceCommands | tunnel.go:93-131 | whatever the branch, the issued commands form one of six sequences: it never both supervises and starts, and it brings the service up only after a status query, or after waiting when restarting |
| Tunnels.Start | tunnel.go:44-58 | a failed preparation is returned with the registry unchanged and no command issued; otherwise the host and outcome are those of the start protocol on the prepared host; it passes exactly when preparation can succeed and the protocol passes; only then is the tunnel registered under `Config.ID`, with both files in place |
| Tunnels.StartServiceReadsSupervise | tunnel.go:93-131 | the start protocol reads the filesystem only through the stat of the `supervise` path: two hosts on which that stat answers alike, with the same command history, give the same outcome and commands |
| Tunnels.StartOutcome | tunnel.go:44-131 | `Start` passes exactly when the service can be prepared on the starting host and the start protocol would pass on that same host |
| Tunnels.Stop | tunnel.go:61-70 | issues `s6-svc -d` once; its failure is returned as that command's error; on success the registry entry becomes nil while the key stays present; on failure the registry is unchanged |
| Certificates.FindAllCertificates | certificate.go:33-53 | an error exactly when the directory cannot be read; otherwise the certificates are exactly the `.pem` entries, in the order listed |
| Certificates.VerifyCertificates | certificate.go:56-68 | passes exactly when the directory can be read and holds a `.pem` entry; otherwise fails with "No certificates found" |
| Certificates.FindCertificateForHost | certificate.go:71-84 | a scan error is wrapped; the result is the first `.pem` entry whose name before `.pem` equals the host; there is no fallback, and no match gives "Unable to find certificate for <host>" |
| Certificates.FullPath | certificate.go:87-89 | the path is `/certs/` followed by exactly the name |
| Certificates.FindsOwnFile | certificate.go:71-95 | a directory that lists `<host>.pem` always yields a certificate for that host, and that certificate's name starts with `<host>.pem` |
| Certificates.FindAllExample | certificate/certificate_test.go:12-30 | of `a.tld.pem`, `b.tld.pem` and `c.tld`, only the first two are certificates |
| Certificates.VerifyExample | certificate/certificate_test.go:32-46 | a missing directory fails the check, and one `.pem` file passes it |
| Certificates.FindForHostExample | certificate/certificate_test.go:48-60 | `schaper.io` finds `schaper.io.pem` |
| Certificates.BelongsExample | certificate/certificate_test.go:62-75 | `hostname.com.pem` belongs to `hostname.com` and not to `horsename.com` |
| Certificates.FullPathExample | certificate/certificate_test.go:77-86 | `mysite.pem` is at `/certs/mysite.pem` |
| Pem.PemOnly | certificate.go:41-50 | a name is kept exactly when it is listed and ends in `.pem`; the result is never longer than the listing |
| Pem.PemOnlyAppend | certificate.go:41-50 | filtering keeps listing order: it distributes over concatenation |
| Pem.BelongsIff | certificate.go:91-95 | a name belongs to a host exactly when it is the host followed by `.pem` (and anything), with no `.pem` inside the host, or when it is the host itself containing no `.pem` |
| Pem.OwnFileBelongs | certificate.go:91-95 | `<host>.pem` is a certificate name that belongs to `host` |
| Pem.FirstBelonging | certificate.go:77-81 | the index found belongs to the host and no earlier entry does; nothing is found exactly when no entry belongs |
| Pem.FirstOfFiltered | certificate.go:71-84 | searching the `.pem` entries finds the first entry of the whole listing that is a `.pem` file belonging to the host, and finds nothing exactly when there is none |
| Runtime.ResolveFrom | handler.go:140-152 | from a given attempt on, a success is the first address of the first successful lookup, and all lookups before it failed; a failure means every lookup up to the limit failed |
| Runtime.Resolve | handler.go:133-155 | between one and five lookups; succeeds exactly when one of the first five lookups succeeds, and returns the first address of the first success; after five failures it returns the given error |
| Runtime.ResolveFirstTry | handler.go:140-152 | a first lookup that succeeds ends the loop after one attempt |
| Handler.GetLabel | handler.go:158-165 | the label's value, or "" when the label is absent; "" exactly when the label is absent or empty |
| Handler.ResolveHostname | handler.go:133-155 | `Resolve` on the container's own hostname: at most five lookups, the first address of the first success; after five failures, "Unable to connect to" and the short container ID |
| Handler.GetRootHostname | handler.go:185-196 | parses `https://` followed by the hostname; fails exactly when parsing fails, with an error naming the URL and the parser's error; otherwise the result is the domain, a dot and the TLD |
| Handler.GetCertificate | handler.go:169-181 | a root-parse error is returned unchanged, without reading the directory; otherwise the certificate search runs on the root hostname |
| Handler.StartFor | handler.go:69-103 | inspects first; an inspect error is returned; an empty or absent hostname or port label ends handling with no error and no other query; resolution comes next, and its error or the certificate error is returned with the world unchanged; once the certificate is found, `Tunnels.Start` runs on the tunnel built from the key, the address, both labels and the certificate, its host and registry become the world, and the tunnel counts as started exactly when `Start` passes; a failed `Start` still reports no error |
| Handler.HandleStartEventAsWritten | handler.go:93-100 | as written, every tunnel is registered under the empty key |
| Handler.HandleStartEvent | handler.go:69-103 | with the key corrected, a started tunnel is registered under its public hostname; otherwise the registry is unchanged |
| Handler.StartRegistersFindable | handler.go:69-103 | with the key corrected, a started tunnel is registered under the container's hostname label, and `GetTunnelForHost` returns exactly that tunnel for it |
| Handler.DieStopsFound | handler.go:107-129 | when the hostname label names a tunnel just registered on top of a registry, the die handler issues exactly that tunnel's `s6-svc -d`; it passes exactly when the command succeeds, and then the registry is the earlier one with that hostname marked stopped |
| Handler.GetTunnelForHost | handler.go:118-121 | finds a tunnel exactly when the hostname is a key holding a non-nil tunnel |
| Handler.HandleDieEvent | handler.go:107-129 | an inspect error is returned; a missing hostname label is no error; a hostname without a tunnel is an error; otherwise exactly one `s6-svc -d` is issued, and its failure is returned as that command's error; the filesystem is never touched |
| Handler.HandleEvent | handler.go:36-50 | "start" goes to the start handler, as written when `corrected` is false and with the key corrected when it is true; "die" goes to the die handler; any other status changes nothing |
| Handler.HandleContainer | handler.go:54-65 | an existing container is handled exactly as a "start" event, as written or corrected alike |
| Handler.AsWrittenDieMissesTunnel | handler.go:93-121 | as written, the die event of a container whose start launched a tunnel finds no tunnel; it reports an error and stops nothing |
| Handler.StartThenDieStops | handler.go:107-129 | with the key corrected, the die event stops exactly the tunnel the start event launched; on success its entry is marked stopped |
| Handler.StartsOnFreshHost | tunnel.go:44-58 | on a host holding only the s6 services root, where every command succeeds, any tunnel whose hostname is one path element starts |
| Handler.SiteLabelsResolve | handler.go:78-86 | the example container labelled `hera.hostname=site.tld`, `hera.port=80` yields those labels, and its hostname resolves on the first lookup; its ID has the runtime's 64 characters, so `container.ID[:12]` is defined and the short ID is its first twelve |
| Handler.SiteCertificate | handler.go:169-181 | with `site.tld.pem` in the certificate directory, the example container's certificate is found |
| Handler.SiteStarts | handler.go:69-103 | from a fresh host and an empty registry, the start event of the example container (a 64-character ID, so the slice at handler.go:81 is defined) launches a tunnel, with or without the key correction |
| Handler.SiteDieAsWritten | handler.go:93-121 | as written, the example container's (64-character ID) tunnel is registered under "" only, and its die event fails with "No tunnel exists for site.tld" and changes nothing |
| Handler.SiteDieCorrected | handler.go:107-129 | with the key corrected, the example container's (64-character ID) tunnel is registered under `site.tld`, and its die event issues `s6-svc -d /var/run/s6/services/site.tld`, passes and marks the entry stopped |
| TunnelPkg.AsRoot | tunnel/tunnel.go:18-28 | the split configuration seen as the root one: same address, hostname, port, certificate and service |
| TunnelPkg.New | tunnel/tunnel.go:30-40 | names the service after the hostname, with the same layout as the root constructor |
| TunnelPkg.Get | tunnel/tunnel.go:42-50 | finds a tunnel exactly when the hostname is a key; otherwise the error is "No tunnel exists for <hostname>" |
| TunnelPkg.Start | tunnel/tunnel.go:52-66 | a failed preparation is returned with the registry unchanged; otherwise the host and outcome are those of the start protocol on the prepared host; only when both succeed is the tunnel registered under its hostname |
| TunnelPkg.Stop | tunnel/tunnel.go:68-77 | issues `s6-svc -d` once, and its failure is returned as that command's error; the registry is never modified |
| TunnelPkg.StartThenGet | tunnel/tunnel.go:42-66 | a started tunnel is found again by its hostname |
| TunnelPkg.StopKeepsRegistration | tunnel/tunnel.go:68-77 | a stopped tunnel is still returned by `Get` |
| TunnelPkg.StartAgreesWithRoot | tunnel/tunnel.go:79-170 | the split package writes the same files, issues the same commands and reports the same outcome as the root package |
| HeraService.Shared | hera/service.go:35-55 | every path is keyed by the tunnel hostname: `/var/run/s6/services/<tunnel hostname>` and the files below it, plus `/var/log/hera/<tunnel hostname>.log` |
| HeraService.PathsFollowTunnelHostname | hera/service.go:35-55 | services with the same tunnel hostname share every path, whatever their container hostnames; different tunnel hostnames share neither service nor log path |
| HeraService.PathExamples | hera/service_test.go:27-69 | container `f56540dbf360` serving `site.tld` gets the paths the tests expect |
| HeraService.Restart | hera/service.go:97-109 | waits with `s6-svwait -d`, then restarts with `s6-svc -wr`; when the wait fails nothing else is issued; either command's failure is returned as its error |
| HeraService.RestartAgainstRoot | hera/service.go:97-109 | compared with the root restart, only the second command differs: `-wr` instead of `-u` |
| HeraTunnel.NewTunnel | hera/tunnel.go:30-55 | the service is `/etc/services.d/<h>` with `run` and `config.yml` below it; the link is `/var/run/s6/services/<h>`; the log is `/var/log/hera/<h>.log` |
| HeraTunnel.FilesInServiceDir | hera/tunnel.go:30-55 | both generated files are named directly inside the service directory, so each can be created only once that directory exists |
| HeraTunnel.PathsDistinct | hera/tunnel.go:30-55 | the service directory, the s6 link and the two files are four different paths |
| HeraTunnel.ConfigFileFormat | hera/tunnel.go:112-131 | read back line by line, the configuration is `hostname`, `url: <container hostname>:<port>` and the log path, each ending in a newline |
| HeraTunnel.RunFileFormat | hera/tunnel.go:135-161 | the launcher is `#!/usr/bin/with-contenv sh`, a newline, and `exec cloudflared --config /etc/services.d/<h>/config.yml` |
| HeraTunnel.PrepareService | hera/tunnel.go:100-109 | makes the directory only when stat reports it missing, and then fails exactly when it cannot be made: outside an existing directory or on an unwritable path; an existing path, or a stat error of another kind (an unreadable path, or "not a directory" below a regular file), is passed over with no error and no change |
| HeraTunnel.GenerateConfigFile | hera/tunnel.go:112-131 | fails exactly when the file cannot be created: its directory is missing, or the path is unwritable or a directory; otherwise the file holds the configuration and nothing else has changed |
| HeraTunnel.GenerateRunFile | hera/tunnel.go:135-161 | fails exactly when the file cannot be created: its directory is missing, or the path is unwritable or a directory; otherwise it holds the launcher with mode 0755 |
| HeraTunnel.StartService | hera/tunnel.go:164-183 | when the s6 link stats, issues only `s6-svc -u` on it; otherwise links the service directory there, inside the s6 services root, and issues only `s6-svscanctl -a`; a link that cannot be made is an error with no command issued |
| HeraTunnel.Start | hera/tunnel.go:58-87 | the four steps run in order, each on the host the previous one left; the first failing step's host and error are the result; when all four pass, the result is that of `StartService`; at most one command is issued, and on success it is the up or rescan command; when the four paths are distinct, as `NewTunnel` lays them out, a command is issued only once both files are in place, the launcher with mode 0755 |
| HeraTunnel.Stop | hera/tunnel.go:90-97 | issues `s6-svc -d` on the `/etc/services.d` path and changes nothing else; no error reaches the caller |
| HeraCertificate.NewCertificateConfig | hera/certificate.go:26-32 | certificates are looked up in `/certs` |
| HeraCertificate.NewCertificate | hera/certificate.go:34-43 | keeps the name and uses the `/certs` configuration |
| HeraCertificate.NewDefaultCertificate | hera/certificate.go:45-54 | the default certificate is `cert.pem`, at `/certs/cert.pem` |
| HeraCertificate.FullPath | hera/certificate.go:120-122 | the configured directory, a slash, then exactly the name |
| HeraCertificate.ScanAll | hera/certificate.go:70-90 | an error exactly when the directory cannot be read; otherwise exactly the `.pem` entries, in the order listed |
| HeraCertificate.ScanAllExamples | hera/certificate_test.go:34-70 | an empty directory gives no certificate; three `.pem` files give three |
| HeraCertificate.CheckCertificates | hera/certificate.go:56-68 | passes exactly when the directory can be read and holds a `.pem` entry; otherwise fails with the certificate-needed message |
| HeraCertificate.IsExist | hera/certificate.go:124-131 | true exactly when the file can be stat'ed and exists; a stat error counts as absent |
| HeraCertificate.FindCertificateForHost | hera/certificate.go:92-112 | a scan error is wrapped, before the default is tried; a belonging `.pem` entry wins; with none, the result is the default `cert.pem` exactly when that file exists, and otherwise an error naming both candidates |
| HeraCertificate.OwnFileBeforeDefault | hera/certificate.go:92-112 | a listed `<host>.pem` is found ahead of the fallback, whether or not `cert.pem` exists |
| HeraCertificate.BelongsExample | hera/certificate_test.go:72-84 | `hostname.com.pem` belongs to `hostname.com` and not to `horsename.com` |
| HeraContainer.HasRequiredLabels | hera/container.go:61-74 | true exactly when both label keys are present, whatever their values |
| HeraContainer.HasRequiredLabelsExamples | hera/container_test.go:5-26 | the test's three cases: no labels fails, only the hostname label fails, both labels pass; a fourth case beyond the test: empty values pass too, since only the keys are checked |
| HeraContainer.ResolveHostname | hera/container.go:76-98 | at most five lookups; every lookup before the last one made failed, so the address is the first address of the first success; a failure comes after exactly five lookups, with an error naming the container |
| HeraContainer.GetHostname | hera/container.go:100-107 | fails with "No hera.hostname label" exactly when the label is absent or empty |
| HeraContainer.GetPort | hera/container.go:109-116 | fails with "No hera.port label" exactly when the label is absent or empty |
| HeraContainer.RootUrl | hera/container.go:139-141 | the result always starts with "http"; a hostname already starting with "http" is kept; any other hostname gets `https://` in front |
| HeraContainer.RootUrlIdempotent | hera/container.go:139-141 | adding the scheme twice is the same as adding it once |
| HeraContainer.GetRootHost | hera/container.go:133-150 | a hostname-label error is returned; otherwise parses the scheme-prefixed hostname, fails exactly when parsing fails, and otherwise joins domain and TLD with a dot |
| HeraContainer.GetCertificate | hera/container.go:118-131 | a root-host error is returned unchanged, without reading the directory; otherwise the fallback search runs on the root host |
| HeraContainer.TryTunnel | hera/container.go:35-59 | resolves first; a resolution failure is returned after five lookups and before any label is read; a missing hostname label, then a missing port label, is returned before any certificate query; with both labels present, the result is a tunnel's parts exactly when the certificate is found, and otherwise the certificate error; a result carries the resolved address, both labels, the container hostname and the certificate found |
| Hera.HandleStartEvent | hera/hera.go:87-115 | a container missing either label key is ignored; a single failed lookup ends handling unchanged; otherwise the tunnel is recorded under the container's internal hostname, whatever `Start` reports |
| Hera.HandleDieEvent | hera/hera.go:117-128 | an inspect error or an unrecorded hostname changes nothing; otherwise the recorded tunnel's stop command is issued; the record is kept |
| Hera.HandleEvent | hera/hera.go:73-82 | "start" and "die" go to their handlers; other events change nothing |
| Hera.StartThenDie | hera/hera.go:87-128 | after a labelled, resolvable container starts, its die event issues `s6-svc -d /etc/services.d/<label>`, even when the start failed |
| Hera.SharedHostnameOverwrites | hera/hera.go:101-109 | two containers with the same internal hostname share one record, and the later start replaces the earlier tunnel |

## Left out

- Logging, the sleeps between lookups, the event-listening loops, `main`, the
  listeners and the runtime client wrappers: output and plumbing, with no
  decision in them.
- `filepath.Join` cleaning (`..`, duplicate slashes): names are joined
  literally, and a hostname is treated as one clean path element.
- The s6 commands do not change the modelled filesystem. For example, s6
  itself creates `supervise/`; the command oracle's answers stand for that.
- Only a path's own directory is checked when it is created; the model's
  filesystem does not insist that every ancestor exists.
- `os.Stat` reports "not a directory" only when the path's own directory is
  a regular file, in line with the creation rule above.
- Listing order: `afero.ReadDir` returns the entries sorted by name, so the
  first belonging certificate is the name-least one. The `Listing` oracle
  may list entries in any order; every property stated here holds for every
  order, the sorted one included.
- Symbolic links are not followed. `os.Stat` on the older revision's s6 link
  succeeds when the link exists, even if its target is missing.
- Buffered-writer errors in the older revision's file generation are ignored
  by the source. The model writes the whole content at once.
- File modes are kept as plain numbers. The process umask is not modelled.
- `tld.Parse` and its public-suffix list are an oracle. The root-domain test
  cases cannot be checked against it.
- `net.LookupHost`, container inspection and the `s6` commands are oracles.
- Handler.ResolveHostname: `container.ID[:12]` panics on IDs shorter than
  twelve characters, both in this error message and in the start handler's
  log line. The model shortens the ID to at most
  twelve characters instead. Runtime IDs are 64 characters long.
- Handler.GetTunnelForHost: it is called in `handler.go` but defined nowhere
  in that revision. It is modelled as a lookup of the hostname key that
  rejects nil entries. Its error text is chosen to match the split package.
- Hera.HandleStartEvent: it requires a successful inspection. On an inspect
  error the source logs the error and then dereferences a nil configuration,
  which panics.
- Hera.HandleEvent: it requires a successful inspection for "start" events,
  for the same reason.
- HeraContainer.TryTunnel: it returns the parts a tunnel is built from, not a
  tunnel. The five-argument `NewTunnel` it calls is not part of this model,
  and neither is the one in the stale `hera/tunnel_test.go`.
- HeraContainer.GetCertificate: the existence check of the default
  certificate is not recorded in the trace of outside queries.
- The stale `hera/certificate_test.go` expectation of `/root/.cloudflared` is
  not modelled. The code uses `/certs`.

## Findings

| source | as written | input that shows it | evidently intended | confidence | as-written member | corrected member |
|---|---|---|---|---|---|---|
| handler.go:93-97 | `handleStartEvent` builds the tunnel configuration without setting `ID`. `Start` registers tunnels under `Config.ID` (tunnel.go:55), so every tunnel lands under "" and replaces the previous one. `handleDieEvent` looks the tunnel up by hostname (handler.go:118), so it never finds the tunnel and the tunnel keeps running | a container with a 64-character ID, labelled `hera.hostname=site.tld`, starts successfully on a fresh host with an empty registry, then dies: the die handler reports "No tunnel exists for site.tld" and issues no stop command (`Handler.SiteDieAsWritten`; corrected: `Handler.SiteDieCorrected`) | the die event stops the tunnel its start event launched, which means registering it under the key the die handler looks up, as the later `tunnel` package does with the hostname | high (not executed) | Handler.AsWrittenDieMissesTunnel | Handler.StartThenDieStops |
