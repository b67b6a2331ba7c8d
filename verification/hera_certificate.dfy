/** hera/certificate.go of the older revision: the same ".pem" scan and
    name match as the root package, but a host with no certificate of its
    own falls back to the default `cert.pem` when that file exists. */
module HeraCertificate {
  import opened Wrappers
  import opened Text
  import opened Os
  import opened Pem

  const DefaultCertificateName := "cert.pem"
  const DefaultCertificatePath := "/certs"

  /** The error `checkCertificates` reports. */
  const CertificateIsNeededMessage :=
    "\n Hera is unable to run without a cloudflare certificate. To fix this issue:" +
    "\n\n 1. Ensure this container has a volume mapped to `" + DefaultCertificatePath + "`" +
    "\n 2. Obtain a certificate by visiting https://www.cloudflare.com/a/warp" +
    "\n 3. Rename the certificate to your hostname (e.g.: `mysite.com`) and move it to the volume" +
    "\n\n See https://github.com/aschzero/hera#obtain-a-certificate for more info.\n"

  datatype CertificateConfig = CertificateConfig(path: string)

  datatype Certificate = Certificate(name: string, config: CertificateConfig)

  /** `NewCertificateConfig`: certificates live in `/certs`. */
  function NewCertificateConfig(): (c: CertificateConfig)
    ensures c.path == "/certs" && c.path != ""
  {
    CertificateConfig(DefaultCertificatePath)
  }

  function NewCertificate(name: string): (c: Certificate)
    ensures c.name == name && c.config.path == "/certs"
  {
    Certificate(name, NewCertificateConfig())
  }

  /** `NewDefaultCertificate`: `/certs/cert.pem`. */
  function NewDefaultCertificate(): (c: Certificate)
    ensures c.name == "cert.pem" && FullPath(c) == "/certs/cert.pem"
  {
    NewCertificate(DefaultCertificateName)
  }

  /** `fullPath`: the certificate's name under its configured directory. */
  function FullPath(c: Certificate): (p: string)
    ensures HasPrefix(p, c.config.path + "/") && p[|c.config.path| + 1..] == c.name
  {
    PathJoin(c.config.path, c.name)
  }

  function Wrap(names: seq<string>): (r: seq<Certificate>)
    ensures |r| == |names| && forall i :: 0 <= i < |names| ==> r[i] == NewCertificate(names[i])
  {
    seq(|names|, i requires 0 <= i < |names| => NewCertificate(names[i]))
  }

  /** `scanAll`: the ".pem" entries of the certificate directory, in the
      order listed; a directory that cannot be read is an error. */
  function ScanAll(dir: Listing): (r: Result<seq<Certificate>>)
    ensures r.Err? <==> dir.Err?
    ensures r.Ok? ==> |r.value| == |PemOnly(dir.value)|
    ensures r.Ok? ==> forall i :: 0 <= i < |r.value| ==> r.value[i] == NewCertificate(PemOnly(dir.value)[i])
    ensures r.Ok? ==> forall name :: NewCertificate(name) in r.value <==> name in dir.value && IsPem(name)
  {
    match dir
    case Err(e) => Err(e)
    case Ok(names) =>
      var certs := Wrap(PemOnly(names));
      assert forall name :: NewCertificate(name) in certs <==> name in PemOnly(names) by {
        forall name ensures NewCertificate(name) in certs <==> name in PemOnly(names) {
          if name in PemOnly(names) {
            var i :| 0 <= i < |PemOnly(names)| && PemOnly(names)[i] == name;
            assert certs[i] == NewCertificate(name);
          }
        }
      }
      Ok(certs)
  }

  /** The scans of the tests: an empty directory yields nothing, three
      ".pem" files yield three certificates. */
  lemma ScanAllExamples()
    ensures ScanAll(Ok([])) == Ok([])
    ensures ScanAll(Ok(["a.pem", "b.pem", "c.pem"])).Ok? && |ScanAll(Ok(["a.pem", "b.pem", "c.pem"])).value| == 3
  {
    var names := ["a.pem", "b.pem", "c.pem"];
    assert IsPem(names[0]) && IsPem(names[1]) && IsPem(names[2]);
    PemOnlyOfPem(names);
  }

  /** `checkCertificates`: fails exactly when the directory cannot be read or
      holds no ".pem" file. */
  function CheckCertificates(dir: Listing): (r: Outcome)
    ensures r.Pass? <==> dir.Ok? && exists x :: x in dir.value && IsPem(x)
    ensures r.Fail? ==> r.error == CertificateIsNeededMessage
  {
    match ScanAll(dir)
    case Err(_) => Fail(CertificateIsNeededMessage)
    case Ok(certs) =>
      if |certs| == 0 then Fail(CertificateIsNeededMessage)
      else
        assert PemOnly(dir.value)[0] in PemOnly(dir.value);
        Pass
  }

  /** `belongsToHost`. */
  predicate BelongsToHost(c: Certificate, host: string) {
    Belongs(c.name, host)
  }

  /** `isExist`: whether the certificate file exists; a failing check counts
      as absent. */
  function IsExist(fs: Fs, c: Certificate): (b: bool)
    ensures b <==> !StatFails(fs, FullPath(c)) && FullPath(c) in fs.nodes
  {
    match Exists(fs, FullPath(c))
    case Err(_) => false
    case Ok(b) => b
  }

  /** `findCertificateForHost`: the first ".pem" entry belonging to the
      host; failing that the default certificate when its file exists. A
      directory that cannot be read is an error before the default is tried. */
  function FindCertificateForHost(hostname: string, dir: Listing, fs: Fs): (r: Result<Certificate>)
    ensures dir.Err? ==> r == Err("Unable to scan for available certificates: " + dir.error)
    ensures dir.Ok? && (exists i :: FirstFor(dir.value, hostname, i)) ==>
      r.Ok? && exists i :: FirstFor(dir.value, hostname, i) && r.value == NewCertificate(dir.value[i])
    ensures dir.Ok? && (forall j :: 0 <= j < |dir.value| ==> !(IsPem(dir.value[j]) && Belongs(dir.value[j], hostname))) ==>
      && (r.Ok? <==> IsExist(fs, NewDefaultCertificate()))
      && (r.Ok? ==> r.value == NewDefaultCertificate())
      && (r.Err? ==>
            r.error == "Couldn't find certificate. Tried searching for both `" + hostname + ".pem` and `" + DefaultCertificateName + "`")
  {
    match ScanAll(dir)
    case Err(e) => Err("Unable to scan for available certificates: " + e)
    case Ok(certs) =>
      FirstOfFiltered(dir.value, hostname);
      match FirstBelonging(PemOnly(dir.value), hostname)
      case Some(i) =>
        assert !(forall j :: 0 <= j < |dir.value| ==> !(IsPem(dir.value[j]) && Belongs(dir.value[j], hostname)));
        Ok(certs[i])
      case None =>
        var default := NewDefaultCertificate();
        if !IsExist(fs, default) then
          Err("Couldn't find certificate. Tried searching for both `" + hostname + ".pem` and `" + default.name + "`")
        else Ok(default)
  }

  /** The fallback is taken only when nothing matches: a host whose own
      file is listed gets a file named after it, whether or not `cert.pem`
      exists. */
  lemma OwnFileBeforeDefault(hostname: string, names: seq<string>, fs: Fs)
    requires !Contains(hostname, Extension)
    requires hostname + Extension in names
    ensures FindCertificateForHost(hostname, Ok(names), fs).Ok?
    ensures HasPrefix(FindCertificateForHost(hostname, Ok(names), fs).value.name, hostname + Extension)
  {
    OwnFileBelongs(hostname);
    var k :| 0 <= k < |names| && names[k] == hostname + Extension;
    assert IsPem(names[k]) && Belongs(names[k], hostname);
    FirstOfFiltered(names, hostname);
    assert FirstBelonging(PemOnly(names), hostname).Some?;
    assert exists i :: FirstFor(names, hostname, i);
    var r := FindCertificateForHost(hostname, Ok(names), fs);
    var i :| FirstFor(names, hostname, i) && r.value == NewCertificate(names[i]);
    PemNameContainsExtension(names[i]);
    BelongsIff(names[i], hostname);
  }

  /** "hostname.com.pem" belongs to "hostname.com" and not to "horsename.com". */
  lemma BelongsExample()
    ensures BelongsToHost(NewCertificate("hostname.com.pem"), "hostname.com")
    ensures !BelongsToHost(NewCertificate("hostname.com.pem"), "horsename.com")
  {
    var host := "hostname.com";
    assert !Contains(host, Extension) by {
      MissingChar(host, Extension, 'p');
    }
    assert host + Extension == "hostname.com.pem";
    OwnFileBelongs(host);
    assert "hostname.com" != "horsename.com" by { assert "hostname.com"[2] != "horsename.com"[2]; }
  }
}
