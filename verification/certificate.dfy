/** certificate.go of the root package: certificates are the ".pem" files of
    `/certs`, matched to a root hostname by file name. */
module Certificates {
  import opened Wrappers
  import opened Text
  import opened Pem

  const CertificatePath := "/certs"

  datatype Certificate = Certificate(name: string)

  /** The certificates for a sequence of file names, in the same order. */
  function Wrap(names: seq<string>): (r: seq<Certificate>)
    ensures |r| == |names| && forall i :: 0 <= i < |names| ==> r[i].name == names[i]
  {
    seq(|names|, i requires 0 <= i < |names| => Certificate(names[i]))
  }

  function Names(certs: seq<Certificate>): (r: seq<string>)
    ensures |r| == |certs| && forall i :: 0 <= i < |certs| ==> r[i] == certs[i].name
  {
    seq(|certs|, i requires 0 <= i < |certs| => certs[i].name)
  }

  /** `FindAllCertificates`: the ".pem" entries of the directory, in the
      order listed; a directory that cannot be read is an error. */
  function FindAllCertificates(dir: Listing): (r: Result<seq<Certificate>>)
    ensures r.Err? <==> dir.Err?
    ensures r.Ok? ==> forall c :: c in r.value <==> c.name in dir.value && IsPem(c.name)
    ensures r.Ok? ==> Names(r.value) == PemOnly(dir.value)
  {
    match dir
    case Err(e) => Err(e)
    case Ok(names) =>
      var certs := Wrap(PemOnly(names));
      assert Names(certs) == PemOnly(names);
      assert forall c :: c in certs <==> c.name in PemOnly(names) by {
        forall c ensures c in certs <==> c.name in PemOnly(names) {
          if c.name in PemOnly(names) {
            var i :| 0 <= i < |PemOnly(names)| && PemOnly(names)[i] == c.name;
            assert certs[i] == c;
          }
        }
      }
      Ok(certs)
  }

  /** `VerifyCertificates`: fails exactly when the directory cannot be read
      or holds no ".pem" file. */
  function VerifyCertificates(dir: Listing): (r: Outcome)
    ensures r.Pass? <==> dir.Ok? && exists x :: x in dir.value && IsPem(x)
    ensures r.Fail? ==> r.error == "No certificates found"
  {
    match FindAllCertificates(dir)
    case Err(_) => Fail("No certificates found")
    case Ok(certs) =>
      if |certs| == 0 then Fail("No certificates found")
      else
        assert certs[0] in certs;
        Pass
  }

  /** `FindCertificateForHost`: the first ".pem" entry belonging to
      `hostname`; an unreadable directory or no match is an error, with no
      fallback. */
  function FindCertificateForHost(hostname: string, dir: Listing): (r: Result<Certificate>)
    ensures dir.Err? ==> r == Err("Unable to scan for available certificates: " + dir.error)
    ensures dir.Ok? ==>
      (r.Err? <==> forall j :: 0 <= j < |dir.value| ==> !(IsPem(dir.value[j]) && Belongs(dir.value[j], hostname)))
    ensures dir.Ok? && r.Err? ==> r.error == "Unable to find certificate for " + hostname
    ensures r.Ok? ==> exists i :: FirstFor(dir.value, hostname, i) && dir.value[i] == r.value.name
  {
    match FindAllCertificates(dir)
    case Err(e) => Err("Unable to scan for available certificates: " + e)
    case Ok(certs) =>
      FirstOfFiltered(dir.value, hostname);
      match FirstBelonging(Names(certs), hostname)
      case Some(i) => Ok(certs[i])
      case None => Err("Unable to find certificate for " + hostname)
  }

  /** `FullPath`: the file under the certificate directory. */
  function FullPath(c: Certificate): (p: string)
    ensures HasPrefix(p, CertificatePath + "/") && p[|CertificatePath| + 1..] == c.name
  {
    PathJoin(CertificatePath, c.name)
  }

  /** `belongsToHost`. */
  predicate BelongsToHost(c: Certificate, host: string) {
    Belongs(c.name, host)
  }

  /** A directory holding `<host>.pem` yields a certificate for `host`, and
      the one found carries `<host>.pem` at the front of its name. */
  lemma FindsOwnFile(hostname: string, names: seq<string>)
    requires !Contains(hostname, Extension)
    requires hostname + Extension in names
    ensures FindCertificateForHost(hostname, Ok(names)).Ok?
    ensures HasPrefix(FindCertificateForHost(hostname, Ok(names)).value.name, hostname + Extension)
  {
    OwnFileBelongs(hostname);
    var k :| 0 <= k < |names| && names[k] == hostname + Extension;
    assert IsPem(names[k]) && Belongs(names[k], hostname);
    var r := FindCertificateForHost(hostname, Ok(names));
    assert r.Ok?;
    var i :| FirstFor(names, hostname, i) && names[i] == r.value.name;
    PemNameContainsExtension(names[i]);
    BelongsIff(names[i], hostname);
  }

  /** Of "a.tld.pem", "b.tld.pem" and "c.tld" only the first two are certificates. */
  lemma FindAllExample()
    ensures FindAllCertificates(Ok(["a.tld.pem", "b.tld.pem", "c.tld"])) ==
      Ok([Certificate("a.tld.pem"), Certificate("b.tld.pem")])
  {
    assert IsPem("a.tld.pem") && IsPem("b.tld.pem");
    assert !IsPem("c.tld");
    assert PemOnly(["a.tld.pem", "b.tld.pem", "c.tld"]) == ["a.tld.pem", "b.tld.pem"];
    var w := Wrap(["a.tld.pem", "b.tld.pem"]);
    assert w[0] == Certificate("a.tld.pem") && w[1] == Certificate("b.tld.pem");
    assert w == [Certificate("a.tld.pem"), Certificate("b.tld.pem")];
  }

  /** A missing directory fails the check; one certificate passes it. */
  lemma VerifyExample(e: string)
    ensures VerifyCertificates(Err(e)) == Fail("No certificates found")
    ensures VerifyCertificates(Ok(["a.tld.pem"])) == Pass
  {
    assert IsPem("a.tld.pem");
  }

  /** "schaper.io.pem" is the certificate for "schaper.io". */
  lemma FindForHostExample()
    ensures FindCertificateForHost("schaper.io", Ok(["schaper.io.pem"])) == Ok(Certificate("schaper.io.pem"))
  {
    var host := "schaper.io";
    assert !Contains(host, Extension) by {
      MissingChar(host, Extension, 'm');
    }
    assert host + Extension == "schaper.io.pem";
    FindsOwnFile(host, ["schaper.io.pem"]);
  }

  /** "hostname.com.pem" belongs to "hostname.com" and not to "horsename.com". */
  lemma BelongsExample()
    ensures BelongsToHost(Certificate("hostname.com.pem"), "hostname.com")
    ensures !BelongsToHost(Certificate("hostname.com.pem"), "horsename.com")
  {
    var host := "hostname.com";
    assert !Contains(host, Extension) by {
      MissingChar(host, Extension, 'p');
    }
    assert host + Extension == "hostname.com.pem";
    OwnFileBelongs(host);
    assert "hostname.com" != "horsename.com" by { assert "hostname.com"[2] != "horsename.com"[2]; }
  }

  /** "mysite.pem" lives at "/certs/mysite.pem". */
  lemma FullPathExample()
    ensures FullPath(Certificate("mysite.pem")) == "/certs/mysite.pem"
  {
  }
}
