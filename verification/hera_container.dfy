/** hera/container.go of the older revision: reading a container's labels,
    resolving its hostname and finding its certificate, in the order
    `tryTunnel` does them. */
module HeraContainer {
  import opened Wrappers
  import opened Text
  import opened Os
  import opened Runtime
  import Pem
  import HeraCertificate

  const Required := ["hera.hostname", "hera.port"]

  /** Every name of `names` is a label key, whatever its value. */
  function AllPresent(labels: map<string, string>, names: seq<string>): (b: bool)
    ensures b <==> forall i :: 0 <= i < |names| ==> names[i] in labels
    decreases |names|
  {
    if |names| == 0 then true
    else names[0] in labels && AllPresent(labels, names[1..])
  }

  /** `hasRequiredLabels`: both labels are present; empty values count. */
  function HasRequiredLabels(c: Container): (b: bool)
    ensures b <==> "hera.hostname" in c.labels && "hera.port" in c.labels
  {
    AllPresent(c.labels, Required)
  }

  /** The label cases of the tests: none, only the hostname, both; and two
      empty values, which still count as present. */
  lemma HasRequiredLabelsExamples(id: string, hostname: string)
    ensures !HasRequiredLabels(Container(id, hostname, map[]))
    ensures !HasRequiredLabels(Container(id, hostname, map["hera.hostname" := "address"]))
    ensures HasRequiredLabels(Container(id, hostname, map["hera.hostname" := "address", "hera.port" := "80"]))
    ensures HasRequiredLabels(Container(id, hostname, map["hera.hostname" := "", "hera.port" := ""]))
  {
    assert "hera.port" != "hera.hostname" by { assert "hera.port"[5] != "hera.hostname"[5]; }
  }

  /** `resolveHostname`: at most five lookups of the container's hostname. */
  function ResolveHostname(lookup: Lookup, c: Container): (r: Resolution)
    ensures 1 <= r.attempts <= MaxAttempts
    ensures r.address.Ok? <==> exists k :: 0 <= k < MaxAttempts && lookup(k, c.hostname).Ok?
    ensures r.address.Ok? ==>
      lookup(r.attempts - 1, c.hostname).Ok? && r.address.value == lookup(r.attempts - 1, c.hostname).value[0]
    ensures forall k :: 0 <= k < r.attempts - 1 ==> lookup(k, c.hostname).Err?
    ensures r.address.Err? ==>
      r.attempts == MaxAttempts && r.address.error == "Unable to resolve hostname for container " + c.id
  {
    Resolve(lookup, c.hostname, "Unable to resolve hostname for container " + c.id)
  }

  /** A label that is absent or empty is an error. */
  function NonEmptyLabel(c: Container, name: string, error: string): (r: Result<string>)
    ensures r.Ok? <==> name in c.labels && c.labels[name] != ""
    ensures r.Ok? ==> r.value == c.labels[name]
    ensures r.Err? ==> r.error == error
  {
    if name !in c.labels || c.labels[name] == "" then Err(error) else Ok(c.labels[name])
  }

  /** `getHostname`. */
  function GetHostname(c: Container): (r: Result<string>)
    ensures r.Ok? <==> "hera.hostname" in c.labels && c.labels["hera.hostname"] != ""
    ensures r.Ok? ==> r.value == c.labels["hera.hostname"]
    ensures r.Err? ==> r.error == "No hera.hostname label"
  {
    NonEmptyLabel(c, "hera.hostname", "No hera.hostname label")
  }

  /** `getPort`. */
  function GetPort(c: Container): (r: Result<string>)
    ensures r.Ok? <==> "hera.port" in c.labels && c.labels["hera.port"] != ""
    ensures r.Ok? ==> r.value == c.labels["hera.port"]
    ensures r.Err? ==> r.error == "No hera.port label"
  {
    NonEmptyLabel(c, "hera.port", "No hera.port label")
  }

  /** The URL `getRootHost` parses: "https://" is put in front unless the
      hostname already starts with "http". */
  function RootUrl(hostname: string): (u: string)
    ensures HasPrefix(u, "http")
    ensures HasPrefix(hostname, "http") ==> u == hostname
    ensures !HasPrefix(hostname, "http") ==> u == "https://" + hostname
  {
    if HasPrefix(hostname, "http") then hostname
    else
      assert ("https://" + hostname)[..4] == "http";
      "https://" + hostname
  }

  /** Adding the scheme is idempotent. */
  lemma RootUrlIdempotent(hostname: string)
    ensures RootUrl(RootUrl(hostname)) == RootUrl(hostname)
  {
  }

  /** `getRootHost`: the parsed domain and TLD joined by a dot. */
  function GetRootHost(c: Container, parse: UrlParser): (r: Result<string>)
    ensures GetHostname(c).Err? ==> r == Err("No hera.hostname label")
    ensures GetHostname(c).Ok? ==>
      var url := RootUrl(GetHostname(c).value);
      && (r.Err? <==> parse(url).Err?)
      && (r.Err? ==> r.error == parse(url).error)
      && (r.Ok? ==> r.value == parse(url).value.domain + "." + parse(url).value.tld)
  {
    match GetHostname(c)
    case Err(e) => Err(e)
    case Ok(hostname) =>
      match parse(RootUrl(hostname))
      case Err(e) => Err(e)
      case Ok(u) => Ok(u.domain + "." + u.tld)
  }

  /** A certificate lookup's answer and the queries it made. */
  datatype Found = Found(cert: Result<HeraCertificate.Certificate>, trace: seq<Probe>)

  /** `getCertificate`: searches by the root host; a root-host error is
      returned without reading the certificate directory. */
  function GetCertificate(c: Container, parse: UrlParser, dir: Pem.Listing, fs: Fs): (r: Found)
    ensures GetRootHost(c, parse).Err? ==> r.cert == Err(GetRootHost(c, parse).error) && ReadCerts !in r.trace
    ensures GetRootHost(c, parse).Ok? ==>
      && r.cert == HeraCertificate.FindCertificateForHost(GetRootHost(c, parse).value, dir, fs)
      && r.trace == [ParseUrl(RootUrl(GetHostname(c).value)), ReadCerts]
  {
    var asked := if GetHostname(c).Ok? then [ParseUrl(RootUrl(GetHostname(c).value))] else [];
    match GetRootHost(c, parse)
    case Err(e) => Found(Err(e), asked)
    case Ok(root) => Found(HeraCertificate.FindCertificateForHost(root, dir, fs), asked + [ReadCerts])
  }

  /** What `tryTunnel` hands to the tunnel constructor. */
  datatype TunnelParts = TunnelParts(ip: string, hostname: string, containerHostname: string, port: string,
                                     cert: HeraCertificate.Certificate)

  /** The parts of a tunnel, or the first error, and the queries made. */
  datatype Attempt = Attempt(parts: Result<TunnelParts>, trace: seq<Probe>)

  /** `tryTunnel`: resolves the hostname, then reads the hostname and port
      labels, then finds the certificate; the first error ends it. */
  function TryTunnel(c: Container, lookup: Lookup, parse: UrlParser, dir: Pem.Listing, fs: Fs): (r: Attempt)
    ensures var n := ResolveHostname(lookup, c).attempts;
      |r.trace| >= n && r.trace[..n] == Lookups(c.hostname, n)
    ensures ResolveHostname(lookup, c).address.Err? ==>
      r == Attempt(Err(ResolveHostname(lookup, c).address.error), Lookups(c.hostname, MaxAttempts))
    ensures ResolveHostname(lookup, c).address.Ok? && (GetHostname(c).Err? || GetPort(c).Err?) ==>
      r.parts.Err? && r.trace == Lookups(c.hostname, ResolveHostname(lookup, c).attempts)
    ensures ResolveHostname(lookup, c).address.Ok? && GetHostname(c).Err? ==> r.parts == Err("No hera.hostname label")
    ensures ResolveHostname(lookup, c).address.Ok? && GetHostname(c).Ok? && GetPort(c).Err? ==>
      r.parts == Err("No hera.port label")
    ensures ResolveHostname(lookup, c).address.Ok? && GetHostname(c).Ok? && GetPort(c).Ok? ==>
      var found := GetCertificate(c, parse, dir, fs);
      && r.trace == Lookups(c.hostname, ResolveHostname(lookup, c).attempts) + found.trace
      && (r.parts.Ok? <==> found.cert.Ok?)
      && (found.cert.Err? ==> r.parts == Err(found.cert.error))
    ensures r.parts.Ok? ==>
      && ResolveHostname(lookup, c).address.Ok?
      && r.parts.value.ip == ResolveHostname(lookup, c).address.value
      && GetHostname(c) == Ok(r.parts.value.hostname)
      && GetPort(c) == Ok(r.parts.value.port)
      && r.parts.value.containerHostname == c.hostname
      && GetCertificate(c, parse, dir, fs).cert == Ok(r.parts.value.cert)
  {
    var res := ResolveHostname(lookup, c);
    var looked := Lookups(c.hostname, res.attempts);
    match res.address
    case Err(e) => Attempt(Err(e), looked)
    case Ok(ip) =>
      match GetHostname(c)
      case Err(e) => Attempt(Err(e), looked)
      case Ok(hostname) =>
        match GetPort(c)
        case Err(e) => Attempt(Err(e), looked)
        case Ok(port) =>
          var found := GetCertificate(c, parse, dir, fs);
          match found.cert
          case Err(e) => Attempt(Err(e), looked + found.trace)
          case Ok(cert) => Attempt(Ok(TunnelParts(ip, hostname, c.hostname, port, cert)), looked + found.trace)
  }
}
