/** What the engine learns from outside: inspected containers, DNS answers
    and the public-suffix parser, each given as an oracle. */
module Runtime {
  import opened Wrappers

  /** An inspected container: its ID, its own network hostname
      (`Config.Hostname`) and its labels. */
  datatype Container = Container(id: string, hostname: string, labels: map<string, string>)

  /** A runtime event: its status ("start", "die", ...) and container ID. */
  datatype Event = Event(status: string, id: string)

  /** A successful `net.LookupHost` answer is never empty. */
  type Addrs = s: seq<string> | |s| > 0 witness [""]

  /** The DNS oracle: the answer to the attempt with the given number
      (counting from 0) to resolve a host. */
  type Lookup = (nat, string) -> Result<Addrs>

  /** The part of `tld.Parse`'s result the engine reads. */
  datatype Url = Url(domain: string, tld: string)

  /** `tld.Parse`, which depends on the public-suffix list. */
  type UrlParser = string -> Result<Url>

  /** An outside query the engine made, in the order made. */
  datatype Probe = Inspect(id: string) | LookupHost(host: string) | ParseUrl(url: string) | ReadCerts

  /** How many lookups `resolveHostname` makes at most. */
  const MaxAttempts: nat := 5

  /** A resolved address (or the final error) and the number of lookups made. */
  datatype Resolution = Resolution(address: Result<string>, attempts: nat)

  /** The retry loop of `resolveHostname` from attempt `attempt` on: each
      failed lookup is followed by another until `max` lookups were made; the
      first successful one yields its first address. */
  function ResolveFrom(lookup: Lookup, host: string, attempt: nat, max: nat, failure: string): (r: Resolution)
    requires attempt <= max
    ensures attempt <= r.attempts <= max
    ensures r.address.Ok? ==>
      && attempt < r.attempts
      && lookup(r.attempts - 1, host).Ok?
      && r.address.value == lookup(r.attempts - 1, host).value[0]
      && forall k :: attempt <= k < r.attempts - 1 ==> lookup(k, host).Err?
    ensures r.address.Err? ==>
      && r.attempts == max
      && r.address.error == failure
      && forall k :: attempt <= k < max ==> lookup(k, host).Err?
    decreases max - attempt
  {
    if attempt == max then Resolution(Err(failure), max)
    else match lookup(attempt, host)
      case Ok(addrs) => Resolution(Ok(addrs[0]), attempt + 1)
      case Err(_) => ResolveFrom(lookup, host, attempt + 1, max, failure)
  }

  /** `resolveHostname`: at most five lookups; the error `failure` after five
      failures. */
  function Resolve(lookup: Lookup, host: string, failure: string): (r: Resolution)
    ensures 1 <= r.attempts <= MaxAttempts
    ensures r.address.Ok? <==> exists k :: 0 <= k < MaxAttempts && lookup(k, host).Ok?
    ensures r.address.Ok? ==>
      lookup(r.attempts - 1, host).Ok? && r.address.value == lookup(r.attempts - 1, host).value[0]
    ensures forall k :: 0 <= k < r.attempts - 1 ==> lookup(k, host).Err?
    ensures r.address.Err? ==> r.attempts == MaxAttempts && r.address.error == failure
  {
    ResolveFrom(lookup, host, 0, MaxAttempts, failure)
  }

  /** A first lookup that succeeds ends the loop at once. */
  lemma ResolveFirstTry(lookup: Lookup, host: string, failure: string)
    requires lookup(0, host).Ok?
    ensures Resolve(lookup, host, failure) == Resolution(Ok(lookup(0, host).value[0]), 1)
  {
  }

  /** `n` lookups of `host`, as a trace. */
  function Lookups(host: string, n: nat): (t: seq<Probe>)
    ensures |t| == n && forall i :: 0 <= i < n ==> t[i] == LookupHost(host)
  {
    seq(n, _ => LookupHost(host))
  }
}
