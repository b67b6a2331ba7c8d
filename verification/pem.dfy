/** Certificate file matching shared by all three revisions: a certificate
    is a directory entry ending in ".pem", and it belongs to the host equal
    to its name up to the first ".pem". */
module Pem {
  import opened Wrappers
  import opened Text

  const Extension := ".pem"

  /** `strings.HasSuffix(name, ".pem")`. */
  predicate IsPem(name: string) {
    HasSuffix(name, Extension)
  }

  /** The ".pem" entries of a directory listing, in listing order. */
  function PemOnly(names: seq<string>): (r: seq<string>)
    ensures forall x :: x in r <==> x in names && IsPem(x)
    ensures |r| <= |names|
    decreases |names|
  {
    if |names| == 0 then []
    else (if IsPem(names[0]) then [names[0]] else []) + PemOnly(names[1..])
  }

  /** Filtering keeps the listing's order: it distributes over concatenation. */
  lemma {:induction false} PemOnlyAppend(a: seq<string>, b: seq<string>)
    ensures PemOnly(a + b) == PemOnly(a) + PemOnly(b)
    decreases |a|
  {
    if |a| > 0 {
      assert (a + b)[1..] == a[1..] + b;
      PemOnlyAppend(a[1..], b);
    } else {
      assert a + b == b;
    }
  }

  /** A listing of ".pem" files is kept whole. */
  lemma {:induction false} PemOnlyOfPem(names: seq<string>)
    requires forall i :: 0 <= i < |names| ==> IsPem(names[i])
    ensures PemOnly(names) == names
    decreases |names|
  {
    if |names| > 0 {
      PemOnlyOfPem(names[1..]);
    }
  }

  /** A ".pem" name contains ".pem". */
  lemma PemNameContainsExtension(name: string)
    requires IsPem(name)
    ensures Contains(name, Extension)
  {
    assert OccursAt(name, Extension, |name| - |Extension|);
  }

  /** `strings.Split(name, ".pem")[0]`. */
  function Base(name: string): string {
    BeforeFirst(name, Extension)
  }

  /** `belongsToHost`: the host is the name before the first ".pem". */
  predicate Belongs(name: string, host: string) {
    host == Base(name)
  }

  /** A name belongs to `host` exactly when it is `host` followed by ".pem"
      (and possibly more) with no ".pem" inside `host`, or when it is `host`
      itself holding no ".pem" at all. */
  lemma BelongsIff(name: string, host: string)
    ensures Belongs(name, host) <==>
      (HasPrefix(name, host + Extension) && !Contains(host, Extension)) ||
      (name == host && !Contains(name, Extension))
  {
    assert Extension[1..] == "pem";
    BeforeFirstIff(name, host, Extension);
  }

  /** The file named after a host belongs to it. */
  lemma OwnFileBelongs(host: string)
    requires !Contains(host, Extension)
    ensures Belongs(host + Extension, host)
    ensures IsPem(host + Extension)
  {
    BelongsIff(host + Extension, host);
    assert (host + Extension)[..|host + Extension|] == host + Extension;
  }

  /** The index of the first name belonging to `host`, if any. */
  function FirstBelonging(names: seq<string>, host: string): (r: Option<nat>)
    ensures r.Some? ==> r.value < |names| && Belongs(names[r.value], host)
    ensures r.Some? ==> forall j :: 0 <= j < r.value ==> !Belongs(names[j], host)
    ensures r.None? <==> forall j :: 0 <= j < |names| ==> !Belongs(names[j], host)
    decreases |names|
  {
    if |names| == 0 then None
    else if Belongs(names[0], host) then Some(0)
    else
      match FirstBelonging(names[1..], host)
      case None => None
      case Some(k) => Some(k + 1)
  }

  /** A certificate directory as `ReadDir` reports it: the entry names, or
      the error of reading it. `ReadDir` sorts the names; the listing here
      may hold them in any order. */
  type Listing = Result<seq<string>>

  /** `i` is the first entry of `names` that is a ".pem" file belonging to `host`. */
  predicate FirstFor(names: seq<string>, host: string, i: int) {
    && 0 <= i < |names|
    && IsPem(names[i]) && Belongs(names[i], host)
    && forall j :: 0 <= j < i ==> !(IsPem(names[j]) && Belongs(names[j], host))
  }

  /** A first match in the tail is the first match of the whole listing
      when the head does not match. */
  lemma FirstForShift(names: seq<string>, host: string, i: int)
    requires |names| > 0 && !(IsPem(names[0]) && Belongs(names[0], host))
    requires FirstFor(names[1..], host, i)
    ensures FirstFor(names, host, i + 1)
  {
    forall j | 0 <= j < i + 1
      ensures !(IsPem(names[j]) && Belongs(names[j], host))
    {
      if j > 0 { assert names[j] == names[1..][j - 1]; }
    }
  }

  /** No match in the tail and none at the head is no match at all. */
  lemma NoneShift(names: seq<string>, host: string)
    requires |names| > 0 && !(IsPem(names[0]) && Belongs(names[0], host))
    requires forall j :: 0 <= j < |names| - 1 ==> !(IsPem(names[1..][j]) && Belongs(names[1..][j], host))
    ensures forall j :: 0 <= j < |names| ==> !(IsPem(names[j]) && Belongs(names[j], host))
  {
    forall j | 0 <= j < |names|
      ensures !(IsPem(names[j]) && Belongs(names[j], host))
    {
      if j > 0 { assert names[j] == names[1..][j - 1]; }
    }
  }

  /** Searching the filtered listing finds the first matching ".pem" entry of
      the whole listing, and finds nothing exactly when no entry matches. */
  lemma {:induction false} FirstOfFiltered(names: seq<string>, host: string)
    ensures FirstBelonging(PemOnly(names), host).None? <==>
      forall j :: 0 <= j < |names| ==> !(IsPem(names[j]) && Belongs(names[j], host))
    ensures FirstBelonging(PemOnly(names), host).Some? ==>
      exists i :: FirstFor(names, host, i) && names[i] == PemOnly(names)[FirstBelonging(PemOnly(names), host).value]
    decreases |names|
  {
    if |names| > 0 {
      var rest := names[1..];
      FirstOfFiltered(rest, host);
      var fr := FirstBelonging(PemOnly(rest), host);
      if IsPem(names[0]) {
        assert PemOnly(names) == [names[0]] + PemOnly(rest);
        assert PemOnly(names)[1..] == PemOnly(rest);
        if Belongs(names[0], host) {
          assert FirstFor(names, host, 0);
          return;
        }
      } else {
        assert PemOnly(names) == PemOnly(rest);
      }
      if fr.Some? {
        var i :| FirstFor(rest, host, i) && rest[i] == PemOnly(rest)[fr.value];
        FirstForShift(names, host, i);
      } else {
        NoneShift(names, host);
      }
    }
  }
}
