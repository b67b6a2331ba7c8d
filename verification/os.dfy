/** The environment the tunnel engine acts on: an abstract filesystem (the
    `afero.Fs`/`os` calls the source makes) and the external commands it runs
    through its `Commander`, whose answers come from an oracle. */
module Os {
  import opened Wrappers
  import opened Text

  /** What sits at a path. Symbolic links are kept only as existing entries. */
  datatype Node = Dir | File(contents: string, mode: int) | Link(target: string)

  /** Paths in `unreadable` fail to stat (an I/O or permission error that is
      not "does not exist"); paths in `unwritable` refuse to be created,
      written or changed. */
  datatype Fs = Fs(nodes: map<string, Node>, unreadable: set<string>, unwritable: set<string>)

  /** An external program invocation, `name args...`. */
  datatype Cmd = Cmd(name: string, args: seq<string>)

  /** The command oracle: given the commands issued so far and the next one,
      the program's standard output or its failure. */
  type Shell = (seq<Cmd>, Cmd) -> Result<string>

  /** The machine state: the filesystem and every command issued, in order. */
  datatype Host = Host(fs: Fs, log: seq<Cmd>)

  /** The host after an operation together with what the operation returned. */
  datatype Step<+T> = Step(host: Host, out: T)

  const ModeConfig: int := 0x1A4   // 0644
  const ModeCreate: int := 0x1B6   // 0666, what os.Create uses
  const ModeExec: int := 0x1ED     // 0755
  const ModePerm: int := 0x1FF     // 0777, os.ModePerm

  predicate IsDir(fs: Fs, p: string) {
    p in fs.nodes && fs.nodes[p].Dir?
  }

  /** `p` is a regular file with exactly `contents`. */
  predicate Holds(fs: Fs, p: string, contents: string) {
    p in fs.nodes && fs.nodes[p].File? && fs.nodes[p].contents == contents
  }

  /** `a` and `b` agree at `p`. */
  predicate SameAt(a: Fs, b: Fs, p: string) {
    (p in a.nodes <==> p in b.nodes) && (p in a.nodes ==> a.nodes[p] == b.nodes[p])
  }

  /** `b` differs from `a` at most at path `p`. */
  ghost predicate OnlyAt(a: Fs, b: Fs, p: string) {
    a.unreadable == b.unreadable && a.unwritable == b.unwritable &&
    forall q :: q != p ==> SameAt(a, b, q)
  }

  /** `os.Stat` fails with an error other than "does not exist": the path is
      unreadable, or the directory it would sit in is a regular file, which
      the operating system reports as "not a directory". */
  predicate StatFails(fs: Fs, p: string) {
    p in fs.unreadable || (Parent(p) in fs.nodes && fs.nodes[Parent(p)].File?)
  }

  /** `os.Stat`: the node, none when the path does not exist, or an error. */
  function Stat(fs: Fs, p: string): (r: Result<Option<Node>>)
    ensures r.Err? <==> StatFails(fs, p)
    ensures r.Ok? ==> (r.value.Some? <==> p in fs.nodes)
  {
    if p in fs.unreadable then Err("stat " + p + ": permission denied")
    else if Parent(p) in fs.nodes && fs.nodes[Parent(p)].File? then Err("stat " + p + ": not a directory")
    else if p in fs.nodes then Ok(Some(fs.nodes[p]))
    else Ok(None)
  }

  /** `afero.DirExists`: a stat error other than "not exist" is returned. */
  function DirExists(fs: Fs, p: string): (r: Result<bool>)
    ensures r.Err? <==> StatFails(fs, p)
    ensures r.Ok? ==> (r.value <==> IsDir(fs, p))
  {
    match Stat(fs, p)
    case Err(e) => Err(e)
    case Ok(n) => Ok(n.Some? && n.value.Dir?)
  }

  /** `afero.Exists`. */
  function Exists(fs: Fs, p: string): (r: Result<bool>)
    ensures r.Err? <==> StatFails(fs, p)
    ensures r.Ok? ==> (r.value <==> p in fs.nodes)
  {
    match Stat(fs, p)
    case Err(e) => Err(e)
    case Ok(n) => Ok(n.Some?)
  }

  /** The directory `p` would be created in exists. */
  predicate InDir(fs: Fs, p: string) {
    IsDir(fs, Parent(p))
  }

  /** Why a path cannot be created when its directory is missing or is not
      a directory. */
  function NoDirError(op: string, fs: Fs, p: string): string {
    if Parent(p) in fs.nodes then op + " " + p + ": not a directory"
    else op + " " + p + ": no such file or directory"
  }

  /** `Mkdir`: fails outside an existing directory, and on an unwritable or
      already occupied path. */
  function Mkdir(h: Host, p: string): (r: Step<Outcome>)
    ensures r.host.log == h.log
    ensures r.out.Pass? <==> InDir(h.fs, p) && p !in h.fs.unwritable && p !in h.fs.nodes
    ensures r.out.Pass? ==> IsDir(r.host.fs, p) && OnlyAt(h.fs, r.host.fs, p)
    ensures r.out.Fail? ==> r.host == h
  {
    if !InDir(h.fs, p) then Step(h, Fail(NoDirError("mkdir", h.fs, p)))
    else if p in h.fs.unwritable then Step(h, Fail("mkdir " + p + ": permission denied"))
    else if p in h.fs.nodes then Step(h, Fail("mkdir " + p + ": file exists"))
    else Step(h.(fs := h.fs.(nodes := h.fs.nodes[p := Dir])), Pass)
  }

  /** `afero.WriteFile` / `os.Create` followed by a write: create-or-truncate,
      inside an existing directory only. A new file gets `perm`; an existing
      file keeps its mode. */
  function WriteFile(h: Host, p: string, contents: string, perm: int): (r: Step<Outcome>)
    ensures r.host.log == h.log
    ensures r.out.Pass? <==> InDir(h.fs, p) && p !in h.fs.unwritable && !IsDir(h.fs, p)
    ensures r.out.Pass? ==> Holds(r.host.fs, p, contents) && OnlyAt(h.fs, r.host.fs, p)
    ensures r.out.Fail? ==> r.host == h
  {
    if !InDir(h.fs, p) then Step(h, Fail(NoDirError("open", h.fs, p)))
    else if p in h.fs.unwritable then Step(h, Fail("open " + p + ": permission denied"))
    else if IsDir(h.fs, p) then Step(h, Fail("open " + p + ": is a directory"))
    else
      var mode := if p in h.fs.nodes && h.fs.nodes[p].File? then h.fs.nodes[p].mode else perm;
      Step(h.(fs := h.fs.(nodes := h.fs.nodes[p := File(contents, mode)])), Pass)
  }

  /** `os.Chmod` on a regular file. */
  function Chmod(h: Host, p: string, mode: int): (r: Step<Outcome>)
    ensures r.host.log == h.log
    ensures r.out.Pass? <==> p !in h.fs.unwritable && p in h.fs.nodes
    ensures r.out.Pass? && h.fs.nodes[p].File? ==>
      Holds(r.host.fs, p, h.fs.nodes[p].contents) && r.host.fs.nodes[p].mode == mode
    ensures OnlyAt(h.fs, r.host.fs, p)
  {
    if p in h.fs.unwritable then Step(h, Fail("chmod " + p + ": permission denied"))
    else if p !in h.fs.nodes then Step(h, Fail("chmod " + p + ": no such file or directory"))
    else if h.fs.nodes[p].File? then
      Step(h.(fs := h.fs.(nodes := h.fs.nodes[p := File(h.fs.nodes[p].contents, mode)])), Pass)
    else Step(h, Pass)
  }

  /** `os.Symlink(target, link)`: fails outside an existing directory, and
      when `link` is occupied or unwritable. */
  function Symlink(h: Host, target: string, link: string): (r: Step<Outcome>)
    ensures r.host.log == h.log
    ensures r.out.Pass? <==> InDir(h.fs, link) && link !in h.fs.unwritable && link !in h.fs.nodes
    ensures r.out.Pass? ==> link in r.host.fs.nodes && r.host.fs.nodes[link] == Link(target)
    ensures r.out.Pass? ==> OnlyAt(h.fs, r.host.fs, link)
    ensures r.out.Fail? ==> r.host == h
  {
    if !InDir(h.fs, link) then Step(h, Fail(NoDirError("symlink", h.fs, link)))
    else if link in h.fs.unwritable then Step(h, Fail("symlink " + link + ": permission denied"))
    else if link in h.fs.nodes then Step(h, Fail("symlink " + link + ": file exists"))
    else Step(h.(fs := h.fs.(nodes := h.fs.nodes[link := Link(target)])), Pass)
  }

  /** `Commander.Run`: issues `c`, appending it to the log; the filesystem is
      left as it was and the result is the oracle's answer. */
  function Run(h: Host, sh: Shell, c: Cmd): (r: Step<Result<string>>)
    ensures r.host == Host(h.fs, h.log + [c])
    ensures r.out == sh(h.log, c)
  {
    Step(Host(h.fs, h.log + [c]), sh(h.log, c))
  }
}
