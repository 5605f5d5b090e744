/**
 The include resolver: a search through a possibly cyclic graph of headers that records what it finds and
 shares a cache between compilations. The file system is a finite map; paths are compared as strings.
 */
module Includes {
  import opened Bytes
  import opened Paths
  import opened IncludeDirs

  datatype Directive = Directive(content: Path, angle: bool)
  datatype Node = Dir | File(directives: seq<Directive>, size: nat, sha1: Digest)
  datatype Info = Info(path: Path, children: seq<Directive>, size: nat, sha1: Digest)

  /** What a search depends on: the files and the search directories. */
  datatype Context = Context(fs: map<Path, Node>, dirs: CmdLineIncludeDirs)

  /** `found` is what the search recorded; `paths` and `infos` are the two maps of the cache. */
  datatype State = State(found: map<Path, Info>, paths: map<Path, Path>, infos: map<Path, Info>)

  predicate IsFile(ctx: Context, p: Path) { p in ctx.fs && ctx.fs[p].File? }

  function InfoOf(ctx: Context, p: Path): Info
    requires IsFile(ctx, p)
  {
    Info(p, ctx.fs[p].directives, ctx.fs[p].size, ctx.fs[p].sha1)
  }

  // ---- The search order -----------------------------------------------------------------------------------------------

  predicate IsAbsolute(p: Path) { p != [] && p[0] == '/' }

  function JoinAll(dirs: seq<Path>, content: Path): seq<Path>
  {
    if dirs == [] then [] else [Join(dirs[0], content)] + JoinAll(dirs[1..], content)
  }

  /** Directories searched for both forms. */
  function Common(ctx: Context, content: Path): seq<Path>
  {
    JoinAll(ctx.dirs.dashI, content) + JoinAll(ctx.dirs.dashIsystem, content)
  }

  /** Where the quote form looks first. */
  function Nearby(ctx: Context, parent: Path, content: Path): seq<Path>
  {
    [Join(ParentPath(parent), content)] + JoinAll(ctx.dirs.dashIquote, content)
  }

  function Candidates(ctx: Context, parent: Path, d: Directive): seq<Path>
  {
    (if IsAbsolute(d.content) then [d.content] else [])
    + ((if d.angle then [] else Nearby(ctx, parent, d.content)) + Common(ctx, d.content))
  }

  function FirstFile(ctx: Context, candidates: seq<Path>): (r: Option<Path>)
    ensures r.Some? ==> IsFile(ctx, r.value) && r.value in candidates
  {
    if candidates == [] then None
    else if IsFile(ctx, candidates[0]) then Some(candidates[0])
    else FirstFile(ctx, candidates[1..])
  }

  /** The file a directive names: the first candidate that exists. */
  function Resolve(ctx: Context, parent: Path, d: Directive): (r: Option<Path>)
    ensures r.Some? ==> IsFile(ctx, r.value)
  {
    FirstFile(ctx, Candidates(ctx, parent, d))
  }

  // ---- The search -------------------------------------------------------------------------------------------------------

  /** Headers under a system directory and under no `-I` directory are cached. */
  predicate RequiresStorage(dirs: CmdLineIncludeDirs, p: Path)
  {
    !(exists d | d in dirs.dashI :: d <= p) && exists d | d in dirs.dashIsystem :: d <= p
  }

  /** The name a header is looked up and stored under. */
  function CacheKey(d: Directive, p: Path): Path { if d.angle then d.content else p }

  function Recorded(ctx: Context, s: State, d: Directive, p: Path): State
    requires IsFile(ctx, p)
  {
    var info, k, store := InfoOf(ctx, p), CacheKey(d, p), RequiresStorage(ctx.dirs, p);
    State(s.found[p := info], if store then s.paths[k := p] else s.paths, if store then s.infos[k := info] else s.infos)
  }

  /** How many files are not recorded yet. */
  function Left(ctx: Context, s: State): nat { |ctx.fs.Keys - s.found.Keys| }

  lemma KeysOfUpdate<K, V>(m: map<K, V>, k: K, v: V)
    ensures m[k := v].Keys == m.Keys + {k}
  {
  }

  lemma OneFewer(all: set<Path>, found: set<Path>, p: Path)
    requires p in all && p !in found
    ensures |all - (found + {p})| < |all - found|
  {
    assert all - (found + {p}) == (all - found) - {p};
  }

  lemma {:induction false} RecordingShrinks(ctx: Context, s: State, d: Directive, p: Path)
    requires IsFile(ctx, p) && p !in s.found
    ensures Left(ctx, Recorded(ctx, s, d, p)) < Left(ctx, s)
  {
    hide RequiresStorage, CacheKey, InfoOf;
    OneFewer(ctx.fs.Keys, s.found.Keys, p);
    KeysOfUpdate(s.found, p, InfoOf(ctx, p));
  }

  lemma {:induction false} GrowingShrinks(ctx: Context, s: State, t: State)
    requires s.found.Keys <= t.found.Keys
    ensures Left(ctx, t) <= Left(ctx, s)
  {
    SubsetSize(ctx.fs.Keys - t.found.Keys, ctx.fs.Keys - s.found.Keys);
  }

  lemma {:induction false} SubsetSize(a: set<Path>, b: set<Path>)
    requires a <= b
    ensures |a| <= |b|
  {
    if a != {} {
      var x :| x in a;
      SubsetSize(a - {x}, b - {x});
    }
  }

  /** One candidate. */
  function Try(ctx: Context, s: State, p: Path, d: Directive): (r: (State, bool))
    ensures s.found.Keys <= r.0.found.Keys && (!r.1 ==> r.0 == s)
    decreases Left(ctx, s), 0, 0
  {
    if p in s.found then (s, true)
    else if CacheKey(d, p) in s.infos then (s.(found := s.found[p := s.infos[CacheKey(d, p)]]), true)
    else if !IsFile(ctx, p) then (s, false)
    else
      RecordingShrinks(ctx, s, d, p);
      (ProcessAll(ctx, Recorded(ctx, s, d, p), p, ctx.fs[p].directives), true)
  }

  function TryEach(ctx: Context, s: State, candidates: seq<Path>, d: Directive): (r: (State, bool))
    ensures s.found.Keys <= r.0.found.Keys && (!r.1 ==> r.0 == s)
    decreases Left(ctx, s), 1, |candidates|
  {
    if candidates == [] then (s, false)
    else
      var r := Try(ctx, s, candidates[0], d);
      if r.1 then r else TryEach(ctx, s, candidates[1..], d)
  }

  /** Both maps of the cache know the name: nothing is searched. */
  predicate Hit(s: State, d: Directive) { d.angle && d.content in s.paths && s.paths[d.content] in s.infos }

  function Process(ctx: Context, s: State, parent: Path, d: Directive): (r: (State, bool))
    ensures s.found.Keys <= r.0.found.Keys && (!r.1 ==> r.0 == s)
    decreases Left(ctx, s), 2, 0
  {
    if Hit(s, d) then (s.(found := s.found[s.paths[d.content] := s.infos[s.paths[d.content]]]), true)
    else TryEach(ctx, s, Candidates(ctx, parent, d), d)
  }

  function ProcessAll(ctx: Context, s: State, parent: Path, ds: seq<Directive>): (t: State)
    ensures s.found.Keys <= t.found.Keys
    decreases Left(ctx, s), 3, |ds|
  {
    if ds == [] then s
    else
      var before := ProcessAll(ctx, s, parent, ds[..|ds| - 1]);
      GrowingShrinks(ctx, s, before);
      Process(ctx, before, parent, ds[|ds| - 1]).0
  }

  /** Includes named on the command line are treated as angle directives of the source. */
  function Forced(includes: seq<Path>): (ds: seq<Directive>)
    ensures |ds| == |includes| && forall i | 0 <= i < |ds| :: ds[i] == Directive(includes[i], true)
  {
    seq(|includes|, i requires 0 <= i < |includes| => Directive(includes[i], true))
  }

  /** A directory can be opened as a source, but has no lines. */
  function DirectivesIn(n: Node): seq<Directive> { if n.File? then n.directives else [] }

  function Parse(ctx: Context, s: State, source: Path, includes: seq<Path>): (r: (State, bool))
  {
    if source !in ctx.fs then (s, false)
    else
      var forced := ProcessAll(ctx, s, source, Forced(includes));
      (ProcessAll(ctx, forced, source, DirectivesIn(ctx.fs[source])), true)
  }
}
