/** Searches that start with the cache earlier compilations left. */
module IncludeCache {
  import opened Bytes
  import opened Paths
  import opened IncludeDirs
  import opened Includes
  import opened IncludeClosure

  /** What the angle form of a name resolves to; it does not depend on the including file. */
  function ByName(ctx: Context, name: Path): (r: Option<Path>)
    ensures r.Some? ==> IsFile(ctx, r.value)
  {
    Resolve(ctx, [], Directive(name, true))
  }

  /** Every cached name leads to the file its angle form resolves to. */
  ghost predicate CacheOk(ctx: Context, s: State)
  {
    && (forall k | k in s.infos :: ByName(ctx, k).Some? && s.infos[k] == InfoOf(ctx, ByName(ctx, k).value))
    && (forall k | k in s.paths :: ByName(ctx, k) == Some(s.paths[k]))
    && s.paths.Keys == s.infos.Keys
  }

  /** Each reported header is a file of the set, with its own contents, whatever name it is recorded under. */
  ghost predicate Sound(ctx: Context, s: State, headers: iset<Path>)
  {
    forall x | x in s.found ::
      s.found[x].path in headers && IsFile(ctx, s.found[x].path) && s.found[x] == InfoOf(ctx, s.found[x].path)
  }

  ghost predicate AllAbsolute(ps: seq<Path>) { forall p | p in ps :: IsAbsolute(p) }

  ghost predicate AbsoluteDirs(ctx: Context)
  {
    AllAbsolute(ctx.dirs.dashI) && AllAbsolute(ctx.dirs.dashIsystem) && AllAbsolute(ctx.dirs.dashIquote)
  }

  // ---- Absolute names -----------------------------------------------------------------------------------------------------

  lemma {:induction false} JoinAllAbsolute(dirs: seq<Path>, content: Path)
    requires AllAbsolute(dirs)
    ensures AllAbsolute(JoinAll(dirs, content))
  {
    if dirs != [] {
      assert dirs[0] in dirs && forall p | p in dirs[1..] :: p in dirs;
      JoinAllAbsolute(dirs[1..], content);
    }
  }

  lemma {:induction false} TrimKeepsRoot(p: Path)
    requires IsAbsolute(p) && RelativePath(p) != []
    ensures IsAbsolute(TrimSlashes(p))
  {
    if p[|p| - 1] == '/' {
      assert |p| > 1;
      RelativeOfPrefix(p);
      TrimKeepsRoot(p[..|p| - 1]);
    }
  }

  lemma {:induction false} RelativeOfPrefix(p: Path)
    requires p != [] && p[|p| - 1] == '/' && RelativePath(p) != []
    ensures RelativePath(p[..|p| - 1]) != []
  {
    if p[0] == '/' && |p| > 1 {
      assert p[..|p| - 1][1..] == p[1..][..|p[1..]| - 1];
      RelativeOfPrefix(p[1..]);
    }
  }

  lemma {:induction false} ParentAbsolute(p: Path)
    requires IsAbsolute(p)
    ensures IsAbsolute(ParentPath(p))
  {
    if RelativePath(p) != [] {
      var dir := p[..LastComponent(p)];
      if RelativePath(dir) != [] { TrimKeepsRoot(dir); }
    }
  }

  lemma {:induction false} OneAbsolute(p: Path)
    requires IsAbsolute(p)
    ensures AllAbsolute([p])
  {
  }

  lemma {:induction false} AppendAbsolute(a: seq<Path>, b: seq<Path>)
    requires AllAbsolute(a) && AllAbsolute(b)
    ensures AllAbsolute(a + b)
  {
    hide IsAbsolute;
  }

  lemma {:induction false} CandidatesAbsolute(ctx: Context, parent: Path, d: Directive)
    requires AbsoluteDirs(ctx) && IsAbsolute(parent)
    ensures AllAbsolute(Candidates(ctx, parent, d))
  {
    var near, all := JoinAll(ctx.dirs.dashIquote, d.content), Common(ctx, d.content);
    ParentAbsolute(parent);
    JoinAllAbsolute(ctx.dirs.dashI, d.content);
    JoinAllAbsolute(ctx.dirs.dashIsystem, d.content);
    JoinAllAbsolute(ctx.dirs.dashIquote, d.content);
    OneAbsolute(Join(ParentPath(parent), d.content));
    if IsAbsolute(d.content) { OneAbsolute(d.content); }
    assert AllAbsolute([]);
    hide AllAbsolute, IsAbsolute;
    AppendAbsolute(JoinAll(ctx.dirs.dashI, d.content), JoinAll(ctx.dirs.dashIsystem, d.content));
    AppendAbsolute([Join(ParentPath(parent), d.content)], near);
    AppendAbsolute(if d.angle then [] else Nearby(ctx, parent, d.content), all);
    AppendAbsolute(if IsAbsolute(d.content) then [d.content] else [], (if d.angle then [] else Nearby(ctx, parent, d.content)) + all);
  }

  lemma {:induction false} JoinedIsItself(ctx: Context, dirs: seq<Path>, p: Path)
    requires IsAbsolute(p)
    ensures forall c | c in JoinAll(dirs, p) :: c == p
  {
    if dirs != [] { JoinedIsItself(ctx, dirs[1..], p); }
  }

  lemma {:induction false} FirstFileOf(ctx: Context, candidates: seq<Path>, p: Path)
    requires candidates != [] && forall c | c in candidates :: c == p
    ensures FirstFile(ctx, candidates) == if IsFile(ctx, p) then Some(p) else None
  {
    assert candidates[0] in candidates;
    if |candidates| > 1 && !IsFile(ctx, p) {
      assert forall c | c in candidates[1..] :: c in candidates;
      FirstFileOf(ctx, candidates[1..], p);
    }
  }

  /** An absolute name resolves to itself. */
  lemma {:induction false} AbsoluteByName(ctx: Context, p: Path)
    requires IsAbsolute(p)
    ensures ByName(ctx, p) == if IsFile(ctx, p) then Some(p) else None
  {
    JoinedIsItself(ctx, ctx.dirs.dashI, p);
    JoinedIsItself(ctx, ctx.dirs.dashIsystem, p);
    FirstFileOf(ctx, Candidates(ctx, [], Directive(p, true)), p);
  }

  // ---- The search keeps the cache, and what it reports stays inside given sets ------------------------------------------------

  /** The cache a search starts with answers the directive. */
  ghost predicate FromCache(ctx: Context, base: State, parent: Path, d: Directive)
  {
    Resolve(ctx, parent, d).Some? && CacheKey(d, Resolve(ctx, parent, d).value) in base.infos
  }

  /** The file a directive names has been seen, and entered unless the cache answers the directive. */
  ghost predicate Follows(ctx: Context, base: State, seen: iset<Path>, entered: iset<Path>, parent: Path, d: Directive)
  {
    Covers(ctx, seen, parent, d) && (FromCache(ctx, base, parent, d) || Covers(ctx, entered, parent, d))
  }

  ghost predicate FollowsAll(ctx: Context, base: State, seen: iset<Path>, entered: iset<Path>, parent: Path, ds: seq<Directive>)
  {
    forall i | 0 <= i < |ds| :: Follows(ctx, base, seen, entered, parent, ds[i])
  }

  ghost predicate FollowsEntered(ctx: Context, base: State, seen: iset<Path>, entered: iset<Path>)
  {
    forall p | p in entered && IsFile(ctx, p) :: FollowsAll(ctx, base, seen, entered, p, ctx.fs[p].directives)
  }

  ghost predicate FollowsFrom(ctx: Context, base: State, seen: iset<Path>, entered: iset<Path>, source: Path, includes: seq<Path>)
  {
    && FollowsEntered(ctx, base, seen, entered) && source in ctx.fs
    && FollowsAll(ctx, base, seen, entered, source, Forced(includes))
    && FollowsAll(ctx, base, seen, entered, source, DirectivesIn(ctx.fs[source]))
  }

  /** Names added to the cache since `base` belong to files that were entered. */
  ghost predicate Learned(ctx: Context, base: State, s: State, entered: iset<Path>)
  {
    && base.infos.Keys <= s.infos.Keys
    && forall k | k in s.infos && k !in base.infos :: ByName(ctx, k).Some? && ByName(ctx, k).value in entered
  }

  /** The setting of a search that started with the cache of `base`. */
  ghost predicate Setting(ctx: Context, base: State, s: State, seen: iset<Path>, entered: iset<Path>)
  {
    && AbsoluteDirs(ctx) && FollowsEntered(ctx, base, seen, entered)
    && CacheOk(ctx, s) && Sound(ctx, s, seen) && Learned(ctx, base, s, entered)
  }

  /** What may be assumed of a directive whose search has got down to `candidates`. */
  ghost predicate Pursued(ctx: Context, base: State, seen: iset<Path>, entered: iset<Path>, candidates: seq<Path>, d: Directive)
  {
    var r := FirstFile(ctx, candidates);
    && AllAbsolute(candidates) && (d.angle ==> r == ByName(ctx, d.content))
    && (r.Some? ==> r.value in seen && (CacheKey(d, r.value) in base.infos || r.value in entered))
  }

  /** What may be assumed of the candidate tried next. */
  ghost predicate Tried(ctx: Context, base: State, seen: iset<Path>, entered: iset<Path>, p: Path, d: Directive)
  {
    && IsAbsolute(p)
    && (IsFile(ctx, p) ==>
         && p in seen && (CacheKey(d, p) in base.infos || p in entered)
         && (d.angle ==> ByName(ctx, d.content) == Some(p)))
    && (d.angle && ByName(ctx, d.content).Some? ==> ByName(ctx, d.content).value in seen)
  }

  lemma {:induction false} PursuedNext(ctx: Context, base: State, seen: iset<Path>, entered: iset<Path>, candidates: seq<Path>, d: Directive)
    requires candidates != [] && Pursued(ctx, base, seen, entered, candidates, d)
    ensures Tried(ctx, base, seen, entered, candidates[0], d)
    ensures !IsFile(ctx, candidates[0]) ==> Pursued(ctx, base, seen, entered, candidates[1..], d)
  {
    hide ByName, IsAbsolute;
    assert candidates[0] in candidates;
  }

  lemma {:induction false} WarmHit(ctx: Context, base: State, s: State, seen: iset<Path>, entered: iset<Path>, p: Path, d: Directive)
    requires Setting(ctx, base, s, seen, entered) && Tried(ctx, base, seen, entered, p, d) && CacheKey(d, p) in s.infos
    ensures Setting(ctx, base, s.(found := s.found[p := s.infos[CacheKey(d, p)]]), seen, entered)
  {
    hide AbsoluteDirs, FollowsEntered, ByName;
    AbsoluteByName(ctx, p);
  }

  /** The key a header is stored under leads back to it. */
  lemma {:induction false} RecordCache(ctx: Context, s: State, d: Directive, p: Path)
    requires CacheOk(ctx, s) && IsFile(ctx, p) && ByName(ctx, CacheKey(d, p)) == Some(p)
    ensures CacheOk(ctx, Recorded(ctx, s, d, p))
  {
    hide ByName, CacheKey, RequiresStorage, InfoOf;
    var k, info, t := CacheKey(d, p), InfoOf(ctx, p), Recorded(ctx, s, d, p);
    if RequiresStorage(ctx.dirs, p) {
      KeysOfUpdate(s.paths, k, p);
      KeysOfUpdate(s.infos, k, info);
    }
  }

  lemma {:induction false} RecordLearned(ctx: Context, base: State, s: State, entered: iset<Path>, d: Directive, p: Path)
    requires Learned(ctx, base, s, entered) && IsFile(ctx, p) && ByName(ctx, CacheKey(d, p)) == Some(p) && p in entered
    ensures Learned(ctx, base, Recorded(ctx, s, d, p), entered)
  {
    hide ByName, CacheKey, RequiresStorage, InfoOf;
  }

  lemma {:induction false} RecordSound(ctx: Context, s: State, seen: iset<Path>, d: Directive, p: Path)
    requires Sound(ctx, s, seen) && IsFile(ctx, p) && p in seen
    ensures Sound(ctx, Recorded(ctx, s, d, p), seen)
  {
    hide RequiresStorage, CacheKey;
  }

  lemma {:induction false} WarmRecord(ctx: Context, base: State, s: State, seen: iset<Path>, entered: iset<Path>, p: Path, d: Directive)
    requires Setting(ctx, base, s, seen, entered) && Tried(ctx, base, seen, entered, p, d)
    requires IsFile(ctx, p) && CacheKey(d, p) !in s.infos
    ensures Setting(ctx, base, Recorded(ctx, s, d, p), seen, entered) && p in entered && IsAbsolute(p)
  {
    AbsoluteByName(ctx, p);
    assert ByName(ctx, CacheKey(d, p)) == Some(p) && p in entered && p in seen;
    RecordCache(ctx, s, d, p);
    RecordLearned(ctx, base, s, entered, d, p);
    RecordSound(ctx, s, seen, d, p);
    hide AbsoluteDirs, FollowsEntered, CacheOk, Learned, Sound, Recorded;
  }

  lemma {:induction false} WarmTry(ctx: Context, base: State, s: State, seen: iset<Path>, entered: iset<Path>, p: Path, d: Directive)
    requires Setting(ctx, base, s, seen, entered) && Tried(ctx, base, seen, entered, p, d)
    ensures Setting(ctx, base, Try(ctx, s, p, d).0, seen, entered)
    decreases Left(ctx, s), 0, 0
  {
    if p !in s.found && CacheKey(d, p) in s.infos {
      hide Setting;
      WarmHit(ctx, base, s, seen, entered, p, d);
    } else if p !in s.found && IsFile(ctx, p) {
      hide AbsoluteDirs, CacheOk, Sound, Learned, FollowsAll;
      WarmRecord(ctx, base, s, seen, entered, p, d);
      RecordingShrinks(ctx, s, d, p);
      WarmProcessAll(ctx, base, Recorded(ctx, s, d, p), seen, entered, p, ctx.fs[p].directives);
    }
  }

  lemma {:induction false} WarmTryEach(ctx: Context, base: State, s: State, seen: iset<Path>, entered: iset<Path>, candidates: seq<Path>, d: Directive)
    requires Setting(ctx, base, s, seen, entered) && Pursued(ctx, base, seen, entered, candidates, d)
    ensures Setting(ctx, base, TryEach(ctx, s, candidates, d).0, seen, entered)
    decreases Left(ctx, s), 1, |candidates|
  {
    if candidates != [] {
      hide Setting, Pursued, Tried;
      PursuedNext(ctx, base, seen, entered, candidates, d);
      WarmTry(ctx, base, s, seen, entered, candidates[0], d);
      if !Try(ctx, s, candidates[0], d).1 { WarmTryEach(ctx, base, s, seen, entered, candidates[1..], d); }
    }
  }

  lemma {:induction false} FollowedIsPursued(ctx: Context, base: State, seen: iset<Path>, entered: iset<Path>, parent: Path, d: Directive)
    requires AbsoluteDirs(ctx) && IsAbsolute(parent) && Follows(ctx, base, seen, entered, parent, d)
    ensures Pursued(ctx, base, seen, entered, Candidates(ctx, parent, d), d)
  {
    CandidatesAbsolute(ctx, parent, d);
  }

  /** A name known to both maps of the cache leads to the file it resolves to. */
  lemma {:induction false} HitIsByName(ctx: Context, s: State, parent: Path, d: Directive)
    requires AbsoluteDirs(ctx) && CacheOk(ctx, s) && IsAbsolute(parent) && Hit(s, d)
    ensures var r := s.paths[d.content]; Resolve(ctx, parent, d) == Some(r) && s.infos[r] == InfoOf(ctx, r)
  {
    var r := s.paths[d.content];
    assert ByName(ctx, d.content) == Some(r) && Candidates(ctx, parent, d) == Candidates(ctx, [], Directive(d.content, true));
    CandidatesAbsolute(ctx, parent, d);
    AbsoluteByName(ctx, r);
  }

  lemma {:induction false} WarmShortcut(ctx: Context, base: State, s: State, seen: iset<Path>, entered: iset<Path>, parent: Path, d: Directive)
    requires Setting(ctx, base, s, seen, entered) && IsAbsolute(parent) && Follows(ctx, base, seen, entered, parent, d) && Hit(s, d)
    ensures Setting(ctx, base, Process(ctx, s, parent, d).0, seen, entered)
  {
    hide AbsoluteDirs, FollowsEntered, Resolve, ByName, FromCache;
    HitIsByName(ctx, s, parent, d);
  }

  lemma {:induction false} WarmProcess(ctx: Context, base: State, s: State, seen: iset<Path>, entered: iset<Path>, parent: Path, d: Directive)
    requires Setting(ctx, base, s, seen, entered) && IsAbsolute(parent) && Follows(ctx, base, seen, entered, parent, d)
    ensures Setting(ctx, base, Process(ctx, s, parent, d).0, seen, entered)
    decreases Left(ctx, s), 2, 0
  {
    hide CacheOk, Sound, Learned, FollowsEntered, Pursued, Follows;
    if Hit(s, d) {
      WarmShortcut(ctx, base, s, seen, entered, parent, d);
    } else {
      FollowedIsPursued(ctx, base, seen, entered, parent, d);
      WarmTryEach(ctx, base, s, seen, entered, Candidates(ctx, parent, d), d);
    }
  }

  lemma {:induction false} WarmProcessAll(ctx: Context, base: State, s: State, seen: iset<Path>, entered: iset<Path>, parent: Path, ds: seq<Directive>)
    requires Setting(ctx, base, s, seen, entered) && IsAbsolute(parent) && FollowsAll(ctx, base, seen, entered, parent, ds)
    ensures Setting(ctx, base, ProcessAll(ctx, s, parent, ds), seen, entered)
    decreases Left(ctx, s), 3, |ds|
  {
    if ds != [] {
      hide Setting, Process, Follows;
      var front, d := ds[..|ds| - 1], ds[|ds| - 1];
      WarmProcessAll(ctx, base, s, seen, entered, parent, front);
      var before := ProcessAll(ctx, s, parent, front);
      GrowingShrinks(ctx, s, before);
      WarmProcess(ctx, base, before, seen, entered, parent, d);
    }
  }

  lemma {:induction false} WarmParse(ctx: Context, base: State, seen: iset<Path>, entered: iset<Path>, source: Path, includes: seq<Path>)
    requires AbsoluteDirs(ctx) && CacheOk(ctx, base) && base.found == map[] && IsAbsolute(source)
    requires FollowsFrom(ctx, base, seen, entered, source, includes)
    ensures Setting(ctx, base, Parse(ctx, base, source, includes).0, seen, entered)
  {
    assert Setting(ctx, base, base, seen, entered);
    hide Setting, FollowsAll;
    WarmProcessAll(ctx, base, base, seen, entered, source, Forced(includes));
    WarmProcessAll(ctx, base, ProcessAll(ctx, base, source, Forced(includes)), seen, entered, source, DirectivesIn(ctx.fs[source]));
  }

  /** One closed set does for both. */
  lemma {:induction false} ClosedFollows(ctx: Context, base: State, headers: iset<Path>, source: Path, includes: seq<Path>)
    requires ClosedFrom(ctx, headers, source, includes)
    ensures FollowsFrom(ctx, base, headers, headers, source, includes)
  {
    hide FromCache, Covers;
    forall p | p in headers && IsFile(ctx, p)
      ensures FollowsAll(ctx, base, headers, headers, p, ctx.fs[p].directives)
    {
      CoversFollows(ctx, base, headers, p, ctx.fs[p].directives);
    }
    CoversFollows(ctx, base, headers, source, Forced(includes));
    CoversFollows(ctx, base, headers, source, DirectivesIn(ctx.fs[source]));
  }

  lemma {:induction false} CoversFollows(ctx: Context, base: State, headers: iset<Path>, parent: Path, ds: seq<Directive>)
    requires CoversAll(ctx, headers, parent, ds)
    ensures FollowsAll(ctx, base, headers, headers, parent, ds)
  {
    hide FromCache, Covers;
  }

  function AllFiles(ctx: Context): iset<Path> { iset p | p in ctx.fs }

  // ---- Whole histories --------------------------------------------------------------------------------------------------------

  datatype Compile = Compile(source: Path, includes: seq<Path>)

  /** The cache with nothing found yet, as each compilation starts. */
  function Restarted(s: State): State { s.(found := map[]) }

  /** The state after compiling each in turn, every one with the cache the earlier ones left. */
  function Served(ctx: Context, runs: seq<Compile>): State
  {
    if runs == [] then FRESH
    else
      var run := runs[|runs| - 1];
      Parse(ctx, Restarted(Served(ctx, runs[..|runs| - 1])), run.source, run.includes).0
  }

  ghost predicate AbsoluteRuns(runs: seq<Compile>) { forall i | 0 <= i < |runs| :: IsAbsolute(runs[i].source) }

  lemma {:induction false} ServedCacheOk(ctx: Context, runs: seq<Compile>)
    requires AbsoluteDirs(ctx) && AbsoluteRuns(runs)
    ensures CacheOk(ctx, Served(ctx, runs))
  {
    if runs != [] {
      var front, run := runs[..|runs| - 1], runs[|runs| - 1];
      ServedCacheOk(ctx, front);
      var base := Restarted(Served(ctx, front));
      if run.source in ctx.fs {
        ClosedFollows(ctx, base, AllFiles(ctx), run.source, run.includes);
        WarmParse(ctx, base, AllFiles(ctx), AllFiles(ctx), run.source, run.includes);
      }
    }
  }

  /**
   Whatever was compiled before over the same files and directories, a search from an absolute source
   terminates and reports only headers reached from it, each with its own contents, though an entry may sit
   under a name other than its path.
   */
  lemma {:induction false} WarmSearchSound(ctx: Context, runs: seq<Compile>, source: Path, includes: seq<Path>, x: Path)
    requires AbsoluteDirs(ctx) && AbsoluteRuns(runs) && IsAbsolute(source)
    requires x in Parse(ctx, Restarted(Served(ctx, runs)), source, includes).0.found
    ensures var info := Parse(ctx, Restarted(Served(ctx, runs)), source, includes).0.found[x];
      && Reached(ctx, source, includes, info.path)
      && IsFile(ctx, info.path) && info.children == ctx.fs[info.path].directives
      && info.size == ctx.fs[info.path].size && info.sha1 == ctx.fs[info.path].sha1
  {
    ServedCacheOk(ctx, runs);
    hide CacheOk, AbsoluteDirs;
    var base := Restarted(Served(ctx, runs));
    assert CacheOk(ctx, base) by { CacheOfRestarted(ctx, Served(ctx, runs)); }
    var info := Parse(ctx, base, source, includes).0.found[x];
    ClosedFollows(ctx, base, AllFiles(ctx), source, includes);
    WarmParse(ctx, base, AllFiles(ctx), AllFiles(ctx), source, includes);
    forall headers: iset<Path> | ClosedFrom(ctx, headers, source, includes)
      ensures info.path in headers
    {
      ClosedFollows(ctx, base, headers, source, includes);
      WarmParse(ctx, base, headers, headers, source, includes);
    }
  }

  lemma CacheOfRestarted(ctx: Context, s: State)
    requires CacheOk(ctx, s)
    ensures CacheOk(ctx, Restarted(s))
  {
  }

  // ---- What a warm search leaves out ------------------------------------------------------------------------------------------

  ghost predicate OneMore(before: map<Path, Info>, after: map<Path, Info>, x: Path, info: Info)
  {
    after == before[x := info]
  }

  ghost predicate NameCached(s: State, d: Directive) { d.angle && d.content in s.infos }

  lemma {:induction false} FirstAnswers(ctx: Context, s: State, candidates: seq<Path>, d: Directive)
    requires candidates != [] && NameCached(s, d)
    ensures TryEach(ctx, s, candidates, d).1
    ensures TryEach(ctx, s, candidates, d).0
         == if candidates[0] in s.found then s else s.(found := s.found[candidates[0] := s.infos[d.content]])
  {
    assert CacheKey(d, candidates[0]) == d.content;
  }

  /**
   A directive whose name is cached is answered from the cache: at most one entry is recorded, holding the
   header's own contents, and what that header includes is not searched.
   */
  lemma {:induction false} CachedIsNotExpanded(ctx: Context, s: State, parent: Path, d: Directive)
    requires AbsoluteDirs(ctx) && IsAbsolute(parent) && CacheOk(ctx, s) && NameCached(s, d)
    ensures var (t, ok) := Process(ctx, s, parent, d);
      && ok && t.paths == s.paths && t.infos == s.infos
      && (t.found == s.found || exists x :: OneMore(s.found, t.found, x, s.infos[d.content]))
  {
    var candidates := Candidates(ctx, parent, d);
    assert ByName(ctx, d.content).Some? && candidates == Candidates(ctx, [], Directive(d.content, true));
    if Hit(s, d) {
      var r := s.paths[d.content];
      HitIsByName(ctx, s, parent, d);
      assert OneMore(s.found, s.found[r := s.infos[r]], r, s.infos[d.content]);
    } else {
      assert candidates != [];
      hide CacheOk, AbsoluteDirs, Candidates, ByName;
      FirstAnswers(ctx, s, candidates, d);
      assert candidates[0] in s.found || OneMore(s.found, Process(ctx, s, parent, d).0.found, candidates[0], s.infos[d.content]);
    }
  }

  ghost predicate Direct(s: State, ds: seq<Directive>, info: Info)
  {
    exists i :: 0 <= i < |ds| && ds[i].content in s.infos && info == s.infos[ds[i].content]
  }

  lemma SameCacheOk(ctx: Context, s: State, t: State)
    requires CacheOk(ctx, s) && t.paths == s.paths && t.infos == s.infos
    ensures CacheOk(ctx, t)
  {
  }

  /**
   If all names a file includes are cached, only the headers it names directly are reported: the headers they
   include in turn are missing from the report, unless they are named too.
   */
  lemma {:induction false} OnlyDirectReported(ctx: Context, s: State, parent: Path, ds: seq<Directive>)
    requires AbsoluteDirs(ctx) && IsAbsolute(parent) && CacheOk(ctx, s)
    requires forall i | 0 <= i < |ds| :: NameCached(s, ds[i])
    ensures var t := ProcessAll(ctx, s, parent, ds);
      && t.paths == s.paths && t.infos == s.infos
      && forall x | x in t.found :: (x in s.found && t.found[x] == s.found[x]) || Direct(s, ds, t.found[x])
  {
    if ds != [] {
      var front, d := ds[..|ds| - 1], ds[|ds| - 1];
      hide AbsoluteDirs, Process, CacheOk;
      OnlyDirectReported(ctx, s, parent, front);
      var before, t := ProcessAll(ctx, s, parent, front), ProcessAll(ctx, s, parent, ds);
      SameCacheOk(ctx, s, before);
      CachedIsNotExpanded(ctx, before, parent, d);
      forall x | x in t.found && !(x in s.found && t.found[x] == s.found[x])
        ensures Direct(s, ds, t.found[x])
      {
        if t.found[x] == s.infos[d.content] {
          assert ds[|ds| - 1].content in s.infos;
        } else {
          assert Direct(s, front, t.found[x]);
        }
      }
    }
  }
}
