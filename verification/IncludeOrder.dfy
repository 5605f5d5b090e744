/**
 The order in which an include is looked for, told on the directories themselves, the order in which directives are
 processed, and which headers get into the cache.
 */
module IncludeOrder {
  import opened Bytes
  import opened Paths
  import opened IncludeDirs
  import opened Includes
  import opened IncludeClosure
  import opened IncludeCache

  // ---- Search directories -----------------------------------------------------------------------------------------------

  /** Directory number `i` is the first that has the file. */
  predicate FirstIn(ctx: Context, dirs: seq<Path>, content: Path, i: nat)
  {
    i < |dirs| && IsFile(ctx, Join(dirs[i], content)) && forall j | 0 <= j < i :: !IsFile(ctx, Join(dirs[j], content))
  }

  predicate NoneIn(ctx: Context, dirs: seq<Path>, content: Path)
  {
    forall j | 0 <= j < |dirs| :: !IsFile(ctx, Join(dirs[j], content))
  }

  lemma {:induction false} FirstFileAppend(ctx: Context, a: seq<Path>, b: seq<Path>)
    ensures FirstFile(ctx, a + b) == if FirstFile(ctx, a).Some? then FirstFile(ctx, a) else FirstFile(ctx, b)
  {
    if a == [] {
      assert a + b == b;
    } else {
      assert (a + b)[0] == a[0] && (a + b)[1..] == a[1..] + b;
      FirstFileAppend(ctx, a[1..], b);
    }
  }

  lemma {:induction false} FirstFileOne(ctx: Context, p: Path)
    ensures FirstFile(ctx, [p]) == if IsFile(ctx, p) then Some(p) else None
  {
    assert [p][1..] == [];
  }

  lemma {:induction false} FirstOfDirs(ctx: Context, dirs: seq<Path>, content: Path)
    ensures forall i: nat | FirstIn(ctx, dirs, content, i) :: FirstFile(ctx, JoinAll(dirs, content)) == Some(Join(dirs[i], content))
    ensures NoneIn(ctx, dirs, content) <==> FirstFile(ctx, JoinAll(dirs, content)) == None
    ensures NoneIn(ctx, dirs, content) || exists i: nat :: FirstIn(ctx, dirs, content, i)
  {
    if dirs != [] {
      var rest := dirs[1..];
      FirstOfDirs(ctx, rest, content);
      var all := JoinAll(dirs, content);
      assert all[0] == Join(dirs[0], content) && all[1..] == JoinAll(rest, content);
      hide Join, IsFile;
      forall i: nat | FirstIn(ctx, dirs, content, i)
        ensures FirstFile(ctx, all) == Some(Join(dirs[i], content))
      {
        if i > 0 { assert FirstIn(ctx, rest, content, i - 1); }
      }
      FirstShifts(ctx, dirs, content);
    }
  }

  lemma FirstShifts(ctx: Context, dirs: seq<Path>, content: Path)
    requires dirs != []
    ensures IsFile(ctx, Join(dirs[0], content)) ==> FirstIn(ctx, dirs, content, 0)
    ensures forall i: nat | !IsFile(ctx, Join(dirs[0], content)) && FirstIn(ctx, dirs[1..], content, i) ::
      FirstIn(ctx, dirs, content, i + 1)
    ensures NoneIn(ctx, dirs, content) <==> !IsFile(ctx, Join(dirs[0], content)) && NoneIn(ctx, dirs[1..], content)
  {
    hide Join, IsFile;
    if !IsFile(ctx, Join(dirs[0], content)) && NoneIn(ctx, dirs[1..], content) {
      forall j | 0 <= j < |dirs| ensures !IsFile(ctx, Join(dirs[j], content)) {
        if j > 0 { assert dirs[j] == dirs[1..][j - 1]; }
      }
    }
    forall i: nat | !IsFile(ctx, Join(dirs[0], content)) && FirstIn(ctx, dirs[1..], content, i)
      ensures FirstIn(ctx, dirs, content, i + 1)
    {
      forall j | 0 <= j < i + 1 ensures !IsFile(ctx, Join(dirs[j], content)) {
        if j > 0 { assert dirs[j] == dirs[1..][j - 1]; }
      }
    }
    if NoneIn(ctx, dirs, content) {
      forall j | 0 <= j < |dirs| - 1 ensures !IsFile(ctx, Join(dirs[1..][j], content)) {
        assert dirs[1..][j] == dirs[j + 1];
      }
    }
  }

  // ---- The whole search order -------------------------------------------------------------------------------------------

  /** The directive's own text names a file. */
  predicate ByItself(ctx: Context, d: Directive) { IsAbsolute(d.content) && IsFile(ctx, d.content) }

  /** The quote form finds it beside the including file. */
  predicate Beside(ctx: Context, parent: Path, d: Directive) { !d.angle && IsFile(ctx, Join(ParentPath(parent), d.content)) }

  /** The quote form finds it in a `-iquote` directory. */
  predicate Quoted(ctx: Context, d: Directive) { !d.angle && !NoneIn(ctx, ctx.dirs.dashIquote, d.content) }

  /** `p` is what the search order, told on the directories, makes of the directive. */
  ghost predicate Chosen(ctx: Context, parent: Path, d: Directive, p: Path)
  {
    if ByItself(ctx, d) then p == d.content
    else if Beside(ctx, parent, d) then p == Join(ParentPath(parent), d.content)
    else if Quoted(ctx, d) then FoundIn(ctx, ctx.dirs.dashIquote, d.content, p)
    else if !NoneIn(ctx, ctx.dirs.dashI, d.content) then FoundIn(ctx, ctx.dirs.dashI, d.content, p)
    else FoundIn(ctx, ctx.dirs.dashIsystem, d.content, p)
  }

  ghost predicate FoundIn(ctx: Context, dirs: seq<Path>, content: Path, p: Path)
  {
    exists i: nat :: FirstIn(ctx, dirs, content, i) && p == Join(dirs[i], content)
  }

  lemma FoundInFirst(ctx: Context, dirs: seq<Path>, content: Path, p: Path)
    ensures FoundIn(ctx, dirs, content, p) <==> FirstFile(ctx, JoinAll(dirs, content)) == Some(p)
  {
    FirstOfDirs(ctx, dirs, content);
    hide FirstFile, JoinAll, FirstIn, NoneIn;
  }

  /** The file a directive leads to, by stages: itself, beside the includer, then each kind of directory in order. */
  lemma ResolveStages(ctx: Context, parent: Path, d: Directive)
    ensures var c := d.content;
      Resolve(ctx, parent, d) ==
        if ByItself(ctx, d) then Some(c)
        else if Beside(ctx, parent, d) then Some(Join(ParentPath(parent), c))
        else if Quoted(ctx, d) then FirstFile(ctx, JoinAll(ctx.dirs.dashIquote, c))
        else if !NoneIn(ctx, ctx.dirs.dashI, c) then FirstFile(ctx, JoinAll(ctx.dirs.dashI, c))
        else FirstFile(ctx, JoinAll(ctx.dirs.dashIsystem, c))
  {
    var c := d.content;
    var own := if IsAbsolute(c) then [c] else [];
    var nearby := if d.angle then [] else Nearby(ctx, parent, c);
    FirstFileAppend(ctx, own, nearby + Common(ctx, c));
    FirstFileAppend(ctx, nearby, Common(ctx, c));
    FirstFileAppend(ctx, [Join(ParentPath(parent), c)], JoinAll(ctx.dirs.dashIquote, c));
    FirstFileAppend(ctx, JoinAll(ctx.dirs.dashI, c), JoinAll(ctx.dirs.dashIsystem, c));
    FirstFileOne(ctx, c);
    FirstFileOne(ctx, Join(ParentPath(parent), c));
    FirstOfDirs(ctx, ctx.dirs.dashIquote, c);
    FirstOfDirs(ctx, ctx.dirs.dashI, c);
    FirstOfDirs(ctx, ctx.dirs.dashIsystem, c);
    assert FirstFile(ctx, []) == None;
    hide JoinAll, Join, ParentPath, FirstIn, NoneIn, IsFile;
  }

  /** A directive resolves to a file exactly if the search order, told on the directories, chooses it. */
  lemma ResolvesInOrder(ctx: Context, parent: Path, d: Directive, p: Path)
    ensures Resolve(ctx, parent, d) == Some(p) <==> Chosen(ctx, parent, d, p)
  {
    ResolveStages(ctx, parent, d);
    FoundInFirst(ctx, ctx.dirs.dashIquote, d.content, p);
    FoundInFirst(ctx, ctx.dirs.dashI, d.content, p);
    FoundInFirst(ctx, ctx.dirs.dashIsystem, d.content, p);
    hide Resolve, FirstFile, JoinAll, FoundIn;
  }

  /** For the angle form: the first `-I` directory that has the file wins, and a `-isystem` one only if none has it. */
  lemma AngleTakesFirst(ctx: Context, parent: Path, content: Path, i: nat)
    requires !IsAbsolute(content)
    ensures FirstIn(ctx, ctx.dirs.dashI, content, i) ==>
      Resolve(ctx, parent, Directive(content, true)) == Some(Join(ctx.dirs.dashI[i], content))
    ensures NoneIn(ctx, ctx.dirs.dashI, content) && FirstIn(ctx, ctx.dirs.dashIsystem, content, i) ==>
      Resolve(ctx, parent, Directive(content, true)) == Some(Join(ctx.dirs.dashIsystem[i], content))
  {
    ResolveStages(ctx, parent, Directive(content, true));
    FirstOfDirs(ctx, ctx.dirs.dashI, content);
    FirstOfDirs(ctx, ctx.dirs.dashIsystem, content);
    hide Resolve, FirstFile, JoinAll, Join, IsFile;
  }

  // ---- The order of directives ------------------------------------------------------------------------------------------

  /** Directives are processed one after the other, each in the state the earlier ones left. */
  lemma {:induction false} ProcessedInOrder(ctx: Context, s: State, parent: Path, a: seq<Directive>, b: seq<Directive>)
    ensures ProcessAll(ctx, s, parent, a + b) == ProcessAll(ctx, ProcessAll(ctx, s, parent, a), parent, b)
    decreases |b|
  {
    if b == [] {
      assert a + b == a;
    } else {
      var front := b[..|b| - 1];
      ProcessedInOrder(ctx, s, parent, a, front);
      assert (a + b)[..|a + b| - 1] == a + front;
    }
  }

  /** The includes of the command line come first, as angle directives, then those of the source. */
  lemma ForcedComeFirst(ctx: Context, s: State, source: Path, includes: seq<Path>)
    requires IsFile(ctx, source)
    ensures Parse(ctx, s, source, includes)
         == (ProcessAll(ctx, s, source, seq(|includes|, i requires 0 <= i < |includes| => Directive(includes[i], true))
                                          + ctx.fs[source].directives), true)
  {
    ProcessedInOrder(ctx, s, source, Forced(includes), ctx.fs[source].directives);
    hide ProcessAll;
    assert Forced(includes) == seq(|includes|, i requires 0 <= i < |includes| => Directive(includes[i], true));
  }

  // ---- What gets into the cache -----------------------------------------------------------------------------------------

  /** The path starts with a `-isystem` directory and with no `-I` directory. */
  ghost predicate IsSystemHeader(dirs: CmdLineIncludeDirs, p: Path)
  {
    && (exists i :: 0 <= i < |dirs.dashIsystem| && dirs.dashIsystem[i] <= p)
    && (forall i | 0 <= i < |dirs.dashI| :: !(dirs.dashI[i] <= p))
  }

  ghost predicate IsStored(s: State, info: Info) { exists k :: k in s.infos && s.infos[k] == info }

  /** The cache holds system headers only, and every system header recorded. */
  ghost predicate Kept(ctx: Context, s: State)
  {
    && (forall k | k in s.infos :: IsSystemHeader(ctx.dirs, s.infos[k].path))
    && (forall x | x in s.found && IsSystemHeader(ctx.dirs, s.found[x].path) :: IsStored(s, s.found[x]))
  }

  lemma StorageIsForSystemHeaders(dirs: CmdLineIncludeDirs, p: Path)
    ensures RequiresStorage(dirs, p) <==> IsSystemHeader(dirs, p)
  {
    if RequiresStorage(dirs, p) {
      var d :| d in dirs.dashIsystem && d <= p;
      var i :| 0 <= i < |dirs.dashIsystem| && dirs.dashIsystem[i] == d;
      assert dirs.dashIsystem[i] <= p;
      forall j | 0 <= j < |dirs.dashI| ensures !(dirs.dashI[j] <= p) { assert dirs.dashI[j] in dirs.dashI; }
    }
    if IsSystemHeader(dirs, p) {
      var i :| 0 <= i < |dirs.dashIsystem| && dirs.dashIsystem[i] <= p;
      assert dirs.dashIsystem[i] in dirs.dashIsystem;
    }
  }

  lemma RecordedKept(ctx: Context, s: State, d: Directive, p: Path)
    requires Kept(ctx, s) && IsFile(ctx, p) && CacheKey(d, p) !in s.infos
    ensures Kept(ctx, Recorded(ctx, s, d, p))
  {
    StorageIsForSystemHeaders(ctx.dirs, p);
    hide RequiresStorage, IsSystemHeader, CacheKey;
    var t, k, info := Recorded(ctx, s, d, p), CacheKey(d, p), InfoOf(ctx, p);
    forall x | x in t.found && IsSystemHeader(ctx.dirs, t.found[x].path)
      ensures IsStored(t, t.found[x])
    {
      if x == p {
        assert t.infos[k] == info;
      } else {
        var j :| j in s.infos && s.infos[j] == s.found[x];
        assert t.infos[j] == t.found[x];
      }
    }
  }

  lemma NotedKept(ctx: Context, s: State, x: Path, k: Path)
    requires Kept(ctx, s) && k in s.infos
    ensures Kept(ctx, s.(found := s.found[x := s.infos[k]]))
  {
    hide IsSystemHeader;
    var t := s.(found := s.found[x := s.infos[k]]);
    forall y | y in t.found && IsSystemHeader(ctx.dirs, t.found[y].path)
      ensures IsStored(t, t.found[y])
    {
      if y == x {
        assert t.infos[k] == t.found[y];
      } else {
        var j :| j in s.infos && s.infos[j] == s.found[y];
        assert t.infos[j] == t.found[y];
      }
    }
  }

  lemma {:induction false} TryKept(ctx: Context, s: State, p: Path, d: Directive)
    requires Kept(ctx, s)
    ensures Kept(ctx, Try(ctx, s, p, d).0)
    decreases Left(ctx, s), 0, 0
  {
    hide Kept;
    if p in s.found {
    } else if CacheKey(d, p) in s.infos {
      NotedKept(ctx, s, p, CacheKey(d, p));
    } else if IsFile(ctx, p) {
      RecordedKept(ctx, s, d, p);
      RecordingShrinks(ctx, s, d, p);
      ProcessAllKept(ctx, Recorded(ctx, s, d, p), p, ctx.fs[p].directives);
    }
  }

  lemma {:induction false} TryEachKept(ctx: Context, s: State, candidates: seq<Path>, d: Directive)
    requires Kept(ctx, s)
    ensures Kept(ctx, TryEach(ctx, s, candidates, d).0)
    decreases Left(ctx, s), 1, |candidates|
  {
    hide Kept;
    if candidates != [] {
      TryKept(ctx, s, candidates[0], d);
      TryEachKept(ctx, s, candidates[1..], d);
    }
  }

  lemma {:induction false} ProcessKept(ctx: Context, s: State, parent: Path, d: Directive)
    requires Kept(ctx, s)
    ensures Kept(ctx, Process(ctx, s, parent, d).0)
    decreases Left(ctx, s), 2, 0
  {
    hide Kept;
    if Hit(s, d) {
      NotedKept(ctx, s, s.paths[d.content], s.paths[d.content]);
    } else {
      TryEachKept(ctx, s, Candidates(ctx, parent, d), d);
    }
  }

  lemma {:induction false} ProcessAllKept(ctx: Context, s: State, parent: Path, ds: seq<Directive>)
    requires Kept(ctx, s)
    ensures Kept(ctx, ProcessAll(ctx, s, parent, ds))
    decreases Left(ctx, s), 3, |ds|
  {
    hide Kept;
    if ds != [] {
      var front := ds[..|ds| - 1];
      ProcessAllKept(ctx, s, parent, front);
      var before := ProcessAll(ctx, s, parent, front);
      GrowingShrinks(ctx, s, before);
      ProcessKept(ctx, before, parent, ds[|ds| - 1]);
    }
  }

  lemma ParseKept(ctx: Context, s: State, source: Path, includes: seq<Path>)
    requires Kept(ctx, s)
    ensures Kept(ctx, Parse(ctx, s, source, includes).0)
  {
    hide Kept;
    if source in ctx.fs {
      ProcessAllKept(ctx, s, source, Forced(includes));
      ProcessAllKept(ctx, ProcessAll(ctx, s, source, Forced(includes)), source, DirectivesIn(ctx.fs[source]));
    }
  }

  lemma {:induction false} ServedKept(ctx: Context, runs: seq<Compile>)
    ensures Kept(ctx, Served(ctx, runs))
  {
    if runs != [] {
      var front, run := runs[..|runs| - 1], runs[|runs| - 1];
      ServedKept(ctx, front);
      assert Kept(ctx, Restarted(Served(ctx, front)));
      hide Kept;
      ParseKept(ctx, Restarted(Served(ctx, front)), run.source, run.includes);
    }
  }

  /**
   After any compilations the cache holds nothing but headers under a `-isystem` directory and under no `-I`
   directory, and of those it holds every one that the last compilation reported.
   */
  lemma {:induction false} CacheHoldsSystemHeaders(ctx: Context, runs: seq<Compile>)
    ensures var s := Served(ctx, runs);
      && (forall k | k in s.infos :: IsSystemHeader(ctx.dirs, s.infos[k].path))
      && (forall x | x in s.found && IsSystemHeader(ctx.dirs, s.found[x].path) :: exists k :: k in s.infos && s.infos[k] == s.found[x])
  {
    ServedKept(ctx, runs);
    hide Served, IsSystemHeader;
    var s := Served(ctx, runs);
    forall x | x in s.found && IsSystemHeader(ctx.dirs, s.found[x].path)
      ensures exists k :: k in s.infos && s.infos[k] == s.found[x]
    {
      assert IsStored(s, s.found[x]);
    }
  }

  // ---- What a cached name is answered with ------------------------------------------------------------------------------

  /** The first place an angle directive would be looked for. */
  function FirstPlace(ctx: Context, content: Path): Option<Path>
  {
    if IsAbsolute(content) then Some(content)
    else if ctx.dirs.dashI != [] then Some(Join(ctx.dirs.dashI[0], content))
    else if ctx.dirs.dashIsystem != [] then Some(Join(ctx.dirs.dashIsystem[0], content))
    else None
  }

  lemma FirstPlaceExactly(ctx: Context, parent: Path, content: Path)
    ensures var cs := Candidates(ctx, parent, Directive(content, true));
      FirstPlace(ctx, content) == if cs == [] then None else Some(cs[0])
  {
    hide Join;
  }

  /**
   A cached name is answered without a search: with the file it stands for, recorded under that file's own path if the
   path is cached too, and otherwise under the first place the name would be looked for.
   */
  lemma {:induction false} CachedAnswerExactly(ctx: Context, s: State, parent: Path, content: Path)
    requires AbsoluteDirs(ctx) && IsAbsolute(parent) && CacheOk(ctx, s) && content in s.infos
    ensures var d := Directive(content, true); var r, place := Resolve(ctx, parent, d), FirstPlace(ctx, content);
      && r.Some? && place.Some? && Process(ctx, s, parent, d).1
      && Process(ctx, s, parent, d).0 ==
           if r.value in s.infos then s.(found := s.found[r.value := InfoOf(ctx, r.value)])
           else if place.value in s.found then s
           else s.(found := s.found[place.value := InfoOf(ctx, r.value)])
  {
    var d := Directive(content, true);
    var candidates := Candidates(ctx, parent, d);
    assert ByName(ctx, content).Some? && candidates == Candidates(ctx, [], d);
    FirstPlaceExactly(ctx, parent, content);
    assert candidates != [] && ByName(ctx, content) == Resolve(ctx, parent, d);
    if Hit(s, d) {
      HitIsByName(ctx, s, parent, d);
    } else {
      hide AbsoluteDirs, Candidates, ByName, Resolve, FirstPlace;
      FirstAnswers(ctx, s, candidates, d);
    }
  }
}
