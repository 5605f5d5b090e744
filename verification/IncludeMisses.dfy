/**
 Searches that miss a header: behind one answered from the cache, and, though the search is self-contained, for
 each of the two reasons that `Regular` rules out.
 */
module IncludeMisses {
  import opened Bytes
  import opened Paths
  import opened IncludeDirs
  import opened Includes
  import opened IncludeClosure
  import opened IncludeCache
  import opened IncludeComplete
  import opened IncludeSurvey

  function Angle(name: Path): Directive { Directive(name, true) }
  function Quote(name: Path): Directive { Directive(name, false) }

  // ---- Evaluating a search --------------------------------------------------------------------------------------------------------

  /** Nothing of the candidate is known: it is opened. */
  lemma {:induction false} Opens(ctx: Context, s: State, parent: Path, d: Directive, p: Path)
    requires !Hit(s, d) && Candidates(ctx, parent, d) != [] && Candidates(ctx, parent, d)[0] == p
    requires p !in s.found && CacheKey(d, p) !in s.infos && IsFile(ctx, p)
    ensures Process(ctx, s, parent, d).0 == ProcessAll(ctx, Recorded(ctx, s, d, p), p, ctx.fs[p].directives)
  {
    var candidates := Candidates(ctx, parent, d);
    hide Candidates, RequiresStorage;
    TryOpens(ctx, s, p, d);
    assert Process(ctx, s, parent, d) == TryEach(ctx, s, candidates, d);
    assert TryEach(ctx, s, candidates, d) == Try(ctx, s, p, d);
  }

  lemma {:induction false} TryOpens(ctx: Context, s: State, p: Path, d: Directive)
    requires p !in s.found && CacheKey(d, p) !in s.infos && IsFile(ctx, p)
    ensures Try(ctx, s, p, d) == (ProcessAll(ctx, Recorded(ctx, s, d, p), p, ctx.fs[p].directives), true)
  {
    hide RequiresStorage;
  }

  /** The first candidate does not exist and is not known: the second is opened. */
  lemma {:induction false} OpensSecond(ctx: Context, s: State, parent: Path, d: Directive, c: Path, p: Path)
    requires !Hit(s, d) && |Candidates(ctx, parent, d)| >= 2 && Candidates(ctx, parent, d)[..2] == [c, p]
    requires c !in s.found && CacheKey(d, c) !in s.infos && !IsFile(ctx, c)
    requires p !in s.found && CacheKey(d, p) !in s.infos && IsFile(ctx, p)
    ensures Process(ctx, s, parent, d).0 == ProcessAll(ctx, Recorded(ctx, s, d, p), p, ctx.fs[p].directives)
  {
    var candidates := Candidates(ctx, parent, d);
    hide Candidates, RequiresStorage;
    assert candidates[0] == candidates[..2][0] && candidates[1..][0] == candidates[..2][1];
    TryOpens(ctx, s, p, d);
    assert !Try(ctx, s, c, d).1;
    assert Process(ctx, s, parent, d) == TryEach(ctx, s, candidates, d);
    assert TryEach(ctx, s, candidates, d) == TryEach(ctx, s, candidates[1..], d);
    assert TryEach(ctx, s, candidates[1..], d) == Try(ctx, s, p, d);
  }

  lemma {:induction false} Knows(ctx: Context, s: State, parent: Path, d: Directive)
    requires !Hit(s, d) && Candidates(ctx, parent, d) != [] && Candidates(ctx, parent, d)[0] in s.found
    ensures Process(ctx, s, parent, d).0 == s
  {
    var candidates := Candidates(ctx, parent, d);
    hide Candidates;
    assert Try(ctx, s, candidates[0], d) == (s, true);
    assert Process(ctx, s, parent, d) == TryEach(ctx, s, candidates, d);
  }

  lemma {:induction false} AllOfTwo(ctx: Context, s: State, parent: Path, d: Directive, e: Directive)
    ensures ProcessAll(ctx, s, parent, [d, e]) == Process(ctx, Process(ctx, s, parent, d).0, parent, e).0
  {
    hide Process;
    assert [d, e][..1] == [d] && [d][..0] == [];
    assert ProcessAll(ctx, s, parent, [d]) == Process(ctx, s, parent, d).0;
  }

  lemma {:induction false} AllOfOne(ctx: Context, s: State, parent: Path, d: Directive)
    ensures ProcessAll(ctx, s, parent, [d]) == Process(ctx, s, parent, d).0
  {
    hide Process;
    assert [d][..0] == [];
  }

  lemma ServedOnce(ctx: Context, source: Path)
    requires source in ctx.fs
    ensures Served(ctx, [Compile(source, [])]) == ProcessAll(ctx, FRESH, source, DirectivesIn(ctx.fs[source]))
  {
    hide ProcessAll;
    var runs := [Compile(source, [])];
    assert runs[..0] == [];
    assert Served(ctx, []) == FRESH && Restarted(FRESH) == FRESH;
    assert Forced([]) == [];
    assert ProcessAll(ctx, FRESH, source, []) == FRESH by { NoDirectives(ctx, FRESH, source); }
  }

  lemma NoDirectives(ctx: Context, s: State, parent: Path)
    ensures ProcessAll(ctx, s, parent, []) == s
  {
  }

  lemma OutcomeOf(ctx: Context, base: State, source: Path)
    requires source in ctx.fs
    ensures Outcome(Query(ctx, base, source, [])) == ProcessAll(ctx, base, source, DirectivesIn(ctx.fs[source]))
  {
    hide ProcessAll;
    assert Forced([]) == [];
    NoDirectives(ctx, base, source);
  }

  lemma {:induction false} FirstOf(ctx: Context, candidates: seq<Path>, c: Path, p: Path)
    requires |candidates| >= 2 && candidates[..2] == [c, p] && !IsFile(ctx, c) && IsFile(ctx, p)
    ensures FirstFile(ctx, candidates) == Some(p)
  {
    assert candidates[0] == candidates[..2][0] && candidates[1..][0] == candidates[..2][1];
  }

  // ---- Behind a cached header --------------------------------------------------------------------------------------------------------

  /** A source includes one header, which includes another; both are cached. */
  ghost predicate Chain(ctx: Context, m: Path, a: Path, b: Path, pa: Path, pb: Path)
  {
    && Candidates(ctx, m, Angle(a)) == [pa] && Candidates(ctx, pa, Angle(b)) == [pb]
    && m in ctx.fs && ctx.fs[m].File? && ctx.fs[m].directives == [Angle(a)]
    && IsFile(ctx, pa) && ctx.fs[pa].directives == [Angle(b)] && IsFile(ctx, pb) && ctx.fs[pb].directives == []
    && RequiresStorage(ctx.dirs, pa) && RequiresStorage(ctx.dirs, pb)
    && a != b && pa != pb && pa != a && pa != b
  }

  /** The first search finds and caches both. */
  lemma {:induction false} ChainServed(ctx: Context, m: Path, a: Path, b: Path, pa: Path, pb: Path)
    requires Chain(ctx, m, a, b, pa, pb)
    ensures Served(ctx, [Compile(m, [])])
         == State(map[pa := InfoOf(ctx, pa), pb := InfoOf(ctx, pb)], map[a := pa, b := pb],
                  map[a := InfoOf(ctx, pa), b := InfoOf(ctx, pb)])
  {
    ServedOnce(ctx, m);
    AllOfOne(ctx, FRESH, m, Angle(a));
    Opens(ctx, FRESH, m, Angle(a), pa);
    var s := Recorded(ctx, FRESH, Angle(a), pa);
    AllOfOne(ctx, s, pa, Angle(b));
    Opens(ctx, s, pa, Angle(b), pb);
    NoDirectives(ctx, Recorded(ctx, s, Angle(b), pb), pb);
  }

  /** The second search answers the first header from the cache and does not report the other, which is reached. */
  lemma {:induction false} BehindCacheMissed(ctx: Context, m: Path, a: Path, b: Path, pa: Path, pb: Path)
    requires Chain(ctx, m, a, b, pa, pb)
    ensures var q := After(ctx, [Compile(m, [])], m, []);
      Reached(ctx, m, [], pb) && Outcome(q).found == map[pa := InfoOf(ctx, pa)] && !Reports(Outcome(q), pb)
  {
    var q := After(ctx, [Compile(m, [])], m, []);
    ChainServed(ctx, m, a, b, pa, pb);
    OutcomeOf(ctx, q.base, m);
    AllOfOne(ctx, q.base, m, Angle(a));
    assert !Hit(q.base, Angle(a)) && NameCached(q.base, Angle(a));
    FirstAnswers(ctx, q.base, Candidates(ctx, m, Angle(a)), Angle(a));
    ChainReached(ctx, m, a, b, pa, pb);
  }

  lemma {:induction false} ChainReached(ctx: Context, m: Path, a: Path, b: Path, pa: Path, pb: Path)
    requires Chain(ctx, m, a, b, pa, pb)
    ensures Reached(ctx, m, [], pb)
  {
    assert FirstFile(ctx, [pa]) == Some(pa) && FirstFile(ctx, [pb]) == Some(pb);
    assert Resolve(ctx, m, Angle(a)) == Some(pa) && Resolve(ctx, pa, Angle(b)) == Some(pb);
    forall headers: iset<Path> | ClosedFrom(ctx, headers, m, [])
      ensures pb in headers
    {
      assert Covers(ctx, headers, m, DirectivesIn(ctx.fs[m])[0]);
      assert Covers(ctx, headers, pa, ctx.fs[pa].directives[0]);
    }
  }

  const CHAIN: Context := Context(
    map["/m" := File([Directive("a", true)], 0, []), "/s/a" := File([Directive("b", true)], 0, []), "/s/b" := File([], 0, [])],
    CmdLineIncludeDirs([], ["/s"], [], []))

  lemma {:induction false} OneDir(ctx: Context, parent: Path, name: Path, dir: Path, p: Path)
    requires ctx.dirs.dashI == [] && ctx.dirs.dashIsystem == [dir] && !IsAbsolute(name) && p == Join(dir, name)
    ensures Candidates(ctx, parent, Angle(name)) == [p]
  {
    assert JoinAll([dir], name) == [p] by { assert [dir][1..] == []; }
  }

  lemma {:induction false} ChainExists()
    ensures Chain(CHAIN, "/m", "a", "b", "/s/a", "/s/b")
  {
    assert "/s" + "/" + "a" == "/s/a" && "/s" + "/" + "b" == "/s/b";
    OneDir(CHAIN, "/m", "a", "/s", "/s/a");
    OneDir(CHAIN, "/s/a", "b", "/s", "/s/b");
    assert "/s/a"[..2] == "/s" && "/s/b"[..2] == "/s" && "/s" in ["/s"];
    assert "/s/a"[3] == 'a' && "/s/b"[3] == 'b';
  }

  /** A header that is reached and not reported by the second compilation of the same source. */
  lemma {:induction false} WarmSearchMisses()
    ensures var q := After(CHAIN, [Compile("/m", [])], "/m", []);
      Reached(CHAIN, "/m", [], "/s/b") && !Reports(Outcome(q), "/s/b") && !Complete(q)
  {
    ChainExists();
    BehindCacheMissed(CHAIN, "/m", "a", "b", "/s/a", "/s/b");
  }

  // ---- Reached both through the cache and past it -----------------------------------------------------------------------------------

  /** A source names a header by angle and by quote; only the angle name is cached, and the header includes another. */
  ghost predicate Twice(ctx: Context, m: Path, a: Path, b: Path, pa: Path, c: Path, pb: Path)
  {
    && Candidates(ctx, m, Angle(a)) == [pa]
    && Candidates(ctx, m, Quote(pa)) != [] && Candidates(ctx, m, Quote(pa))[0] == pa
    && |Candidates(ctx, pa, Quote(b))| >= 2 && Candidates(ctx, pa, Quote(b))[..2] == [c, pb]
    && m in ctx.fs && ctx.fs[m].File? && ctx.fs[m].directives == [Angle(a), Quote(pa)]
    && IsFile(ctx, pa) && ctx.fs[pa].directives == [Quote(b)] && IsFile(ctx, pb) && ctx.fs[pb].directives == []
    && RequiresStorage(ctx.dirs, pa) && !RequiresStorage(ctx.dirs, pb)
    && !IsFile(ctx, c) && pa != pb && pa != a && c != a && pb != a && c != pa
  }

  lemma {:induction false} TwiceServed(ctx: Context, m: Path, a: Path, b: Path, pa: Path, c: Path, pb: Path)
    requires Twice(ctx, m, a, b, pa, c, pb)
    ensures Served(ctx, [Compile(m, [])])
         == State(map[pa := InfoOf(ctx, pa), pb := InfoOf(ctx, pb)], map[a := pa], map[a := InfoOf(ctx, pa)])
  {
    ServedOnce(ctx, m);
    AllOfTwo(ctx, FRESH, m, Angle(a), Quote(pa));
    Opens(ctx, FRESH, m, Angle(a), pa);
    var s := Recorded(ctx, FRESH, Angle(a), pa);
    AllOfOne(ctx, s, pa, Quote(b));
    OpensSecond(ctx, s, pa, Quote(b), c, pb);
    var t := Recorded(ctx, s, Quote(b), pb);
    NoDirectives(ctx, t, pb);
    Knows(ctx, t, m, Quote(pa));
  }

  lemma {:induction false} TwiceMissed(ctx: Context, m: Path, a: Path, b: Path, pa: Path, c: Path, pb: Path)
    requires Twice(ctx, m, a, b, pa, c, pb)
    ensures var q := After(ctx, [Compile(m, [])], m, []);
      Outcome(q).found == map[pa := InfoOf(ctx, pa)] && !Reports(Outcome(q), pb)
  {
    var q := After(ctx, [Compile(m, [])], m, []);
    TwiceServed(ctx, m, a, b, pa, c, pb);
    OutcomeOf(ctx, q.base, m);
    AllOfTwo(ctx, q.base, m, Angle(a), Quote(pa));
    assert !Hit(q.base, Angle(a)) && NameCached(q.base, Angle(a));
    FirstAnswers(ctx, q.base, Candidates(ctx, m, Angle(a)), Angle(a));
    var s := Process(ctx, q.base, m, Angle(a)).0;
    assert s.found == map[pa := InfoOf(ctx, pa)];
    Knows(ctx, s, m, Quote(pa));
  }

  /** Yet the search is self-contained: the quoted form, which the cache does not answer, enters the header. */
  lemma {:induction false} TwiceSelfContained(ctx: Context, m: Path, a: Path, b: Path, pa: Path, c: Path, pb: Path)
    requires Twice(ctx, m, a, b, pa, c, pb)
    ensures var q := After(ctx, [Compile(m, [])], m, []);
      SelfContained(q) && Reached(ctx, m, [], pb)
  {
    var q := After(ctx, [Compile(m, [])], m, []);
    TwiceServed(ctx, m, a, b, pa, c, pb);
    assert Resolve(ctx, m, Quote(pa)) == Some(pa);
    FirstOf(ctx, Candidates(ctx, pa, Quote(b)), c, pb);
    assert DirectivesIn(ctx.fs[m])[1] == Quote(pa) && IsRoot(q, m, Quote(pa));
    EntersNext(q, m, Quote(pa));
    assert !FromCache(ctx, q.base, m, Quote(pa)) && Entered(q, pa);
    assert ctx.fs[pa].directives[0] == Quote(b) && IsIn(q, pa, Quote(b));
    assert Seen(q, pb);
    SeenIsReached(q, pb);
    forall p | p in SeenSet(q) && IsFile(ctx, p)
      ensures CoversAll(ctx, SeenSet(q), p, ctx.fs[p].directives)
    {
      TwiceSeen(q, ctx, m, a, b, pa, c, pb, p);
    }
  }

  lemma {:induction false} TwiceSeen(q: Query, ctx: Context, m: Path, a: Path, b: Path, pa: Path, c: Path, pb: Path, p: Path)
    requires Twice(ctx, m, a, b, pa, c, pb) && q.ctx == ctx && q.source == m && q.includes == [] && Seen(q, p)
    ensures p == pa || p == pb
  {
    SeenIsReached(q, p);
    FirstOf(ctx, Candidates(ctx, pa, Quote(b)), c, pb);
    assert Resolve(ctx, m, Angle(a)) == Some(pa) && Resolve(ctx, m, Quote(pa)) == Some(pa) && Resolve(ctx, pa, Quote(b)) == Some(pb);
    hide Resolve, Candidates, RequiresStorage, Seen, Reached;
    var both := iset{pa, pb};
    CoversTwo(ctx, both, m, Angle(a), Quote(pa));
    CoversOne(ctx, both, pa, Quote(b));
    ReachedAmong(ctx, m, pa, pb, p);
  }

  /** Two files that include nothing but each other are all that is reached. */
  lemma {:induction false} ReachedAmong(ctx: Context, m: Path, x: Path, y: Path, p: Path)
    requires m in ctx.fs && IsFile(ctx, x) && IsFile(ctx, y) && CoversAll(ctx, iset{x, y}, m, DirectivesIn(ctx.fs[m]))
    requires CoversAll(ctx, iset{x, y}, x, ctx.fs[x].directives) && CoversAll(ctx, iset{x, y}, y, ctx.fs[y].directives)
    requires Reached(ctx, m, [], p)
    ensures p == x || p == y
  {
    hide Covers;
    assert Forced([]) == [];
    assert ClosedFrom(ctx, iset{x, y}, m, []);
  }

  lemma CoversOne(ctx: Context, headers: iset<Path>, parent: Path, d: Directive)
    requires Covers(ctx, headers, parent, d)
    ensures CoversAll(ctx, headers, parent, [d])
  {
    hide Covers;
  }

  lemma CoversTwo(ctx: Context, headers: iset<Path>, parent: Path, d: Directive, e: Directive)
    requires Covers(ctx, headers, parent, d) && Covers(ctx, headers, parent, e)
    ensures CoversAll(ctx, headers, parent, [d, e])
  {
    hide Covers;
  }

  const TWICE: Context := Context(
    map["/m" := File([Directive("a", true), Directive("/s/a", false)], 0, []),
        "/s/a" := File([Directive("b", false)], 0, []), "/n/b" := File([], 0, [])],
    CmdLineIncludeDirs([], ["/s"], ["/n"], []))

  lemma {:induction false} ParentOf(dir: Path, name: Path)
    requires dir != [] && dir[0] == '/' && dir[|dir| - 1] != '/' && name != [] && forall i | 0 <= i < |name| :: name[i] != '/'
    ensures ParentPath(dir + "/" + name) == dir
  {
    var p := dir + "/" + name;
    LastComponentOf(dir + "/", name);
    RelativeOfDir(dir, "/" + name);
    RelativeOfDir(dir, "/");
    assert p == (dir + "/") + name && p == dir + ("/" + name);
    assert p[..LastComponent(p)] == dir + "/";
    assert (dir + "/")[..|dir|] == dir;
    assert TrimSlashes(dir + "/") == TrimSlashes(dir) == dir;
  }

  lemma {:induction false} LastComponentOf(front: Path, name: Path)
    requires front != [] && front[|front| - 1] == '/' && forall i | 0 <= i < |name| :: name[i] != '/'
    ensures LastComponent(front + name) == |front|
  {
    var p := front + name;
    if name == [] {
      assert p == front;
    } else {
      assert p[|p| - 1] == name[|name| - 1];
      assert p[..|p| - 1] == front + name[..|name| - 1];
      LastComponentOf(front, name[..|name| - 1]);
    }
  }

  /** A directory with a name of its own is not a root. */
  lemma {:induction false} RelativeOfDir(dir: Path, more: Path)
    requires dir != [] && dir[|dir| - 1] != '/'
    ensures RelativePath(dir + more) != []
  {
    if dir[0] == '/' {
      assert (dir + more)[1..] == dir[1..] + more;
      RelativeOfDir(dir[1..], more);
    }
  }

  lemma {:induction false} QuoteCandidates(ctx: Context, parent: Path, name: Path, dir: Path, quoted: Path)
    requires !IsAbsolute(name) && ParentPath(parent) == dir && ctx.dirs.dashIquote == [quoted]
    ensures var cs := Candidates(ctx, parent, Quote(name)); |cs| >= 2 && cs[..2] == [Join(dir, name), Join(quoted, name)]
  {
    assert JoinAll([quoted], name) == [Join(quoted, name)] by { assert [quoted][1..] == []; }
  }

  lemma {:induction false} TwiceCandidates()
    ensures Candidates(TWICE, "/m", Angle("a")) == ["/s/a"]
    ensures Candidates(TWICE, "/m", Quote("/s/a")) != [] && Candidates(TWICE, "/m", Quote("/s/a"))[0] == "/s/a"
    ensures |Candidates(TWICE, "/s/a", Quote("b"))| >= 2 && Candidates(TWICE, "/s/a", Quote("b"))[..2] == ["/s/b", "/n/b"]
  {
    assert "/s" + "/" + "a" == "/s/a" && "/s" + "/" + "b" == "/s/b" && "/n" + "/" + "b" == "/n/b";
    assert Join("/s", "a") == "/s/a" && Join("/s", "b") == "/s/b" && Join("/n", "b") == "/n/b";
    assert Candidates(TWICE, "/m", Quote("/s/a"))[0] == "/s/a";
    ParentOf("/s", "a");
    hide Candidates, ParentPath, Join, JoinAll;
    OneDir(TWICE, "/m", "a", "/s", "/s/a");
    QuoteCandidates(TWICE, "/s/a", "b", "/s", "/n");
  }

  lemma {:induction false} TwiceFiles()
    ensures "/m" in TWICE.fs && TWICE.fs["/m"] == File([Angle("a"), Quote("/s/a")], 0, [])
    ensures IsFile(TWICE, "/s/a") && TWICE.fs["/s/a"].directives == [Quote("b")]
    ensures IsFile(TWICE, "/n/b") && TWICE.fs["/n/b"].directives == [] && !IsFile(TWICE, "/s/b")
  {
    assert "/n/b"[1] == 'n' && "/s/b"[3] == 'b' && "/s/a"[3] == 'a' && "/s/a"[1] == 's';
  }

  lemma {:induction false} TwiceStored()
    ensures RequiresStorage(TWICE.dirs, "/s/a") && !RequiresStorage(TWICE.dirs, "/n/b")
  {
    assert "/s/a"[..2] == "/s" && "/n/b"[1] == 'n' && "/s" in ["/s"];
  }

  lemma {:induction false} TwiceExists()
    ensures Twice(TWICE, "/m", "a", "b", "/s/a", "/s/b", "/n/b")
  {
    TwiceCandidates();
    TwiceFiles();
    TwiceStored();
    assert "/n/b"[1] == 'n' && "/s/b"[3] == 'b' && "/s/a"[3] == 'a';
    hide Candidates, IsFile, RequiresStorage;
  }

  /** Self-contained and incomplete: the header answered for the angle name is not expanded for the quoted one. */
  lemma {:induction false} NotUniformMisses()
    ensures var q := After(TWICE, [Compile("/m", [])], "/m", []);
      SelfContained(q) && Reached(TWICE, "/m", [], "/n/b") && !Reports(Outcome(q), "/n/b") && !Complete(q)
  {
    TwiceExists();
    TwiceMissed(TWICE, "/m", "a", "b", "/s/a", "/s/b", "/n/b");
    TwiceSelfContained(TWICE, "/m", "a", "b", "/s/a", "/s/b", "/n/b");
  }

  // ---- Behind a name that does not exist ---------------------------------------------------------------------------------------------

  /** A source includes one name by angle and by quote. The first candidate of both does not exist. */
  ghost predicate Masked(ctx: Context, m: Path, a: Path, c: Path, pa: Path, pq: Path)
  {
    && |Candidates(ctx, m, Angle(a))| >= 2 && Candidates(ctx, m, Angle(a))[..2] == [c, pa]
    && |Candidates(ctx, m, Quote(a))| >= 2 && Candidates(ctx, m, Quote(a))[..2] == [c, pq]
    && m in ctx.fs && ctx.fs[m].File? && ctx.fs[m].directives == [Angle(a), Quote(a)]
    && IsFile(ctx, pa) && ctx.fs[pa].directives == [] && IsFile(ctx, pq) && ctx.fs[pq].directives == []
    && RequiresStorage(ctx.dirs, pa) && !RequiresStorage(ctx.dirs, pq)
    && !IsFile(ctx, c) && pa != pq && pa != a && c != a && pq != a
  }

  lemma {:induction false} MaskedServed(ctx: Context, m: Path, a: Path, c: Path, pa: Path, pq: Path)
    requires Masked(ctx, m, a, c, pa, pq)
    ensures Served(ctx, [Compile(m, [])])
         == State(map[pa := InfoOf(ctx, pa), pq := InfoOf(ctx, pq)], map[a := pa], map[a := InfoOf(ctx, pa)])
  {
    ServedOnce(ctx, m);
    AllOfTwo(ctx, FRESH, m, Angle(a), Quote(a));
    OpensSecond(ctx, FRESH, m, Angle(a), c, pa);
    var s := Recorded(ctx, FRESH, Angle(a), pa);
    NoDirectives(ctx, s, pa);
    OpensSecond(ctx, s, m, Quote(a), c, pq);
    NoDirectives(ctx, Recorded(ctx, s, Quote(a), pq), pq);
  }

  lemma {:induction false} MaskedMissed(ctx: Context, m: Path, a: Path, c: Path, pa: Path, pq: Path)
    requires Masked(ctx, m, a, c, pa, pq)
    ensures var q := After(ctx, [Compile(m, [])], m, []);
      Outcome(q).found == map[c := InfoOf(ctx, pa)] && !Reports(Outcome(q), pq)
  {
    var q := After(ctx, [Compile(m, [])], m, []);
    MaskedServed(ctx, m, a, c, pa, pq);
    OutcomeOf(ctx, q.base, m);
    AllOfTwo(ctx, q.base, m, Angle(a), Quote(a));
    assert !Hit(q.base, Angle(a)) && NameCached(q.base, Angle(a));
    assert Candidates(ctx, m, Angle(a))[0] == Candidates(ctx, m, Angle(a))[..2][0];
    assert Candidates(ctx, m, Quote(a))[0] == Candidates(ctx, m, Quote(a))[..2][0];
    FirstAnswers(ctx, q.base, Candidates(ctx, m, Angle(a)), Angle(a));
    var s := Process(ctx, q.base, m, Angle(a)).0;
    assert s.found == map[c := InfoOf(ctx, pa)];
    Knows(ctx, s, m, Quote(a));
  }

  lemma {:induction false} MaskedSelfContained(ctx: Context, m: Path, a: Path, c: Path, pa: Path, pq: Path)
    requires Masked(ctx, m, a, c, pa, pq)
    ensures var q := After(ctx, [Compile(m, [])], m, []);
      SelfContained(q) && Reached(ctx, m, [], pq)
  {
    var q := After(ctx, [Compile(m, [])], m, []);
    FirstOf(ctx, Candidates(ctx, m, Angle(a)), c, pa);
    FirstOf(ctx, Candidates(ctx, m, Quote(a)), c, pq);
    assert Resolve(ctx, m, Angle(a)) == Some(pa) && Resolve(ctx, m, Quote(a)) == Some(pq);
    assert DirectivesIn(ctx.fs[m])[1] == Quote(a) && IsRoot(q, m, Quote(a));
    assert Seen(q, pq);
    SeenIsReached(q, pq);
    hide Resolve, Candidates, RequiresStorage, Seen, Served, Reached;
    CoversTwo(ctx, iset{pa, pq}, m, Angle(a), Quote(a));
    forall p | p in SeenSet(q) && IsFile(ctx, p)
      ensures ctx.fs[p].directives == []
    {
      SeenIsReached(q, p);
      ReachedAmong(ctx, m, pa, pq, p);
    }
  }

  const MASKED: Context := Context(
    map["/i/m" := File([Directive("a", true), Directive("a", false)], 0, []),
        "/s/a" := File([], 0, []), "/q/a" := File([], 0, [])],
    CmdLineIncludeDirs(["/i"], ["/s"], ["/q"], []))

  lemma {:induction false} TwoDirs(ctx: Context, parent: Path, name: Path, first: Path, second: Path)
    requires ctx.dirs.dashI == [first] && ctx.dirs.dashIsystem == [second] && !IsAbsolute(name)
    ensures Candidates(ctx, parent, Angle(name)) == [Join(first, name), Join(second, name)]
  {
    assert JoinAll([first], name) == [Join(first, name)] by { assert [first][1..] == []; }
    assert JoinAll([second], name) == [Join(second, name)] by { assert [second][1..] == []; }
  }

  lemma {:induction false} MaskedCandidates()
    ensures Candidates(MASKED, "/i/m", Angle("a")) == ["/i/a", "/s/a"]
    ensures |Candidates(MASKED, "/i/m", Quote("a"))| >= 2 && Candidates(MASKED, "/i/m", Quote("a"))[..2] == ["/i/a", "/q/a"]
  {
    assert "/i" + "/" + "a" == "/i/a" && "/s" + "/" + "a" == "/s/a" && "/q" + "/" + "a" == "/q/a" && "/i" + "/" + "m" == "/i/m";
    assert Join("/i", "a") == "/i/a" && Join("/s", "a") == "/s/a" && Join("/q", "a") == "/q/a";
    ParentOf("/i", "m");
    hide Candidates, ParentPath, Join, JoinAll;
    TwoDirs(MASKED, "/i/m", "a", "/i", "/s");
    QuoteCandidates(MASKED, "/i/m", "a", "/i", "/q");
  }

  lemma {:induction false} MaskedFiles()
    ensures "/i/m" in MASKED.fs && MASKED.fs["/i/m"] == File([Angle("a"), Quote("a")], 0, [])
    ensures IsFile(MASKED, "/s/a") && MASKED.fs["/s/a"].directives == []
    ensures IsFile(MASKED, "/q/a") && MASKED.fs["/q/a"].directives == [] && !IsFile(MASKED, "/i/a")
  {
    assert "/s/a"[1] == 's' && "/q/a"[1] == 'q' && "/i/a"[1] == 'i' && "/i/m"[3] == 'm' && "/i/a"[3] == 'a';
  }

  lemma {:induction false} MaskedStored()
    ensures RequiresStorage(MASKED.dirs, "/s/a") && !RequiresStorage(MASKED.dirs, "/q/a")
  {
    assert "/s/a"[..2] == "/s" && "/s" in ["/s"] && "/s/a"[1] == 's' && "/q/a"[1] == 'q';
  }

  lemma {:induction false} MaskedExists()
    ensures Masked(MASKED, "/i/m", "a", "/i/a", "/s/a", "/q/a")
  {
    MaskedCandidates();
    MaskedFiles();
    MaskedStored();
    assert "/s/a"[1] == 's' && "/q/a"[1] == 'q';
    hide Candidates, IsFile, RequiresStorage;
  }

  /** Self-contained and incomplete: an answer recorded under a name that does not exist hides a quoted header. */
  lemma {:induction false} MaskMisses()
    ensures var q := After(MASKED, [Compile("/i/m", [])], "/i/m", []);
      SelfContained(q) && Reached(MASKED, "/i/m", [], "/q/a") && !Reports(Outcome(q), "/q/a") && !Complete(q)
  {
    MaskedExists();
    MaskedMissed(MASKED, "/i/m", "a", "/i/a", "/s/a", "/q/a");
    MaskedSelfContained(MASKED, "/i/m", "a", "/i/a", "/s/a", "/q/a");
  }
}
