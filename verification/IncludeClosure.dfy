/** What the include search reports, without and with a cache. */
module IncludeClosure {
  import opened Bytes
  import opened Paths
  import opened IncludeDirs
  import opened Includes

  // ---- The closure ------------------------------------------------------------------------------------------------------

  ghost predicate Covers(ctx: Context, headers: iset<Path>, parent: Path, d: Directive)
  {
    Resolve(ctx, parent, d).Some? ==> Resolve(ctx, parent, d).value in headers
  }

  ghost predicate CoversAll(ctx: Context, headers: iset<Path>, parent: Path, ds: seq<Directive>)
  {
    forall i | 0 <= i < |ds| :: Covers(ctx, headers, parent, ds[i])
  }

  /** Whatever the files of the set include is in the set. */
  ghost predicate Closed(ctx: Context, headers: iset<Path>)
  {
    forall p | p in headers && IsFile(ctx, p) :: CoversAll(ctx, headers, p, ctx.fs[p].directives)
  }

  /** Closed, and holding what the source and the command line include. */
  ghost predicate ClosedFrom(ctx: Context, headers: iset<Path>, source: Path, includes: seq<Path>)
  {
    && Closed(ctx, headers) && source in ctx.fs
    && CoversAll(ctx, headers, source, Forced(includes)) && CoversAll(ctx, headers, source, DirectivesIn(ctx.fs[source]))
  }

  /** The headers a compilation of `source` can reach: in every closed set. */
  ghost predicate Reached(ctx: Context, source: Path, includes: seq<Path>, p: Path)
  {
    forall headers: iset<Path> | ClosedFrom(ctx, headers, source, includes) :: p in headers
  }

  function Found(s: State): iset<Path> { iset p | p in s.found }

  // ---- Without caching ----------------------------------------------------------------------------------------------------

  /** The cache is empty and no header qualifies for it. */
  ghost predicate Cold(ctx: Context, s: State)
  {
    && s.infos == map[] && s.paths == map[]
    && (forall p | IsFile(ctx, p) :: !RequiresStorage(ctx.dirs, p))
    && (forall p | p in s.found :: IsFile(ctx, p) && s.found[p] == InfoOf(ctx, p))
  }

  ghost predicate Inside(s: State, headers: iset<Path>) { Found(s) <= headers }

  /** What `p` includes has been recorded. */
  ghost predicate Expanded(ctx: Context, s: State, p: Path)
  {
    IsFile(ctx, p) ==> CoversAll(ctx, Found(s), p, ctx.fs[p].directives)
  }

  /** From `s` to `t` the search stayed cold and every header it recorded was expanded. */
  ghost predicate Searched(ctx: Context, s: State, t: State)
  {
    && Cold(ctx, t) && s.found.Keys <= t.found.Keys
    && forall p | p in t.found && p !in s.found :: Expanded(ctx, t, p)
  }

  lemma {:induction false} CoversMore(ctx: Context, a: iset<Path>, b: iset<Path>, parent: Path, ds: seq<Directive>)
    requires a <= b && CoversAll(ctx, a, parent, ds)
    ensures CoversAll(ctx, b, parent, ds)
  {
    forall i | 0 <= i < |ds|
      ensures Covers(ctx, b, parent, ds[i])
    {
      assert Covers(ctx, a, parent, ds[i]);
    }
  }

  lemma {:induction false} SearchedTransitive(ctx: Context, s: State, t: State, u: State)
    requires Searched(ctx, s, t) && Searched(ctx, t, u)
    ensures Searched(ctx, s, u)
  {
    forall p | p in u.found && p !in s.found
      ensures Expanded(ctx, u, p)
    {
      if p in t.found && IsFile(ctx, p) { CoversMore(ctx, Found(t), Found(u), p, ctx.fs[p].directives); }
    }
  }

  lemma {:induction false} ColdTry(ctx: Context, s: State, p: Path, d: Directive)
    requires Cold(ctx, s)
    ensures Searched(ctx, s, Try(ctx, s, p, d).0) && Try(ctx, s, p, d).1 == IsFile(ctx, p)
    ensures IsFile(ctx, p) ==> p in Try(ctx, s, p, d).0.found
    decreases Left(ctx, s), 0, 0
  {
    if p !in s.found && IsFile(ctx, p) {
      var r := Recorded(ctx, s, d, p);
      RecordingShrinks(ctx, s, d, p);
      assert Cold(ctx, r);
      hide CoversAll, CacheKey, RequiresStorage;
      ColdProcessAll(ctx, r, p, ctx.fs[p].directives);
      var t := ProcessAll(ctx, r, p, ctx.fs[p].directives);
      assert Try(ctx, s, p, d) == (t, true);
      assert Expanded(ctx, t, p);
    }
  }

  lemma {:induction false} ColdTryEach(ctx: Context, s: State, candidates: seq<Path>, d: Directive)
    requires Cold(ctx, s)
    ensures var (t, ok) := TryEach(ctx, s, candidates, d); var r := FirstFile(ctx, candidates);
      Searched(ctx, s, t) && ok == r.Some? && (ok ==> r.value in t.found)
    decreases Left(ctx, s), 1, |candidates|
  {
    if candidates != [] {
      ColdTry(ctx, s, candidates[0], d);
      if !Try(ctx, s, candidates[0], d).1 { ColdTryEach(ctx, s, candidates[1..], d); }
    }
  }

  lemma {:induction false} ColdProcess(ctx: Context, s: State, parent: Path, d: Directive)
    requires Cold(ctx, s)
    ensures var (t, ok) := Process(ctx, s, parent, d);
      Searched(ctx, s, t) && ok == Resolve(ctx, parent, d).Some? && Covers(ctx, Found(t), parent, d)
    decreases Left(ctx, s), 2, 0
  {
    ColdTryEach(ctx, s, Candidates(ctx, parent, d), d);
  }

  lemma {:induction false} CoversOneMore(ctx: Context, headers: iset<Path>, parent: Path, ds: seq<Directive>)
    requires ds != [] && CoversAll(ctx, headers, parent, ds[..|ds| - 1]) && Covers(ctx, headers, parent, ds[|ds| - 1])
    ensures CoversAll(ctx, headers, parent, ds)
  {
    hide Covers;
  }

  lemma {:induction false} ColdProcessAll(ctx: Context, s: State, parent: Path, ds: seq<Directive>)
    requires Cold(ctx, s)
    ensures var t := ProcessAll(ctx, s, parent, ds); Searched(ctx, s, t) && CoversAll(ctx, Found(t), parent, ds)
    decreases Left(ctx, s), 3, |ds|
  {
    if ds != [] {
      hide Process, Covers, Expanded;
      var front, d := ds[..|ds| - 1], ds[|ds| - 1];
      ColdProcessAll(ctx, s, parent, front);
      var before, t := ProcessAll(ctx, s, parent, front), ProcessAll(ctx, s, parent, ds);
      GrowingShrinks(ctx, s, before);
      ColdProcess(ctx, before, parent, d);
      SearchedTransitive(ctx, s, before, t);
      CoversMore(ctx, Found(before), Found(t), parent, front);
      CoversOneMore(ctx, Found(t), parent, ds);
    }
  }

  // A closed set that holds what is searched for holds all that is recorded.

  lemma {:induction false} InsideTry(ctx: Context, s: State, headers: iset<Path>, p: Path, d: Directive)
    requires Cold(ctx, s) && Closed(ctx, headers) && Inside(s, headers) && (IsFile(ctx, p) ==> p in headers)
    ensures Inside(Try(ctx, s, p, d).0, headers)
    decreases Left(ctx, s), 0, 0
  {
    if p !in s.found && IsFile(ctx, p) {
      RecordingShrinks(ctx, s, d, p);
      assert Cold(ctx, Recorded(ctx, s, d, p));
      InsideProcessAll(ctx, Recorded(ctx, s, d, p), headers, p, ctx.fs[p].directives);
    }
  }

  lemma {:induction false} InsideTryEach(ctx: Context, s: State, headers: iset<Path>, candidates: seq<Path>, d: Directive)
    requires Cold(ctx, s) && Closed(ctx, headers) && Inside(s, headers)
    requires FirstFile(ctx, candidates).Some? ==> FirstFile(ctx, candidates).value in headers
    ensures Inside(TryEach(ctx, s, candidates, d).0, headers)
    decreases Left(ctx, s), 1, |candidates|
  {
    if candidates != [] {
      hide Closed;
      InsideTry(ctx, s, headers, candidates[0], d);
      ColdTry(ctx, s, candidates[0], d);
      if !IsFile(ctx, candidates[0]) { InsideTryEach(ctx, s, headers, candidates[1..], d); }
    }
  }

  lemma {:induction false} InsideProcessAll(ctx: Context, s: State, headers: iset<Path>, parent: Path, ds: seq<Directive>)
    requires Cold(ctx, s) && Closed(ctx, headers) && Inside(s, headers) && CoversAll(ctx, headers, parent, ds)
    ensures Inside(ProcessAll(ctx, s, parent, ds), headers)
    decreases Left(ctx, s), 3, |ds|
  {
    if ds != [] {
      hide Closed;
      var front, d := ds[..|ds| - 1], ds[|ds| - 1];
      InsideProcessAll(ctx, s, headers, parent, front);
      ColdProcessAll(ctx, s, parent, front);
      var before := ProcessAll(ctx, s, parent, front);
      GrowingShrinks(ctx, s, before);
      assert Covers(ctx, headers, parent, d);
      InsideTryEach(ctx, before, headers, Candidates(ctx, parent, d), d);
      assert !Hit(before, d);
    }
  }

  const FRESH: State := State(map[], map[], map[])

  lemma {:induction false} ColdIsClosed(ctx: Context, source: Path, includes: seq<Path>)
    requires Cold(ctx, FRESH) && source in ctx.fs
    ensures var t := Parse(ctx, FRESH, source, includes).0; Cold(ctx, t) && ClosedFrom(ctx, Found(t), source, includes)
  {
    hide Covers;
    var forced := ProcessAll(ctx, FRESH, source, Forced(includes));
    var t := Parse(ctx, FRESH, source, includes).0;
    ColdProcessAll(ctx, FRESH, source, Forced(includes));
    ColdProcessAll(ctx, forced, source, DirectivesIn(ctx.fs[source]));
    SearchedTransitive(ctx, FRESH, forced, t);
    CoversMore(ctx, Found(forced), Found(t), source, Forced(includes));
    forall p | p in Found(t) && IsFile(ctx, p)
      ensures CoversAll(ctx, Found(t), p, ctx.fs[p].directives)
    {
      assert Expanded(ctx, t, p);
    }
  }

  lemma {:induction false} ColdIsInside(ctx: Context, source: Path, includes: seq<Path>, headers: iset<Path>)
    requires Cold(ctx, FRESH) && ClosedFrom(ctx, headers, source, includes)
    ensures Inside(Parse(ctx, FRESH, source, includes).0, headers)
  {
    hide Covers, Closed, CoversAll;
    ColdProcessAll(ctx, FRESH, source, Forced(includes));
    InsideProcessAll(ctx, FRESH, headers, source, Forced(includes));
    InsideProcessAll(ctx, ProcessAll(ctx, FRESH, source, Forced(includes)), headers, source, DirectivesIn(ctx.fs[source]));
  }

  /**
   When no header qualifies for the cache, the search terminates on every file system, cyclic or not, and
   records exactly the headers reached from the source and the command line, each with its own contents.
   */
  lemma {:induction false} ColdSearchExact(ctx: Context, source: Path, includes: seq<Path>, p: Path)
    requires (forall q | IsFile(ctx, q) :: !RequiresStorage(ctx.dirs, q)) && source in ctx.fs
    ensures var (t, ok) := Parse(ctx, FRESH, source, includes);
      && ok && ClosedFrom(ctx, Found(t), source, includes)
      && (p in t.found <==> Reached(ctx, source, includes, p))
      && (p in t.found ==>
            && IsFile(ctx, p) && t.found[p].path == p && t.found[p].children == ctx.fs[p].directives
            && t.found[p].size == ctx.fs[p].size && t.found[p].sha1 == ctx.fs[p].sha1)
  {
    ColdIsClosed(ctx, source, includes);
    var t := Parse(ctx, FRESH, source, includes).0;
    hide ClosedFrom;
    if p in t.found {
      forall headers: iset<Path> | ClosedFrom(ctx, headers, source, includes)
        ensures p in headers
      {
        ColdIsInside(ctx, source, includes, headers);
        assert p in Found(t);
      }
    }
  }
}
