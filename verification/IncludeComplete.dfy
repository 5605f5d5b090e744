/**
 When a search that starts with a filled cache reports everything. A header answered from the cache is not
 expanded, so the report is complete only if the headers seen without looking behind cached ones include
 nothing else. That is also enough, unless one file is reached both through the cache and past it, or an
 answer recorded under a name that does not exist stands in the way of another directive.
 */
module IncludeComplete {
  import opened Bytes
  import opened Paths
  import opened IncludeDirs
  import opened Includes
  import opened IncludeClosure
  import opened IncludeCache

  /** One search: the files and directories, the cache it starts with, the source and the forced includes. */
  datatype Query = Query(ctx: Context, base: State, source: Path, includes: seq<Path>)

  ghost predicate Proper(q: Query)
  {
    && AbsoluteDirs(q.ctx) && CacheOk(q.ctx, q.base) && q.base.found == map[]
    && IsAbsolute(q.source) && q.source in q.ctx.fs
  }

  function Outcome(q: Query): State { Parse(q.ctx, q.base, q.source, q.includes).0 }

  ghost predicate Reports(s: State, p: Path) { exists x :: x in s.found && s.found[x].path == p }

  ghost function Reported(s: State): iset<Path> { iset p: Path | Reports(s, p) }

  // ---- What can be said before the search -------------------------------------------------------------------------------------

  ghost predicate Reach(q: Query, p: Path) { Reached(q.ctx, q.source, q.includes, p) }

  ghost function ReachSet(q: Query): iset<Path> { iset p: Path | Reach(q, p) }

  /** Closed under the directives of entered files that the cache does not answer. */
  ghost predicate Entering(q: Query, entered: iset<Path>)
  {
    FollowsFrom(q.ctx, q.base, AllFiles(q.ctx), entered, q.source, q.includes)
  }

  /** The headers reached without passing one answered from the cache. */
  ghost predicate Entered(q: Query, p: Path) { forall entered: iset<Path> | Entering(q, entered) :: p in entered }

  ghost function EnteredSet(q: Query): iset<Path> { iset p: Path | Entered(q, p) }

  /** `d` is a directive of the source or the command line. */
  ghost predicate IsRoot(q: Query, parent: Path, d: Directive)
  {
    parent == q.source && q.source in q.ctx.fs && (d in Forced(q.includes) || d in DirectivesIn(q.ctx.fs[q.source]))
  }

  ghost predicate IsIn(q: Query, parent: Path, d: Directive)
  {
    IsFile(q.ctx, parent) && d in q.ctx.fs[parent].directives
  }

  /** A directive the search can come across. */
  ghost predicate Asks(q: Query, parent: Path, d: Directive)
  {
    IsRoot(q, parent, d) || (Reach(q, parent) && IsIn(q, parent, d))
  }

  /** The headers named by the source, the command line or an entered file. */
  ghost predicate Seen(q: Query, p: Path)
  {
    exists parent, d ::
      (IsRoot(q, parent, d) || (Entered(q, parent) && IsIn(q, parent, d))) && Resolve(q.ctx, parent, d) == Some(p)
  }

  ghost function SeenSet(q: Query): iset<Path> { iset p: Path | Seen(q, p) }

  /** The headers seen include nothing but headers seen. */
  ghost predicate SelfContained(q: Query) { Closed(q.ctx, SeenSet(q)) }

  ghost predicate Complete(q: Query) { forall p | Reach(q, p) :: Reports(Outcome(q), p) }

  // ---- The closures are closed ------------------------------------------------------------------------------------------------

  lemma {:induction false} ReachSetClosed(q: Query)
    requires q.source in q.ctx.fs
    ensures ClosedFrom(q.ctx, ReachSet(q), q.source, q.includes)
  {
    forall p | p in ReachSet(q) && IsFile(q.ctx, p)
      ensures CoversAll(q.ctx, ReachSet(q), p, q.ctx.fs[p].directives)
    {
      ReachCovers(q, p, q.ctx.fs[p].directives);
    }
    RootsReach(q, Forced(q.includes));
    RootsReach(q, DirectivesIn(q.ctx.fs[q.source]));
  }

  lemma {:induction false} RootsReach(q: Query, ds: seq<Directive>)
    requires q.source in q.ctx.fs && (ds == Forced(q.includes) || ds == DirectivesIn(q.ctx.fs[q.source]))
    ensures CoversAll(q.ctx, ReachSet(q), q.source, ds)
  {
    forall i | 0 <= i < |ds|
      ensures Covers(q.ctx, ReachSet(q), q.source, ds[i])
    {
      forall headers: iset<Path> | ClosedFrom(q.ctx, headers, q.source, q.includes)
        ensures Covers(q.ctx, headers, q.source, ds[i])
      {
      }
    }
  }

  lemma {:induction false} ReachCovers(q: Query, p: Path, ds: seq<Directive>)
    requires Reach(q, p) && IsFile(q.ctx, p) && ds == q.ctx.fs[p].directives
    ensures CoversAll(q.ctx, ReachSet(q), p, ds)
  {
    forall i | 0 <= i < |ds|
      ensures Covers(q.ctx, ReachSet(q), p, ds[i])
    {
      forall headers: iset<Path> | ClosedFrom(q.ctx, headers, q.source, q.includes)
        ensures Covers(q.ctx, headers, p, ds[i])
      {
        assert p in headers && CoversAll(q.ctx, headers, p, ds);
      }
    }
  }

  /** A directive that the search can come across leads to a header reached. */
  lemma {:induction false} AskedIsReached(q: Query, parent: Path, d: Directive)
    requires q.source in q.ctx.fs && Asks(q, parent, d)
    ensures Covers(q.ctx, ReachSet(q), parent, d)
  {
    ReachSetClosed(q);
    if IsRoot(q, parent, d) {
      if d in Forced(q.includes) {
        var i :| 0 <= i < |Forced(q.includes)| && Forced(q.includes)[i] == d;
      } else {
        var ds := DirectivesIn(q.ctx.fs[q.source]);
        var i :| 0 <= i < |ds| && ds[i] == d;
      }
    } else {
      var ds := q.ctx.fs[parent].directives;
      var i :| 0 <= i < |ds| && ds[i] == d;
      assert parent in ReachSet(q);
    }
  }

  lemma {:induction false} EntersNext(q: Query, parent: Path, d: Directive)
    requires IsRoot(q, parent, d) || (Entered(q, parent) && IsIn(q, parent, d))
    ensures FromCache(q.ctx, q.base, parent, d) || Covers(q.ctx, EnteredSet(q), parent, d)
  {
    if !FromCache(q.ctx, q.base, parent, d) {
      forall entered: iset<Path> | Entering(q, entered)
        ensures Covers(q.ctx, entered, parent, d)
      {
        EnteringNext(q, entered, parent, d);
      }
    }
  }

  lemma {:induction false} EnteringNext(q: Query, entered: iset<Path>, parent: Path, d: Directive)
    requires Entering(q, entered) && (IsRoot(q, parent, d) || (parent in entered && IsIn(q, parent, d)))
    ensures FromCache(q.ctx, q.base, parent, d) || Covers(q.ctx, entered, parent, d)
  {
    hide FromCache, Covers;
    if IsRoot(q, parent, d) {
      if d in Forced(q.includes) {
        FollowsOne(q, entered, parent, Forced(q.includes), d);
      } else {
        FollowsOne(q, entered, parent, DirectivesIn(q.ctx.fs[q.source]), d);
      }
    } else {
      FollowsOne(q, entered, parent, q.ctx.fs[parent].directives, d);
    }
  }

  lemma {:induction false} FollowsOne(q: Query, entered: iset<Path>, parent: Path, ds: seq<Directive>, d: Directive)
    requires FollowsAll(q.ctx, q.base, AllFiles(q.ctx), entered, parent, ds) && d in ds
    ensures FromCache(q.ctx, q.base, parent, d) || Covers(q.ctx, entered, parent, d)
  {
    hide FromCache, Covers;
    var i :| 0 <= i < |ds| && ds[i] == d;
    assert Follows(q.ctx, q.base, AllFiles(q.ctx), entered, parent, ds[i]);
  }

  lemma {:induction false} SeesNext(q: Query, parent: Path, d: Directive)
    requires IsRoot(q, parent, d) || (Entered(q, parent) && IsIn(q, parent, d))
    ensures Follows(q.ctx, q.base, SeenSet(q), EnteredSet(q), parent, d)
  {
    EntersNext(q, parent, d);
    if Resolve(q.ctx, parent, d).Some? { assert Seen(q, Resolve(q.ctx, parent, d).value); }
  }

  lemma {:induction false} SeesAll(q: Query, parent: Path, ds: seq<Directive>)
    requires forall d | d in ds :: IsRoot(q, parent, d) || (Entered(q, parent) && IsIn(q, parent, d))
    ensures FollowsAll(q.ctx, q.base, SeenSet(q), EnteredSet(q), parent, ds)
  {
    hide Follows, IsRoot, Entered, IsIn;
    forall i | 0 <= i < |ds|
      ensures Follows(q.ctx, q.base, SeenSet(q), EnteredSet(q), parent, ds[i])
    {
      assert ds[i] in ds;
      SeesNext(q, parent, ds[i]);
    }
  }

  lemma {:induction false} SeenFollows(q: Query)
    requires q.source in q.ctx.fs
    ensures FollowsFrom(q.ctx, q.base, SeenSet(q), EnteredSet(q), q.source, q.includes)
  {
    hide FollowsAll, Entered;
    forall p | p in EnteredSet(q) && IsFile(q.ctx, p)
      ensures FollowsAll(q.ctx, q.base, SeenSet(q), EnteredSet(q), p, q.ctx.fs[p].directives)
    {
      SeesAll(q, p, q.ctx.fs[p].directives);
    }
    SeesAll(q, q.source, Forced(q.includes));
    SeesAll(q, q.source, DirectivesIn(q.ctx.fs[q.source]));
  }

  // ---- What is reported was seen ------------------------------------------------------------------------------------------------

  lemma {:induction false} ReportedIsSeen(q: Query, p: Path)
    requires Proper(q) && Reports(Outcome(q), p)
    ensures Seen(q, p)
  {
    SeenFollows(q);
    hide FollowsFrom, CacheOk, Seen, FollowsEntered, Learned;
    WarmParse(q.ctx, q.base, SeenSet(q), EnteredSet(q), q.source, q.includes);
    var x :| x in Outcome(q).found && Outcome(q).found[x].path == p;
  }

  lemma {:induction false} ReportedIsReached(q: Query, p: Path)
    requires Proper(q) && Reports(Outcome(q), p)
    ensures Reach(q, p) && IsFile(q.ctx, p)
  {
    ReachSetClosed(q);
    hide Reach, FollowsFrom, CacheOk, ClosedFrom, FollowsEntered, Learned;
    ClosedFollows(q.ctx, q.base, ReachSet(q), q.source, q.includes);
    WarmParse(q.ctx, q.base, ReachSet(q), ReachSet(q), q.source, q.includes);
    var x :| x in Outcome(q).found && Outcome(q).found[x].path == p;
  }

  lemma {:induction false} EnteredIsReached(q: Query, p: Path)
    requires q.source in q.ctx.fs && Entered(q, p)
    ensures Reach(q, p)
  {
    ReachSetClosed(q);
    ClosedFollows(q.ctx, q.base, ReachSet(q), q.source, q.includes);
    WidenSeen(q, ReachSet(q));
    assert Entering(q, ReachSet(q));
  }

  /** Any set of seen files may be widened to all files. */
  lemma {:induction false} WidenSeen(q: Query, entered: iset<Path>)
    requires FollowsFrom(q.ctx, q.base, entered, entered, q.source, q.includes)
    ensures Entering(q, entered)
  {
    hide FromCache;
    forall p | p in entered && IsFile(q.ctx, p)
      ensures FollowsAll(q.ctx, q.base, AllFiles(q.ctx), entered, p, q.ctx.fs[p].directives)
    {
      WidenAll(q, entered, p, q.ctx.fs[p].directives);
    }
    WidenAll(q, entered, q.source, Forced(q.includes));
    WidenAll(q, entered, q.source, DirectivesIn(q.ctx.fs[q.source]));
  }

  lemma {:induction false} WidenAll(q: Query, entered: iset<Path>, parent: Path, ds: seq<Directive>)
    requires FollowsAll(q.ctx, q.base, entered, entered, parent, ds)
    ensures FollowsAll(q.ctx, q.base, AllFiles(q.ctx), entered, parent, ds)
  {
    hide FromCache;
    forall i | 0 <= i < |ds|
      ensures Follows(q.ctx, q.base, AllFiles(q.ctx), entered, parent, ds[i])
    {
      assert Follows(q.ctx, q.base, entered, entered, parent, ds[i]);
    }
  }

  lemma {:induction false} SeenIsReached(q: Query, p: Path)
    requires q.source in q.ctx.fs && Seen(q, p)
    ensures Reach(q, p)
  {
    var parent, d :|
      (IsRoot(q, parent, d) || (Entered(q, parent) && IsIn(q, parent, d))) && Resolve(q.ctx, parent, d) == Some(p);
    if !IsRoot(q, parent, d) { EnteredIsReached(q, parent); }
    AskedIsReached(q, parent, d);
  }

  /** A complete report means that nothing lies behind the headers answered from the cache. */
  lemma {:induction false} CompleteIsSelfContained(q: Query)
    requires Proper(q) && Complete(q)
    ensures SelfContained(q)
  {
    hide Seen, Reach, Reports;
    forall p: Path
      ensures p in SeenSet(q) <==> p in ReachSet(q)
    {
      if Reach(q, p) { ReportedIsSeen(q, p); }
      if Seen(q, p) { SeenIsReached(q, p); }
    }
    assert SeenSet(q) == ReachSet(q);
    ReachSetClosed(q);
  }

  lemma {:induction false} SelfContainedCovers(q: Query, p: Path)
    requires q.source in q.ctx.fs && SelfContained(q) && Reach(q, p)
    ensures Seen(q, p)
  {
    SeenFollows(q);
    FollowedIsCovered(q, q.source, Forced(q.includes));
    FollowedIsCovered(q, q.source, DirectivesIn(q.ctx.fs[q.source]));
    hide Seen;
    assert ClosedFrom(q.ctx, SeenSet(q), q.source, q.includes);
  }

  lemma {:induction false} FollowedIsCovered(q: Query, parent: Path, ds: seq<Directive>)
    requires FollowsAll(q.ctx, q.base, SeenSet(q), EnteredSet(q), parent, ds)
    ensures CoversAll(q.ctx, SeenSet(q), parent, ds)
  {
    hide FromCache;
    forall i | 0 <= i < |ds|
      ensures Covers(q.ctx, SeenSet(q), parent, ds[i])
    {
      assert Follows(q.ctx, q.base, SeenSet(q), EnteredSet(q), parent, ds[i]);
    }
  }
}
