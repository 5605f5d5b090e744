/** The other half: a self-contained search reports everything, if nothing stands in its way. */
module IncludeSurvey {
  import opened Bytes
  import opened Paths
  import opened IncludeDirs
  import opened Includes
  import opened IncludeClosure
  import opened IncludeCache
  import opened IncludeComplete

  // ---- What can stand in the way ------------------------------------------------------------------------------------------------

  /** Some directive the search can come across has the cache answer for `p`. */
  ghost predicate Answered(q: Query, p: Path)
  {
    exists parent, d :: Asks(q, parent, d) && FromCache(q.ctx, q.base, parent, d) && Resolve(q.ctx, parent, d) == Some(p)
  }

  /** No file is named both by a directive the cache answers and by one it does not. */
  ghost predicate Uniform(q: Query)
  {
    forall parent, d | Asks(q, parent, d) && Resolve(q.ctx, parent, d).Some? && Answered(q, Resolve(q.ctx, parent, d).value) ::
      FromCache(q.ctx, q.base, parent, d)
  }

  /** An answer for the name `k` is recorded under its first candidate `c`, a file that does not exist. */
  ghost predicate Phantom(q: Query, k: Path, c: Path)
  {
    var candidates, r := Candidates(q.ctx, [], Directive(k, true)), ByName(q.ctx, k);
    && r.Some? && (k in q.base.infos || RequiresStorage(q.ctx.dirs, r.value))
    && candidates != [] && c == candidates[0] && !IsFile(q.ctx, c)
  }

  ghost predicate Masks(q: Query, c: Path, r: Path)
  {
    exists parent, k :: Asks(q, parent, Directive(k, true)) && Phantom(q, k, c) && ByName(q.ctx, k) == Some(r)
  }

  /** A directive with such a name among its candidates resolves to the file recorded under it. */
  ghost predicate Unmasked(q: Query)
  {
    forall c, r, parent, d | Masks(q, c, r) && Asks(q, parent, d) && c in Candidates(q.ctx, parent, d) ::
      Resolve(q.ctx, parent, d) == Some(r)
  }

  ghost predicate Regular(q: Query) { Proper(q) && Uniform(q) && Unmasked(q) }

  // ---- What the search keeps ------------------------------------------------------------------------------------------------------

  ghost predicate EntryOk(q: Query, x: Path, info: Info)
  {
    (IsFile(q.ctx, x) && info == InfoOf(q.ctx, x)) || Masks(q, x, info.path)
  }

  /** Names stored by this search belong to headers it has reported. */
  ghost predicate Stored(q: Query, s: State)
  {
    && q.base.infos.Keys <= s.infos.Keys
    && forall k | k in s.infos && k !in q.base.infos ::
         var r := ByName(q.ctx, k); r.Some? && RequiresStorage(q.ctx.dirs, r.value) && Reports(s, r.value)
  }

  ghost predicate Filed(q: Query, s: State)
  {
    CacheOk(q.ctx, s) && Stored(q, s) && forall x | x in s.found :: EntryOk(q, x, s.found[x])
  }

  /** Answered from the cache, or expanded. */
  ghost predicate Settled(q: Query, s: State, p: Path)
  {
    Answered(q, p) || (IsFile(q.ctx, p) ==> CoversAll(q.ctx, Reported(s), p, q.ctx.fs[p].directives))
  }

  ghost predicate Grows(s: State, t: State) { forall p | Reports(s, p) :: Reports(t, p) }

  /** From `s` to `t` everything newly reported was answered from the cache or expanded. */
  ghost predicate Surveyed(q: Query, s: State, t: State)
  {
    Filed(q, t) && Grows(s, t) && forall p | Reports(t, p) && !Reports(s, p) :: Settled(q, t, p)
  }

  lemma {:induction false} SettledLater(q: Query, s: State, t: State, p: Path)
    requires Grows(s, t) && Settled(q, s, p)
    ensures Settled(q, t, p)
  {
    hide Answered, Reports;
    if IsFile(q.ctx, p) && CoversAll(q.ctx, Reported(s), p, q.ctx.fs[p].directives) {
      CoversMore(q.ctx, Reported(s), Reported(t), p, q.ctx.fs[p].directives);
    }
  }

  lemma {:induction false} SurveyedTransitive(q: Query, s: State, t: State, u: State)
    requires Surveyed(q, s, t) && Surveyed(q, t, u)
    ensures Surveyed(q, s, u)
  {
    hide Filed, Reports, Settled;
    forall p | Reports(u, p) && !Reports(s, p)
      ensures Settled(q, u, p)
    {
      if Reports(t, p) { SettledLater(q, t, u, p); }
    }
  }

  // ---- Answers from the cache -------------------------------------------------------------------------------------------------------

  function Noted(s: State, x: Path, info: Info): State { s.(found := s.found[x := info]) }

  lemma {:induction false} NotedReports(s: State, x: Path, info: Info, p: Path)
    requires x !in s.found || s.found[x] == info
    ensures Reports(Noted(s, x, info), p) <==> Reports(s, p) || p == info.path
  {
    var t := Noted(s, x, info);
    if Reports(s, p) {
      var y :| y in s.found && s.found[y].path == p;
      assert y in t.found && t.found[y].path == p;
    }
    assert x in t.found && t.found[x].path == info.path;
  }

  lemma {:induction false} NotedGrows(s: State, x: Path, info: Info)
    requires x !in s.found || s.found[x] == info
    ensures Grows(s, Noted(s, x, info)) && Reports(Noted(s, x, info), info.path)
  {
    hide Reports;
    forall p | Reports(s, p)
      ensures Reports(Noted(s, x, info), p)
    {
      NotedReports(s, x, info, p);
    }
    NotedReports(s, x, info, info.path);
  }

  lemma {:induction false} NotedSurveyed(q: Query, s: State, x: Path, info: Info)
    requires Filed(q, s) && (x !in s.found || s.found[x] == info) && EntryOk(q, x, info)
    requires Reports(s, info.path) || Answered(q, info.path)
    ensures Surveyed(q, s, Noted(s, x, info)) && Reports(Noted(s, x, info), info.path)
  {
    hide Reports, Answered, EntryOk, CacheOk;
    var t := Noted(s, x, info);
    NotedGrows(s, x, info);
    assert CacheOk(q.ctx, t) by { CacheOfNoted(q, s, x, info); }
    forall p | Reports(t, p) && !Reports(s, p)
      ensures Settled(q, t, p)
    {
      NotedReports(s, x, info, p);
    }
  }

  lemma CacheOfNoted(q: Query, s: State, x: Path, info: Info)
    requires CacheOk(q.ctx, s)
    ensures CacheOk(q.ctx, Noted(s, x, info))
  {
  }

  /** A header the cache answers for has been reported, or was in the cache from the start. */
  lemma {:induction false} ReportedOrAnswered(q: Query, s: State, parent: Path, d: Directive, r: Path)
    requires Stored(q, s) && Asks(q, parent, d) && Resolve(q.ctx, parent, d) == Some(r)
    requires CacheKey(d, r) in s.infos && ByName(q.ctx, CacheKey(d, r)) == Some(r)
    ensures Reports(s, r) || Answered(q, r)
  {
    hide Resolve, Reports, Asks, ByName, CacheKey;
    if CacheKey(d, r) in q.base.infos {
      assert FromCache(q.ctx, q.base, parent, d);
    }
  }

  /** The candidate is recorded already: the directive's file is reported. */
  lemma {:induction false} FoundCovers(q: Query, s: State, parent: Path, d: Directive, candidates: seq<Path>)
    requires Regular(q) && Filed(q, s) && Asks(q, parent, d) && candidates != [] && candidates[0] in s.found
    requires FirstFile(q.ctx, candidates) == Resolve(q.ctx, parent, d) && candidates[0] in Candidates(q.ctx, parent, d)
    ensures Covers(q.ctx, Reported(s), parent, d)
  {
    var c := candidates[0];
    assert EntryOk(q, c, s.found[c]);
    assert Reports(s, s.found[c].path);
    hide Proper, Uniform, CacheOk, Stored, Reports, Asks, Masks;
    if !IsFile(q.ctx, c) { assert Masks(q, c, s.found[c].path); }
  }

  lemma {:induction false} SurveyHit(q: Query, s: State, parent: Path, d: Directive)
    requires Regular(q) && Filed(q, s) && Asks(q, parent, d) && IsAbsolute(parent) && Hit(s, d)
    ensures var t := Process(q.ctx, s, parent, d).0; Surveyed(q, s, t) && Covers(q.ctx, Reported(t), parent, d)
  {
    var r := s.paths[d.content];
    HitIsByName(q.ctx, s, parent, d);
    assert ByName(q.ctx, d.content) == Some(r) && d.content in s.infos && d.content in s.paths;
    hide Asks, Unmasked, Uniform, Masks, Reports, Answered, Resolve, ByName, CacheOk;
    ReportedOrAnswered(q, s, parent, d, r);
    if r in s.found { FileEntry(q, r, s.found[r]); }
    NotedSurveyed(q, s, r, InfoOf(q.ctx, r));
  }

  /** An existing file is recorded with its own contents. */
  lemma {:induction false} FileEntry(q: Query, x: Path, info: Info)
    requires EntryOk(q, x, info) && IsFile(q.ctx, x)
    ensures info == InfoOf(q.ctx, x)
  {
    hide Asks, ByName, RequiresStorage, Candidates;
  }

  lemma {:induction false} NamedCandidates(q: Query, parent: Path, d: Directive)
    requires d.angle && ByName(q.ctx, d.content).Some?
    ensures Candidates(q.ctx, parent, d) == Candidates(q.ctx, [], Directive(d.content, true)) != []
    ensures Resolve(q.ctx, parent, d) == ByName(q.ctx, d.content)
  {
  }

  /** What the search does with a name in the cache. */
  lemma {:induction false} NamedResult(q: Query, s: State, parent: Path, d: Directive)
    requires CacheOk(q.ctx, s) && NameCached(s, d) && !Hit(s, d)
    ensures ByName(q.ctx, d.content).Some? && Candidates(q.ctx, [], Directive(d.content, true)) != []
    ensures var c := Candidates(q.ctx, [], Directive(d.content, true))[0];
      Process(q.ctx, s, parent, d).0
      == if c in s.found then s else Noted(s, c, InfoOf(q.ctx, ByName(q.ctx, d.content).value))
  {
    assert ByName(q.ctx, d.content).Some? && s.infos[d.content] == InfoOf(q.ctx, ByName(q.ctx, d.content).value);
    NamedCandidates(q, parent, d);
    hide ByName, Candidates, CacheOk, TryEach;
    FirstAnswers(q.ctx, s, Candidates(q.ctx, parent, d), d);
  }

  lemma {:induction false} SurveyNamed(q: Query, s: State, parent: Path, d: Directive)
    requires Regular(q) && Filed(q, s) && Asks(q, parent, d) && NameCached(s, d) && !Hit(s, d)
    ensures var t := Process(q.ctx, s, parent, d).0; Surveyed(q, s, t) && Covers(q.ctx, Reported(t), parent, d)
  {
    NamedResult(q, s, parent, d);
    NamedCandidates(q, parent, d);
    hide Asks, Unmasked, Uniform, Masks, Reports, Answered, ByName, CacheOk, Stored, Process, Candidates, EntryOk, Resolve, Proper;
    var candidates, r := Candidates(q.ctx, parent, d), ByName(q.ctx, d.content).value;
    var c := candidates[0];
    if c in s.found {
      assert FirstFile(q.ctx, candidates) == Resolve(q.ctx, parent, d) by { ResolveIsFirst(q, parent, d); }
      FoundCovers(q, s, parent, d, candidates);
    } else {
      AnswerEntry(q, s, parent, d, c, r);
      ReportedOrAnswered(q, s, parent, d, r);
      NotedSurveyed(q, s, c, InfoOf(q.ctx, r));
    }
  }

  lemma ResolveIsFirst(q: Query, parent: Path, d: Directive)
    ensures FirstFile(q.ctx, Candidates(q.ctx, parent, d)) == Resolve(q.ctx, parent, d)
  {
  }

  lemma {:induction false} AnswerEntry(q: Query, s: State, parent: Path, d: Directive, c: Path, r: Path)
    requires Filed(q, s) && Asks(q, parent, d) && NameCached(s, d) && ByName(q.ctx, d.content) == Some(r)
    requires Candidates(q.ctx, [], Directive(d.content, true)) != [] && c == Candidates(q.ctx, [], Directive(d.content, true))[0]
    ensures EntryOk(q, c, InfoOf(q.ctx, r))
  {
    if IsFile(q.ctx, c) {
      assert c == r;
    } else {
      hide Asks, CacheOk;
      assert d == Directive(d.content, true);
      assert Phantom(q, d.content, c);
    }
  }

  // ---- The search -------------------------------------------------------------------------------------------------------------------

  /** The directive's search has got down to `candidates`, and the cache does not know its name. */
  ghost predicate Searching(q: Query, s: State, parent: Path, d: Directive, candidates: seq<Path>)
  {
    && Asks(q, parent, d) && (d.angle ==> d.content !in s.infos)
    && AllAbsolute(candidates) && (forall c | c in candidates :: c in Candidates(q.ctx, parent, d))
    && FirstFile(q.ctx, candidates) == Resolve(q.ctx, parent, d)
  }

  lemma {:induction false} SearchingNext(q: Query, s: State, parent: Path, d: Directive, candidates: seq<Path>)
    requires candidates != [] && Searching(q, s, parent, d, candidates)
    ensures IsAbsolute(candidates[0]) && candidates[0] in Candidates(q.ctx, parent, d)
    ensures if IsFile(q.ctx, candidates[0]) then Resolve(q.ctx, parent, d) == Some(candidates[0])
      else Searching(q, s, parent, d, candidates[1..])
  {
    hide Asks, Candidates, Resolve, IsAbsolute;
    assert candidates[0] in candidates;
  }

  /** A quoted file that is in the cache. */
  lemma {:induction false} SurveyQuoted(q: Query, s: State, parent: Path, d: Directive, c: Path)
    requires Regular(q) && Filed(q, s) && Asks(q, parent, d) && !d.angle && IsAbsolute(c) && c in s.infos && c !in s.found
    requires IsFile(q.ctx, c) ==> Resolve(q.ctx, parent, d) == Some(c)
    ensures var t := Try(q.ctx, s, c, d).0; Surveyed(q, s, t) && Covers(q.ctx, Reported(t), parent, d)
  {
    AbsoluteByName(q.ctx, c);
    assert s.infos[c] == InfoOf(q.ctx, c);
    hide Asks, Unmasked, Uniform, Masks, Reports, Answered, Resolve, ByName, CacheOk;
    ReportedOrAnswered(q, s, parent, d, c);
    NotedSurveyed(q, s, c, InfoOf(q.ctx, c));
    assert Try(q.ctx, s, c, d).0 == Noted(s, c, InfoOf(q.ctx, c));
  }

  lemma {:induction false} OpenReports(q: Query, s: State, d: Directive, c: Path)
    requires IsFile(q.ctx, c) && c !in s.found
    ensures forall p :: Reports(Recorded(q.ctx, s, d, c), p) <==> Reports(s, p) || p == c
  {
    hide Reports, CacheKey, RequiresStorage;
    var info := InfoOf(q.ctx, c);
    forall p: Path
      ensures Reports(Recorded(q.ctx, s, d, c), p) <==> Reports(s, p) || p == c
    {
      NotedReports(s, c, info, p);
      SameFound(Recorded(q.ctx, s, d, c), Noted(s, c, info), p);
    }
  }

  lemma {:induction false} SameFound(s: State, t: State, p: Path)
    requires s.found == t.found
    ensures Reports(s, p) <==> Reports(t, p)
  {
  }

  lemma {:induction false} OpenStored(q: Query, s: State, t: State, d: Directive, c: Path)
    requires Stored(q, s) && IsFile(q.ctx, c) && t == Recorded(q.ctx, s, d, c) && ByName(q.ctx, CacheKey(d, c)) == Some(c)
    requires Grows(s, t) && Reports(t, c)
    ensures Stored(q, t)
  {
    hide Reports, RequiresStorage, ByName, CacheKey, InfoOf;
  }

  lemma {:induction false} OpenFiled(q: Query, s: State, d: Directive, c: Path)
    requires Proper(q) && Filed(q, s) && IsFile(q.ctx, c) && c !in s.found && ByName(q.ctx, CacheKey(d, c)) == Some(c)
    ensures Filed(q, Recorded(q.ctx, s, d, c)) && Grows(s, Recorded(q.ctx, s, d, c))
    ensures forall p :: Reports(Recorded(q.ctx, s, d, c), p) <==> Reports(s, p) || p == c
  {
    var t := Recorded(q.ctx, s, d, c);
    OpenReports(q, s, d, c);
    hide Reports, RequiresStorage, ByName, CacheKey, Masks, Proper, CacheOk, Stored;
    RecordCache(q.ctx, s, d, c);
    OpenStored(q, s, t, d, c);
  }

  lemma {:induction false} SurveyOpen(q: Query, s: State, parent: Path, d: Directive, c: Path)
    requires Regular(q) && Filed(q, s) && Asks(q, parent, d) && Resolve(q.ctx, parent, d) == Some(c)
    requires IsAbsolute(c) && c !in s.found && CacheKey(d, c) !in s.infos && ByName(q.ctx, CacheKey(d, c)) == Some(c)
    ensures var t := Try(q.ctx, s, c, d).0; Surveyed(q, s, t) && Covers(q.ctx, Reported(t), parent, d)
    decreases Left(q.ctx, s), 0, 0
  {
    var r, ds := Recorded(q.ctx, s, d, c), q.ctx.fs[c].directives;
    AskedIsReached(q, parent, d);
    OpenFiled(q, s, d, c);
    RecordingShrinks(q.ctx, s, d, c);
    forall e | e in ds
      ensures Asks(q, c, e)
    {
    }
    hide Asks, Unmasked, Uniform, Reports, Filed, Resolve, CoversAll;
    SurveyAll(q, r, c, ds);
    var t := ProcessAll(q.ctx, r, c, ds);
    assert Try(q.ctx, s, c, d).0 == t;
    OpenSurveyed(q, s, r, t, c);
  }

  lemma {:induction false} OpenSurveyed(q: Query, s: State, r: State, t: State, c: Path)
    requires Grows(s, r) && (forall p :: Reports(r, p) <==> Reports(s, p) || p == c)
    requires Surveyed(q, r, t) && IsFile(q.ctx, c) && CoversAll(q.ctx, Reported(t), c, q.ctx.fs[c].directives)
    ensures Surveyed(q, s, t) && Reports(t, c)
  {
    hide Filed, Reports, CoversAll, Answered;
  }

  lemma {:induction false} SurveyEach(q: Query, s: State, parent: Path, d: Directive, candidates: seq<Path>)
    requires Regular(q) && Filed(q, s) && Searching(q, s, parent, d, candidates)
    ensures var t := TryEach(q.ctx, s, candidates, d).0; Surveyed(q, s, t) && Covers(q.ctx, Reported(t), parent, d)
    decreases Left(q.ctx, s), 1, |candidates|
  {
    if candidates != [] {
      var c := candidates[0];
      SearchingNext(q, s, parent, d, candidates);
      AbsoluteByName(q.ctx, c);
      if c in s.found {
        FoundCovers(q, s, parent, d, candidates);
      } else if CacheKey(d, c) in s.infos {
        SurveyQuoted(q, s, parent, d, c);
      } else if IsFile(q.ctx, c) {
        if d.angle { NamedResolves(q, parent, d); }
        SurveyOpen(q, s, parent, d, c);
      } else {
        SurveyEach(q, s, parent, d, candidates[1..]);
      }
    }
  }

  lemma {:induction false} NamedResolves(q: Query, parent: Path, d: Directive)
    requires d.angle
    ensures Resolve(q.ctx, parent, d) == ByName(q.ctx, d.content)
  {
  }

  lemma {:induction false} SurveyOne(q: Query, s: State, parent: Path, d: Directive)
    requires Regular(q) && Filed(q, s) && Asks(q, parent, d) && IsAbsolute(parent)
    ensures var t := Process(q.ctx, s, parent, d).0; Surveyed(q, s, t) && Covers(q.ctx, Reported(t), parent, d)
    decreases Left(q.ctx, s), 2, 0
  {
    if Hit(s, d) {
      SurveyHit(q, s, parent, d);
    } else if NameCached(s, d) {
      SurveyNamed(q, s, parent, d);
    } else {
      CandidatesAbsolute(q.ctx, parent, d);
      SurveyEach(q, s, parent, d, Candidates(q.ctx, parent, d));
    }
  }

  lemma {:induction false} SurveyAll(q: Query, s: State, parent: Path, ds: seq<Directive>)
    requires Regular(q) && Filed(q, s) && IsAbsolute(parent) && forall d | d in ds :: Asks(q, parent, d)
    ensures var t := ProcessAll(q.ctx, s, parent, ds); Surveyed(q, s, t) && CoversAll(q.ctx, Reported(t), parent, ds)
    decreases Left(q.ctx, s), 3, |ds|
  {
    hide Regular, Filed, Asks, Reports, Settled, Process, Covers;
    if ds != [] {
      var front, d := ds[..|ds| - 1], ds[|ds| - 1];
      assert d in ds && forall e | e in front :: e in ds;
      SurveyAll(q, s, parent, front);
      var before, t := ProcessAll(q.ctx, s, parent, front), ProcessAll(q.ctx, s, parent, ds);
      GrowingShrinks(q.ctx, s, before);
      SurveyOne(q, before, parent, d);
      SurveyedTransitive(q, s, before, t);
      CoversMore(q.ctx, Reported(before), Reported(t), parent, front);
      CoversOneMore(q.ctx, Reported(t), parent, ds);
    }
  }

  // ---- Completeness -----------------------------------------------------------------------------------------------------------------

  lemma StartFiled(q: Query)
    requires Proper(q)
    ensures Filed(q, q.base)
  {
    hide CacheOk, AbsoluteDirs, Masks, Asks, Reports;
  }

  lemma {:induction false} SurveyParse(q: Query)
    requires Regular(q)
    ensures var t := Outcome(q);
      && Surveyed(q, q.base, t)
      && CoversAll(q.ctx, Reported(t), q.source, Forced(q.includes))
      && CoversAll(q.ctx, Reported(t), q.source, DirectivesIn(q.ctx.fs[q.source]))
  {
    var forced, t := ProcessAll(q.ctx, q.base, q.source, Forced(q.includes)), Outcome(q);
    StartFiled(q);
    hide Unmasked, Uniform, Reports, CoversAll, Filed, ProcessAll, Settled, Forced, DirectivesIn;
    SurveyAll(q, q.base, q.source, Forced(q.includes));
    SurveyAll(q, forced, q.source, DirectivesIn(q.ctx.fs[q.source]));
    SurveyedTransitive(q, q.base, forced, t);
    CoversMore(q.ctx, Reported(forced), Reported(t), q.source, Forced(q.includes));
  }

  /** What the search reported and expanded. */
  ghost function Expansion(q: Query): iset<Path>
  {
    iset p: Path | Reports(Outcome(q), p)
      && (IsFile(q.ctx, p) ==> CoversAll(q.ctx, Reported(Outcome(q)), p, q.ctx.fs[p].directives))
  }

  lemma {:induction false} ExpansionNext(q: Query, parent: Path, d: Directive)
    requires Regular(q) && Surveyed(q, q.base, Outcome(q)) && Asks(q, parent, d) && Covers(q.ctx, Reported(Outcome(q)), parent, d)
    ensures Follows(q.ctx, q.base, AllFiles(q.ctx), Expansion(q), parent, d)
  {
    hide Asks, Unmasked, Outcome, CoversAll, Filed;
    if Resolve(q.ctx, parent, d).Some? {
      var r := Resolve(q.ctx, parent, d).value;
      assert Settled(q, Outcome(q), r) by { assert !Reports(q.base, r); }
    }
  }

  lemma {:induction false} ExpansionAll(q: Query, parent: Path, ds: seq<Directive>)
    requires Regular(q) && Surveyed(q, q.base, Outcome(q)) && CoversAll(q.ctx, Reported(Outcome(q)), parent, ds)
    requires forall d | d in ds :: Asks(q, parent, d)
    ensures FollowsAll(q.ctx, q.base, AllFiles(q.ctx), Expansion(q), parent, ds)
  {
    hide Regular, Surveyed, Asks, Follows, Covers, Outcome;
    forall i | 0 <= i < |ds|
      ensures Follows(q.ctx, q.base, AllFiles(q.ctx), Expansion(q), parent, ds[i])
    {
      assert ds[i] in ds;
      ExpansionNext(q, parent, ds[i]);
    }
  }

  lemma {:induction false} ExpansionEnters(q: Query)
    requires Regular(q)
    ensures Entering(q, Expansion(q))
  {
    SurveyParse(q);
    hide Unmasked, Uniform, Surveyed, FollowsAll, CoversAll, Reach, Outcome;
    forall p | p in Expansion(q) && IsFile(q.ctx, p)
      ensures FollowsAll(q.ctx, q.base, AllFiles(q.ctx), Expansion(q), p, q.ctx.fs[p].directives)
    {
      ReportedIsReached(q, p);
      ExpansionAll(q, p, q.ctx.fs[p].directives);
    }
    ExpansionAll(q, q.source, Forced(q.includes));
    ExpansionAll(q, q.source, DirectivesIn(q.ctx.fs[q.source]));
  }

  lemma {:induction false} SeenIsReported(q: Query, p: Path)
    requires Regular(q) && Seen(q, p)
    ensures Reports(Outcome(q), p)
  {
    ExpansionEnters(q);
    SurveyParse(q);
    var parent, d :|
      (IsRoot(q, parent, d) || (Entered(q, parent) && IsIn(q, parent, d))) && Resolve(q.ctx, parent, d) == Some(p);
    hide Regular, Surveyed, Entering, Outcome, Resolve, Covers;
    if IsRoot(q, parent, d) {
      if d in Forced(q.includes) {
        CoversMember(q, parent, Forced(q.includes), d);
      } else {
        CoversMember(q, parent, DirectivesIn(q.ctx.fs[q.source]), d);
      }
    } else {
      assert parent in Expansion(q);
      CoversMember(q, parent, q.ctx.fs[parent].directives, d);
    }
    assert Covers(q.ctx, Reported(Outcome(q)), parent, d);
    CoveredReports(q, parent, d, p);
  }

  lemma {:induction false} CoversMember(q: Query, parent: Path, ds: seq<Directive>, d: Directive)
    requires CoversAll(q.ctx, Reported(Outcome(q)), parent, ds) && d in ds
    ensures Covers(q.ctx, Reported(Outcome(q)), parent, d)
  {
    hide Covers, Outcome;
    var i :| 0 <= i < |ds| && ds[i] == d;
    assert Covers(q.ctx, Reported(Outcome(q)), parent, ds[i]);
  }

  lemma CoveredReports(q: Query, parent: Path, d: Directive, p: Path)
    requires Covers(q.ctx, Reported(Outcome(q)), parent, d) && Resolve(q.ctx, parent, d) == Some(p)
    ensures Reports(Outcome(q), p)
  {
    hide Outcome, Reports;
  }

  lemma {:induction false} SelfContainedIsComplete(q: Query)
    requires Regular(q) && SelfContained(q)
    ensures Complete(q)
  {
    hide Unmasked, Uniform, Reach, Reports, SelfContained, Outcome;
    forall p | Reach(q, p)
      ensures Reports(Outcome(q), p)
    {
      SelfContainedCovers(q, p);
      SeenIsReported(q, p);
    }
  }

  /** The query a compilation makes after others were served. */
  function After(ctx: Context, runs: seq<Compile>, source: Path, includes: seq<Path>): Query
  {
    Query(ctx, Restarted(Served(ctx, runs)), source, includes)
  }

  /**
   After any history of compilations: a search whose report is complete is self-contained, and a regular search
   is complete exactly when it is self-contained.
   */
  lemma {:induction false} WarmSearchComplete(ctx: Context, runs: seq<Compile>, source: Path, includes: seq<Path>)
    requires AbsoluteDirs(ctx) && AbsoluteRuns(runs) && IsAbsolute(source) && source in ctx.fs
    ensures var q := After(ctx, runs, source, includes);
      && (Complete(q) ==> SelfContained(q))
      && (Uniform(q) && Unmasked(q) ==> (Complete(q) <==> SelfContained(q)))
  {
    var q := After(ctx, runs, source, includes);
    ServedCacheOk(ctx, runs);
    CacheOfRestarted(ctx, Served(ctx, runs));
    assert Proper(q);
    hide CacheOk, Uniform, Unmasked, Complete, SelfContained, Proper;
    if Complete(q) { CompleteIsSelfContained(q); }
    if Uniform(q) && Unmasked(q) && SelfContained(q) { SelfContainedIsComplete(q); }
  }

  // ---- Nothing answered, nothing stored ---------------------------------------------------------------------------------------------

  /** The cache answers no directive the search can come across, and none names a header that would be stored. */
  ghost predicate Untouched(q: Query)
  {
    forall parent, d | Asks(q, parent, d) && Resolve(q.ctx, parent, d).Some? ::
      !FromCache(q.ctx, q.base, parent, d) && !RequiresStorage(q.ctx.dirs, Resolve(q.ctx, parent, d).value)
  }

  lemma {:induction false} UntouchedIsRegular(q: Query)
    requires Proper(q) && Untouched(q)
    ensures Regular(q)
  {
    hide Proper, Asks, Resolve, RequiresStorage, Candidates, Masks;
    forall c, r
      ensures !Masks(q, c, r)
    {
      NoMask(q, c, r);
    }
  }

  lemma {:induction false} NoMask(q: Query, c: Path, r: Path)
    requires Untouched(q)
    ensures !Masks(q, c, r)
  {
    hide Asks, RequiresStorage;
    forall parent, k | Asks(q, parent, Directive(k, true)) && ByName(q.ctx, k) == Some(r)
      ensures !Phantom(q, k, c)
    {
      NamedResolves(q, parent, Directive(k, true));
    }
  }

  lemma {:induction false} UntouchedIsEntered(q: Query, p: Path)
    requires q.source in q.ctx.fs && Untouched(q) && Reach(q, p)
    ensures Entered(q, p)
  {
    forall entered: iset<Path> | Entering(q, entered)
      ensures p in entered
    {
      var both := iset x: Path | x in entered && Reach(q, x);
      BothClosed(q, entered, both);
    }
  }

  lemma {:induction false} BothClosed(q: Query, entered: iset<Path>, both: iset<Path>)
    requires q.source in q.ctx.fs && Untouched(q) && Entering(q, entered)
    requires forall x :: x in both <==> x in entered && Reach(q, x)
    ensures ClosedFrom(q.ctx, both, q.source, q.includes)
  {
    hide Entering, Untouched, Reach, Covers;
    forall x | x in both && IsFile(q.ctx, x)
      ensures CoversAll(q.ctx, both, x, q.ctx.fs[x].directives)
    {
      BothAll(q, entered, both, x, q.ctx.fs[x].directives);
    }
    BothAll(q, entered, both, q.source, Forced(q.includes));
    BothAll(q, entered, both, q.source, DirectivesIn(q.ctx.fs[q.source]));
  }

  lemma {:induction false} BothAll(q: Query, entered: iset<Path>, both: iset<Path>, parent: Path, ds: seq<Directive>)
    requires q.source in q.ctx.fs && Untouched(q) && Entering(q, entered)
    requires forall x :: x in both <==> x in entered && Reach(q, x)
    requires forall d | d in ds :: IsRoot(q, parent, d) || (parent in both && IsIn(q, parent, d))
    ensures CoversAll(q.ctx, both, parent, ds)
  {
    hide Entering, Reach, IsIn, IsRoot;
    forall i | 0 <= i < |ds|
      ensures Covers(q.ctx, both, parent, ds[i])
    {
      assert ds[i] in ds;
      EnteringNext(q, entered, parent, ds[i]);
      AskedIsReached(q, parent, ds[i]);
    }
  }

  lemma {:induction false} UntouchedIsSelfContained(q: Query)
    requires q.source in q.ctx.fs && Untouched(q)
    ensures SelfContained(q)
  {
    hide Untouched, Entered, Reach;
    forall p | p in SeenSet(q) && IsFile(q.ctx, p)
      ensures CoversAll(q.ctx, SeenSet(q), p, q.ctx.fs[p].directives)
    {
      SeenIsReached(q, p);
      UntouchedIsEntered(q, p);
      SeesAll(q, p, q.ctx.fs[p].directives);
      FollowedIsCovered(q, p, q.ctx.fs[p].directives);
    }
  }

  /**
   If the cache answers no directive the search can come across, and none names a header that would be stored, the
   report is exactly the headers reached, whatever else is cached.
   */
  lemma {:induction false} UntouchedSearchExact(ctx: Context, runs: seq<Compile>, source: Path, includes: seq<Path>, p: Path)
    requires AbsoluteDirs(ctx) && AbsoluteRuns(runs) && IsAbsolute(source) && source in ctx.fs
    requires Untouched(After(ctx, runs, source, includes))
    ensures Reports(Outcome(After(ctx, runs, source, includes)), p) <==> Reached(ctx, source, includes, p)
  {
    var q := After(ctx, runs, source, includes);
    ServedCacheOk(ctx, runs);
    CacheOfRestarted(ctx, Served(ctx, runs));
    assert Proper(q);
    hide CacheOk, Untouched, SelfContained, Reports, Reached, Outcome, Proper;
    UntouchedIsRegular(q);
    assert q.source in q.ctx.fs;
    UntouchedIsSelfContained(q);
    SelfContainedIsComplete(q);
    if Reports(Outcome(q), p) { ReportedIsReached(q, p); }
  }
}
