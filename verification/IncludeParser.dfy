/** The resolver's code: recursive methods that record what they find and update the shared cache. */
module IncludeParser {
  import opened Bytes
  import opened Paths
  import opened IncludeDirs
  import opened Includes

  class IncludesCache {
    var paths: map<Path, Path>
    var infos: map<Path, Info>

    constructor ()
      ensures paths == map[] && infos == map[]
    {
      paths, infos := map[], map[];
    }

    method AddIncludeEntry(name: Path, path: Path, info: Info)
      modifies this
      ensures paths == old(paths)[name := path] && infos == old(infos)[name := info]
    {
      paths := paths[name := path];
      infos := infos[name := info];
    }

    method GetIncludeAbsPath(name: Path) returns (r: Option<Path>)
      ensures r == if name in paths then Some(paths[name]) else None
    {
      r := if name in paths then Some(paths[name]) else None;
    }

    method GetIncludeInfo(name: Path) returns (r: Option<Info>)
      ensures r == if name in infos then Some(infos[name]) else None
    {
      r := if name in infos then Some(infos[name]) else None;
    }
  }

  /** Trying one list of candidates after another. */
  lemma {:induction false} TryEachAppend(ctx: Context, s: State, a: seq<Path>, b: seq<Path>, d: Directive)
    ensures TryEach(ctx, s, a + b, d) == if TryEach(ctx, s, a, d).1 then TryEach(ctx, s, a, d) else TryEach(ctx, s, b, d)
    decreases |a|
  {
    if a == [] {
      assert a + b == b;
    } else {
      assert (a + b)[1..] == a[1..] + b && (a + b)[0] == a[0];
      TryEachAppend(ctx, s, a[1..], b, d);
    }
  }

  lemma {:induction false} TryOne(ctx: Context, s: State, p: Path, d: Directive)
    ensures TryEach(ctx, s, [p], d) == Try(ctx, s, p, d)
  {
    assert [p][1..] == [];
  }

  class SourceFileParser {
    const ctx: Context
    const cache: IncludesCache
    var found: map<Path, Info>

    constructor (ctx: Context, cache: IncludesCache)
      ensures this.ctx == ctx && this.cache == cache && found == map[]
    {
      this.ctx, this.cache, found := ctx, cache, map[];
    }

    ghost function Abs(): State
      reads this, cache
    {
      State(found, cache.paths, cache.infos)
    }

    method TryResolveHeader(p: Path, d: Directive) returns (ok: bool)
      modifies this, cache
      ensures (Abs(), ok) == Try(ctx, old(Abs()), p, d)
      decreases Left(ctx, Abs()), 0, 0
    {
      if p in found { return true; }
      var cached := cache.GetIncludeInfo(if d.angle then d.content else p);
      if cached.Some? {
        found := found[p := cached.value];
        return true;
      }
      if p in ctx.fs && ctx.fs[p].Dir? { return false; }
      if p !in ctx.fs { return false; }
      var info := InfoOf(ctx, p);
      if RequiresStorage(ctx.dirs, p) {
        if d.angle {
          cache.AddIncludeEntry(d.content, p, info);
        } else {
          cache.AddIncludeEntry(p, p, info);
        }
      }
      found := found[p := info];
      assert Abs() == Recorded(ctx, old(Abs()), d, p);
      RecordingShrinks(ctx, old(Abs()), d, p);
      ProcessDirectives(p, info.children);
      return true;
    }

    method TryDirs(dirs: seq<Path>, d: Directive) returns (ok: bool)
      modifies this, cache
      ensures (Abs(), ok) == TryEach(ctx, old(Abs()), JoinAll(dirs, d.content), d)
      decreases Left(ctx, Abs()), 1, 0
    {
      for i := 0 to |dirs|
        invariant Abs() == old(Abs())
        invariant TryEach(ctx, Abs(), JoinAll(dirs, d.content), d) == TryEach(ctx, Abs(), JoinAll(dirs[i..], d.content), d)
      {
        assert dirs[i..][1..] == dirs[i + 1..];
        ghost var rest := JoinAll(dirs[i..], d.content);
        assert rest[0] == Join(dirs[i], d.content) && rest[1..] == JoinAll(dirs[i + 1..], d.content);
        var r := TryResolveHeader(Join(dirs[i], d.content), d);
        if r { return true; }
      }
      return false;
    }

    method ProcessIncludeDirective(parent: Path, d: Directive) returns (ok: bool)
      modifies this, cache
      ensures (Abs(), ok) == Process(ctx, old(Abs()), parent, d)
      decreases Left(ctx, Abs()), 2, 0
    {
      if d.angle {
        var path := cache.GetIncludeAbsPath(d.content);
        if path.Some? {
          var info := cache.GetIncludeInfo(path.value);
          if info.Some? {
            found := found[path.value := info.value];
            return true;
          }
        }
      }
      ok := Search(parent, d);
    }

    /** The candidates in search order; the code stops at the first that resolves. */
    method Search(parent: Path, d: Directive) returns (ok: bool)
      modifies this, cache
      ensures (Abs(), ok) == TryEach(ctx, old(Abs()), Candidates(ctx, parent, d), d)
      decreases Left(ctx, Abs()), 1, 2
    {
      ghost var s := Abs();
      ghost var near := if d.angle then [] else Nearby(ctx, parent, d.content);
      TryEachAppend(ctx, s, if IsAbsolute(d.content) then [d.content] else [], near + Common(ctx, d.content), d);
      TryEachAppend(ctx, s, near, Common(ctx, d.content), d);
      TryEachAppend(ctx, s, JoinAll(ctx.dirs.dashI, d.content), JoinAll(ctx.dirs.dashIsystem, d.content), d);
      TryOne(ctx, s, d.content, d);
      if IsAbsolute(d.content) {
        ok := TryResolveHeader(d.content, d);
        if ok { return; }
      }
      if !d.angle {
        ok := SearchNearby(parent, d);
        if ok { return; }
      }
      ok := TryDirs(ctx.dirs.dashI, d);
      if ok { return; }
      ok := TryDirs(ctx.dirs.dashIsystem, d);
    }

    method SearchNearby(parent: Path, d: Directive) returns (ok: bool)
      modifies this, cache
      ensures (Abs(), ok) == TryEach(ctx, old(Abs()), Nearby(ctx, parent, d.content), d)
      decreases Left(ctx, Abs()), 1, 1
    {
      ghost var s := Abs();
      var first := Join(ParentPath(parent), d.content);
      TryEachAppend(ctx, s, [first], JoinAll(ctx.dirs.dashIquote, d.content), d);
      TryOne(ctx, s, first, d);
      ok := TryResolveHeader(first, d);
      if ok { return; }
      ok := TryDirs(ctx.dirs.dashIquote, d);
    }

    method ProcessDirectives(parent: Path, ds: seq<Directive>)
      modifies this, cache
      ensures Abs() == ProcessAll(ctx, old(Abs()), parent, ds)
      decreases Left(ctx, Abs()), 3, 0
    {
      for i := 0 to |ds|
        invariant Abs() == ProcessAll(ctx, old(Abs()), parent, ds[..i])
      {
        assert ds[..i + 1][..i] == ds[..i];
        GrowingShrinks(ctx, old(Abs()), Abs());
        var _ := ProcessIncludeDirective(parent, ds[i]);
      }
      assert ds[..|ds|] == ds;
    }

    method ParseSourceFileIncludes(source: Path, includes: seq<Path>) returns (ok: bool)
      modifies this, cache
      ensures (Abs(), ok) == Parse(ctx, old(Abs()), source, includes)
    {
      if source !in ctx.fs { return false; }
      ProcessDirectives(source, Forced(includes));
      ProcessDirectives(source, DirectivesIn(ctx.fs[source]));
      return true;
    }
  }
}
