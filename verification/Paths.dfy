/** Client and server names of a file, as lexical operations on POSIX path strings. */
module Paths {

  type Path = string

  /** `std::filesystem::path::operator/`. */
  function Join(lhs: Path, rhs: Path): Path
  {
    if rhs != [] && rhs[0] == '/' then rhs
    else if lhs != [] && lhs[|lhs| - 1] != '/' then lhs + "/" + rhs
    else lhs + rhs
  }

  /** `relative_path()`: the path without its leading slashes. */
  function RelativePath(p: Path): (r: Path)
    ensures r == [] || r[0] != '/'
    ensures |r| <= |p|
  {
    if p != [] && p[0] == '/' then RelativePath(p[1..]) else p
  }

  /** Where the last component of the path starts. */
  function LastComponent(p: Path): (i: nat)
    ensures i <= |p|
    ensures forall j | i <= j < |p| :: p[j] != '/'
    ensures i > 0 ==> p[i - 1] == '/'
  {
    if p == [] || p[|p| - 1] == '/' then |p| else LastComponent(p[..|p| - 1])
  }

  /** Trailing slashes removed. */
  function TrimSlashes(p: Path): (r: Path)
    ensures r <= p
  {
    if p != [] && p[|p| - 1] == '/' then TrimSlashes(p[..|p| - 1]) else p
  }

  /** `parent_path()`. A path that is a root directory is its own parent. */
  function ParentPath(p: Path): Path
  {
    if RelativePath(p) == [] then p
    else
      var dir := p[..LastComponent(p)];
      if RelativePath(dir) == [] then dir else TrimSlashes(dir)
  }

  predicate IsSystemPath(p: Path)
  {
    "/usr/src" <= p || "/usr/local" <= p || "/Library" <= p
  }

  function ToServer(cwd: Path, client: Path): Path
  {
    if IsSystemPath(client) then client else Join(cwd, RelativePath(client))
  }

  function ToClient(cwd: Path, server: Path): Path
  {
    if cwd <= server then server[|cwd|..] else server
  }

  /** The text `Join` puts between the working directory and a relative path. */
  function Separator(cwd: Path): Path
  {
    if cwd != [] && cwd[|cwd| - 1] != '/' then "/" else ""
  }

  predicate StartsWithOneSlash(p: Path) { p != [] && p[0] == '/' && (|p| == 1 || p[1] != '/') }

  predicate StartsWithoutSlash(p: Path) { p == [] || p[0] != '/' }

  /** What a caller can check: when the two conversions are inverse on `client`. */
  predicate RoundTrips(cwd: Path, client: Path)
  {
    if IsSystemPath(client) then cwd == [] || !(cwd <= client)
    else if Separator(cwd) == "/" then StartsWithOneSlash(client)
    else StartsWithoutSlash(client)
  }

  lemma RelativeOfOneSlash(p: Path)
    ensures "/" + RelativePath(p) == p <==> StartsWithOneSlash(p)
  {
    if StartsWithOneSlash(p) { assert p == "/" + p[1..]; }
  }

  lemma RelativeOfNoSlash(p: Path)
    ensures RelativePath(p) == p <==> StartsWithoutSlash(p)
  {
  }

  /** A path under the working directory comes back with exactly the separator in front. */
  lemma StripsWorkingDir(cwd: Path, r: Path)
    requires StartsWithoutSlash(r)
    ensures ToClient(cwd, Join(cwd, r)) == Separator(cwd) + r
  {
    var tail := Separator(cwd) + r;
    assert Join(cwd, r) == cwd + tail;
    assert (cwd + tail)[|cwd|..] == tail;
  }

  /** The server name converts back to the client's exactly when `RoundTrips` holds. */
  lemma RoundTripExact(cwd: Path, client: Path)
    ensures ToClient(cwd, ToServer(cwd, client)) == client <==> RoundTrips(cwd, client)
  {
    if IsSystemPath(client) {
      if cwd <= client && cwd != [] { assert |client[|cwd|..]| < |client|; }
    } else {
      StripsWorkingDir(cwd, RelativePath(client));
      RelativeOfOneSlash(client);
      RelativeOfNoSlash(client);
    }
  }

  /** Two files that both round-trip never share a server name. */
  lemma ServerNamesDistinct(cwd: Path, p: Path, q: Path)
    requires RoundTrips(cwd, p) && RoundTrips(cwd, q) && p != q
    ensures ToServer(cwd, p) != ToServer(cwd, q)
  {
    RoundTripExact(cwd, p);
    RoundTripExact(cwd, q);
  }

  lemma JoinedRelative(cwd: Path, p: Path, q: Path)
    ensures Join(cwd, RelativePath(p)) == Join(cwd, RelativePath(q)) <==> RelativePath(p) == RelativePath(q)
  {
    StripsWorkingDir(cwd, RelativePath(p));
    StripsWorkingDir(cwd, RelativePath(q));
    hide ToClient, RelativePath;
    if Join(cwd, RelativePath(p)) == Join(cwd, RelativePath(q)) { SameTail(Separator(cwd), RelativePath(p), RelativePath(q)); }
  }

  lemma SameTail(head: Path, a: Path, b: Path)
    requires head + a == head + b
    ensures a == b
  {
    assert (head + a)[|head|..] == a && (head + b)[|head|..] == b;
  }

  /** Exactly which client paths share a server name. */
  lemma ServerNamesCollide(cwd: Path, p: Path, q: Path)
    ensures ToServer(cwd, p) == ToServer(cwd, q) <==>
      if IsSystemPath(p) && IsSystemPath(q) then p == q
      else if IsSystemPath(p) then p == Join(cwd, RelativePath(q))
      else if IsSystemPath(q) then q == Join(cwd, RelativePath(p))
      else RelativePath(p) == RelativePath(q)
  {
    hide IsSystemPath, Join, RelativePath;
    JoinedRelative(cwd, p, q);
  }

  /** `k` slashes lead the path. */
  predicate LeadingSlashes(p: Path, k: nat)
  {
    k <= |p| && (forall i | 0 <= i < k :: p[i] == '/') && (k == |p| || p[k] != '/')
  }

  lemma {:induction false} RelativeDropsSlashes(p: Path, k: nat)
    requires LeadingSlashes(p, k)
    ensures RelativePath(p) == p[k..]
  {
    if k > 0 {
      RelativeDropsSlashes(p[1..], k - 1);
      assert p[1..][k - 1..] == p[k..];
    } else {
      assert p[0..] == p;
    }
  }

  /**
   Paths under `/usr/src`, `/usr/local` and `/Library` are the same on the server. Any other path loses its `k` leading
   slashes and goes below the working directory, after one slash.
   */
  lemma ServerNameExactly(cwd: Path, p: Path, k: nat)
    requires LeadingSlashes(p, k)
    ensures ToServer(cwd, p) ==
      if "/usr/src" <= p || "/usr/local" <= p || "/Library" <= p then p
      else if cwd == [] || cwd[|cwd| - 1] == '/' then cwd + p[k..]
      else cwd + "/" + p[k..]
  {
    RelativeDropsSlashes(p, k);
    hide RelativePath;
  }

  lemma {:induction false} LastComponentOf(dir: Path, name: Path)
    requires forall i | 0 <= i < |name| :: name[i] != '/'
    ensures LastComponent(dir + "/" + name) == |dir| + 1
  {
    var p := dir + "/" + name;
    if name != [] {
      var front := name[..|name| - 1];
      LastComponentOf(dir, front);
      assert p[..|p| - 1] == dir + "/" + front && p[|p| - 1] == name[|name| - 1];
    }
  }

  lemma {:induction false} RelativeOfMore(a: Path, b: Path)
    requires RelativePath(a) != []
    ensures RelativePath(a + b) == RelativePath(a) + b
  {
    if a[0] == '/' {
      RelativeOfMore(a[1..], b);
      assert (a + b)[1..] == a[1..] + b;
    }
  }

  lemma TrimOne(dir: Path)
    requires dir != [] && dir[|dir| - 1] != '/'
    ensures TrimSlashes(dir + "/") == dir
  {
    assert (dir + "/")[..|dir|] == dir;
    assert TrimSlashes(dir) == dir;
  }

  lemma JoinedParts(dir: Path, name: Path)
    requires name != [] && name[0] != '/' && dir != [] && dir[|dir| - 1] != '/'
    ensures Join(dir, name) == dir + "/" + name == dir + ("/" + name)
    ensures (dir + "/" + name)[..|dir| + 1] == dir + "/"
  {
  }

  /** A file's directory is what stands before its name. */
  lemma ParentOfFile(dir: Path, name: Path)
    requires name != [] && forall i | 0 <= i < |name| :: name[i] != '/'
    requires dir != [] && RelativePath(dir) != [] && dir[|dir| - 1] != '/'
    ensures ParentPath(Join(dir, name)) == dir
  {
    hide LastComponent, RelativePath, TrimSlashes, Join;
    assert name[0] != '/';
    JoinedParts(dir, name);
    LastComponentOf(dir, name);
    RelativeOfMore(dir, "/" + name);
    RelativeOfMore(dir, "/");
    TrimOne(dir);
  }

  /** Repeated leading slashes are lost: two client files then share one server file. */
  lemma LeadingSlashesCollide(cwd: Path, p: Path)
    requires !IsSystemPath("/" + p) && !IsSystemPath("//" + p) && StartsWithoutSlash(p)
    ensures ToServer(cwd, "/" + p) == ToServer(cwd, "//" + p)
  {
    assert ("/" + p)[1..] == p;
    assert ("//" + p)[1..] == "/" + p;
    assert RelativePath("//" + p) == RelativePath("/" + p) == RelativePath(p);
  }
}
