/** The include directories a client sends and the server's rewriting of them. */
module IncludeDirs {
  import opened Bytes
  import opened Paths

  datatype CmdLineIncludeDirs = CmdLineIncludeDirs(
    dashI: seq<Path>, dashIsystem: seq<Path>, dashIquote: seq<Path>, dashInclude: seq<Path>)

  /** `-I` glued to each directory. */
  function Glued(dirs: seq<Path>): (args: seq<string>)
  {
    if dirs == [] then [] else ["-I" + dirs[0]] + Glued(dirs[1..])
  }

  /** The flag and the directory as two arguments each. */
  function Paired(flag: string, dirs: seq<Path>): (args: seq<string>)
  {
    if dirs == [] then [] else [flag, dirs[0]] + Paired(flag, dirs[1..])
  }

  function ToCmdLineArgs(d: CmdLineIncludeDirs): seq<string>
  {
    Glued(d.dashI)
    + (Paired("-iquote", d.dashIquote) + (Paired("-isystem", d.dashIsystem) + Paired("-include", d.dashInclude)))
  }

  lemma {:induction false} GluedExactly(dirs: seq<Path>)
    ensures |Glued(dirs)| == |dirs| && forall i | 0 <= i < |dirs| :: Glued(dirs)[i] == "-I" + dirs[i]
  {
    if dirs != [] { GluedExactly(dirs[1..]); }
  }

  lemma {:induction false} PairedExactly(flag: string, dirs: seq<Path>)
    ensures |Paired(flag, dirs)| == 2 * |dirs|
    ensures forall i | 0 <= i < |dirs| :: Paired(flag, dirs)[2 * i] == flag && Paired(flag, dirs)[2 * i + 1] == dirs[i]
  {
    if dirs != [] {
      var rest := Paired(flag, dirs[1..]);
      PairedExactly(flag, dirs[1..]);
      forall i | 0 <= i < |dirs|
        ensures Paired(flag, dirs)[2 * i] == flag && Paired(flag, dirs)[2 * i + 1] == dirs[i]
      {
        if i > 0 { assert dirs[i] == dirs[1..][i - 1] && rest[2 * (i - 1)] == flag && rest[2 * (i - 1) + 1] == dirs[i]; }
      }
    }
  }

  /** From position `at` on, each of `dirs` follows its flag. */
  predicate PairedFrom(args: seq<string>, at: nat, flag: string, dirs: seq<Path>)
  {
    at + 2 * |dirs| <= |args| && forall i | 0 <= i < |dirs| :: args[at + 2 * i] == flag && args[at + 2 * i + 1] == dirs[i]
  }

  lemma PairedWithin(before: seq<string>, flag: string, dirs: seq<Path>, after: seq<string>)
    ensures PairedFrom(before + (Paired(flag, dirs) + after), |before|, flag, dirs)
  {
    PairedExactly(flag, dirs);
    hide Paired;
    var args := before + (Paired(flag, dirs) + after);
    forall i | 0 <= i < |dirs|
      ensures args[|before| + 2 * i] == flag && args[|before| + 2 * i + 1] == dirs[i]
    {
      assert args[|before| + 2 * i] == Paired(flag, dirs)[2 * i];
      assert args[|before| + 2 * i + 1] == Paired(flag, dirs)[2 * i + 1];
    }
  }

  /** Where each directory stands on the command line: `-I` first, then the pairs of each kind, and nothing else. */
  lemma ArgsExactly(d: CmdLineIncludeDirs)
    ensures var args, q := ToCmdLineArgs(d), |d.dashI|; var s := q + 2 * |d.dashIquote|; var n := s + 2 * |d.dashIsystem|;
      && |args| == n + 2 * |d.dashInclude| && (forall i | 0 <= i < q :: args[i] == "-I" + d.dashI[i])
      && PairedFrom(args, q, "-iquote", d.dashIquote) && PairedFrom(args, s, "-isystem", d.dashIsystem)
      && PairedFrom(args, n, "-include", d.dashInclude)
  {
    GluedExactly(d.dashI);
    PairedExactly("-iquote", d.dashIquote);
    PairedExactly("-isystem", d.dashIsystem);
    PairedExactly("-include", d.dashInclude);
    hide Glued, Paired, PairedFrom;
    var i, q, s, n := Glued(d.dashI), Paired("-iquote", d.dashIquote), Paired("-isystem", d.dashIsystem), Paired("-include", d.dashInclude);
    var args := ToCmdLineArgs(d);
    PairedWithin(i, "-iquote", d.dashIquote, s + n);
    assert args == (i + q) + (s + n);
    PairedWithin(i + q, "-isystem", d.dashIsystem, n);
    assert args == (i + q + s) + (n + []);
    PairedWithin(i + q + s, "-include", d.dashInclude, []);
  }

  /** An argument holding its own directory. */
  predicate IsGlued(arg: string) { |arg| >= 2 && arg[0] == '-' && arg[1] == 'I' }

  /** The rewritten arguments, and whether the loop stayed inside the list. */
  datatype Rewritten = Rewritten(args: seq<string>, inRange: bool)

  function Prepend(args: seq<string>, r: Rewritten): Rewritten { Rewritten(args + r.args, r.inRange) }

  lemma PrependTwice(a: seq<string>, b: seq<string>, r: Rewritten)
    ensures Prepend(a, Prepend(b, r)) == Prepend(a + b, r)
  {
    Associate(a, b, r.args);
  }

  /** The server's loop: an argument that does not start with `-I` takes the following one with it. */
  function Rewrite(cwd: Path, args: seq<string>): Rewritten
    decreases |args|
  {
    if args == [] then Rewritten([], true)
    else if IsGlued(args[0]) then
      Prepend(["-I" + ToServer(cwd, args[0][2..])], Rewrite(cwd, args[1..]))
    else if |args| == 1 then Rewritten([args[0]], false)
    else
      Prepend([args[0], ToServer(cwd, args[1])], Rewrite(cwd, args[2..]))
  }

  function ConvertAll(cwd: Path, dirs: seq<Path>): (r: seq<Path>)
    ensures |r| == |dirs| && forall i | 0 <= i < |dirs| :: r[i] == ToServer(cwd, dirs[i])
  {
    if dirs == [] then [] else [ToServer(cwd, dirs[0])] + ConvertAll(cwd, dirs[1..])
  }

  function Converted(cwd: Path, d: CmdLineIncludeDirs): CmdLineIncludeDirs
  {
    CmdLineIncludeDirs(ConvertAll(cwd, d.dashI), ConvertAll(cwd, d.dashIsystem),
                       ConvertAll(cwd, d.dashIquote), ConvertAll(cwd, d.dashInclude))
  }

  lemma RewriteGlue(cwd: Path, dir: Path, rest: seq<string>)
    ensures Rewrite(cwd, ["-I" + dir] + rest)
         == Prepend(["-I" + ToServer(cwd, dir)], Rewrite(cwd, rest))
  {
    assert (["-I" + dir] + rest)[1..] == rest;
    assert ("-I" + dir)[2..] == dir;
  }

  lemma RewritePair(cwd: Path, flag: string, dir: Path, rest: seq<string>)
    requires !IsGlued(flag)
    ensures Rewrite(cwd, [flag, dir] + rest)
         == Prepend([flag, ToServer(cwd, dir)], Rewrite(cwd, rest))
  {
    assert ([flag, dir] + rest)[2..] == rest;
  }

  lemma {:induction false} RewriteGlued(cwd: Path, dirs: seq<Path>, rest: seq<string>)
    ensures Rewrite(cwd, Glued(dirs) + rest)
         == Prepend(Glued(ConvertAll(cwd, dirs)), Rewrite(cwd, rest))
  {
    if dirs == [] {
      assert Glued(dirs) + rest == rest;
    } else {
      var tail := Glued(dirs[1..]) + rest;
      Associate(["-I" + dirs[0]], Glued(dirs[1..]), rest);
      RewriteGlue(cwd, dirs[0], tail);
      RewriteGlued(cwd, dirs[1..], rest);
      PrependTwice(["-I" + ToServer(cwd, dirs[0])], Glued(ConvertAll(cwd, dirs[1..])), Rewrite(cwd, rest));
    }
  }

  lemma {:induction false} RewritePaired(cwd: Path, flag: string, dirs: seq<Path>, rest: seq<string>)
    requires !IsGlued(flag)
    ensures Rewrite(cwd, Paired(flag, dirs) + rest)
         == Prepend(Paired(flag, ConvertAll(cwd, dirs)), Rewrite(cwd, rest))
  {
    if dirs == [] {
      assert Paired(flag, dirs) + rest == rest;
    } else {
      var tail := Paired(flag, dirs[1..]) + rest;
      Associate([flag, dirs[0]], Paired(flag, dirs[1..]), rest);
      RewritePair(cwd, flag, dirs[0], tail);
      RewritePaired(cwd, flag, dirs[1..], rest);
      PrependTwice([flag, ToServer(cwd, dirs[0])], Paired(flag, ConvertAll(cwd, dirs[1..])), Rewrite(cwd, rest));
    }
  }

  /** Rewriting the flattened directories flattens the converted ones, and never reads past the end. */
  lemma RewriteCommutes(cwd: Path, d: CmdLineIncludeDirs)
    ensures Rewrite(cwd, ToCmdLineArgs(d)) == Rewritten(ToCmdLineArgs(Converted(cwd, d)), true)
  {
    var included := Paired("-include", d.dashInclude);
    var isystem := Paired("-isystem", d.dashIsystem) + included;
    RewriteGlued(cwd, d.dashI, Paired("-iquote", d.dashIquote) + isystem);
    RewritePaired(cwd, "-iquote", d.dashIquote, isystem);
    RewritePaired(cwd, "-isystem", d.dashIsystem, included);
    RewritePaired(cwd, "-include", d.dashInclude, []);
    assert included + [] == included;
    assert Paired("-include", ConvertAll(cwd, d.dashInclude)) + [] == Paired("-include", ConvertAll(cwd, d.dashInclude));
  }

  /** The loop over the client's include arguments; `inRange` is false when it would read past the end. */
  method RewriteIncludeArgs(cwd: Path, idirs: seq<string>) returns (args: seq<string>, inRange: bool)
    ensures Rewritten(args, inRange) == Rewrite(cwd, idirs)
  {
    args, inRange := [], true;
    var i := 0;
    while i < |idirs|
      invariant 0 <= i <= |idirs| && inRange
      invariant Rewrite(cwd, idirs) == Prepend(args, Rewrite(cwd, idirs[i..]))
    {
      ghost var left := idirs[i..];
      if IsGlued(idirs[i]) {
        assert left[1..] == idirs[i + 1..];
        PrependTwice(args, ["-I" + ToServer(cwd, idirs[i][2..])], Rewrite(cwd, idirs[i + 1..]));
        args := args + ["-I" + ToServer(cwd, idirs[i][2..])];
        i := i + 1;
      } else if i + 1 < |idirs| {
        assert left[2..] == idirs[i + 2..];
        PrependTwice(args, [idirs[i], ToServer(cwd, idirs[i + 1])], Rewrite(cwd, idirs[i + 2..]));
        args := args + [idirs[i], ToServer(cwd, idirs[i + 1])];
        i := i + 2;
      } else {
        assert left == [idirs[i]];
        args, inRange := args + [idirs[i]], false;
        return;
      }
    }
    assert idirs[i..] == [];
  }
}
