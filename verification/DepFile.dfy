/**
 Dependency files: the printer and the parser. The parser's meaning is given on the input that is left;
 module DepFileIo moves an offset over the whole input.
 */
module DepFile {
  import opened Bytes
  import opened Escaping

  datatype DepTarget = DepTarget(target: string, deps: seq<string>)

  // ---- The parser, on what is left of the input -----------------------------------------------------------

  predicate IsSpace(c: char)
  {
    c == ' ' || c == '\t' || c == '\n' || c == '\U{0B}' || c == '\U{0C}' || c == '\r'
  }

  function SkipSpaces(s: string): (r: string)
    ensures |r| <= |s|
  {
    if s != [] && IsSpace(s[0]) then SkipSpaces(s[1..]) else s
  }

  function Skip2(s: string): (r: string)
    requires s != []
    ensures |r| < |s|
  { if |s| >= 2 then s[2..] else [] }

  /** The unescaped target name up to its colon and what follows; None where the parser throws. */
  function RawTarget(s: string, name: string): (r: Option<(string, string)>)
    ensures r.Some? ==> |r.value.1| < |s|
    decreases |s|
  {
    if s == [] || s[0] == '\n' then None
    else if s[0] == ':' then Some((name, s[1..]))
    else if s[0] == '\\' then RawTarget(Skip2(s), if |s| >= 2 && s[1] != '\n' then name + [s[1]] else name)
    else if s[0] == ' ' && name != [] && name[|name| - 1] == ' ' then RawTarget(s[1..], name)
    else RawTarget(s[1..], name + [s[0]])
  }

  function ReadTarget(s: string): Option<(string, string)>
  {
    match RawTarget(SkipSpaces(s), [])
    case None => None
    case Some((name, rest)) => Some((Escape(name), rest))
  }

  /** Blanks and escaped pairs between items. */
  function SkipGap(s: string): (r: string)
    ensures |r| <= |s|
    ensures r != [] ==> r[0] != ' ' && r[0] != '\\'
    decreases |s|
  {
    if s == [] then []
    else if s[0] == ' ' then SkipGap(s[1..])
    else if s[0] == '\\' then SkipGap(Skip2(s))
    else s
  }

  function ItemTail(s: string, name: string): (r: (string, string))
    ensures |r.1| <= |s| && |r.0| >= |name|
    decreases |s|
  {
    if s == [] || s[0] == ' ' || s[0] == '\n' then (name, s)
    else if s[0] == '\\' then ItemTail(Skip2(s), if |s| >= 2 then name + [s[1]] else name)
    else ItemTail(s[1..], name + [s[0]])
  }

  /** The next dependency, or the empty name. */
  function NextItem(s: string): (r: (string, string))
    ensures |r.1| <= |s|
    ensures s != [] ==> |r.1| < |s|
    ensures r.0 == [] <==> SkipGap(s) == [] || SkipGap(s)[0] == '\n'
  {
    var g := SkipGap(s);
    if g == [] then ([], [])
    else if g[0] == '\n' then ([], g[1..])
    else
      assert ItemTail(g, []) == ItemTail(g[1..], [] + [g[0]]);
      ItemTail(g, [])
  }

  function Items(s: string): (r: (seq<string>, string))
    ensures |r.1| <= |s|
    decreases |s|
  {
    var (item, rest) := NextItem(s);
    if item == [] then ([], rest)
    else var (more, end) := Items(rest); ([item] + more, end)
  }

  /** The targets read before the end of the input, or before the parser threw. */
  datatype Parsed = Parsed(targets: seq<DepTarget>, ok: bool)

  function Parse(s: string): Parsed
    decreases |s|
  {
    if SkipSpaces(s) == [] then Parsed([], true) else
    match ReadTarget(s)
    case None => Parsed([], false)
    case Some((target, rest)) =>
      var (deps, end) := Items(rest);
      var more := Parse(end);
      Parsed([DepTarget(target, deps)] + more.targets, more.ok)
  }

  // ---- The printer ----------------------------------------------------------------------------------------

  const NL: string := ['\n']
  const CONTINUATION: string := [' ', '\\', '\n', ' ', ' ']

  function LaterDeps(deps: seq<string>): string
  {
    if deps == [] then [] else CONTINUATION + Escape(deps[0]) + LaterDeps(deps[1..])
  }

  function DepList(deps: seq<string>): string
  {
    if deps == [] then [] else [' '] + Escape(deps[0]) + LaterDeps(deps[1..])
  }

  function Line(t: DepTarget): string { t.target + [':'] + DepList(t.deps) + NL }

  function Written(ts: seq<DepTarget>): string
  {
    if ts == [] then []
    else if |ts| == 1 then Line(ts[0])
    else Line(ts[0]) + NL + Written(ts[1..])
  }

  /** A target without dependencies, and with one. */
  lemma {:induction false} PrintedLine(t: string, f: string)
    ensures Line(DepTarget(t, [])) == t + ":\n"
    ensures Line(DepTarget(t, [f])) == t + ": " + Escape(f) + "\n"
  {
    hide Escape;
    assert t + [':'] + [] + NL == t + ":\n";
    assert [f][1..] == [] && LaterDeps([]) == [];
    assert DepList([f]) == [' '] + Escape(f);
    assert t + [':'] + ([' '] + Escape(f)) == t + ": " + Escape(f);
  }

  /** Each further dependency goes on a continued line of its own, indented by two blanks. */
  lemma {:induction false} PrintedDeps(deps: seq<string>, g: string)
    requires deps != []
    ensures DepList(deps + [g]) == DepList(deps) + " \\\n  " + Escape(g)
  {
    var front := [' '] + Escape(deps[0]);
    assert (deps + [g])[1..] == deps[1..] + [g];
    LaterDepsAppend(deps[1..], g);
    hide Escape, LaterDeps;
    assert front + (LaterDeps(deps[1..]) + CONTINUATION + Escape(g)) == front + LaterDeps(deps[1..]) + CONTINUATION + Escape(g);
  }

  /** A blank line stands between targets. */
  lemma {:induction false} PrintedTargets(x: DepTarget, ts: seq<DepTarget>)
    requires ts != []
    ensures Written([x] + ts) == Line(x) + "\n" + Written(ts)
  {
    hide Line;
    assert ([x] + ts)[1..] == ts;
  }

  lemma {:induction false} LaterDepsAppend(deps: seq<string>, g: string)
    ensures LaterDeps(deps + [g]) == LaterDeps(deps) + CONTINUATION + Escape(g)
  {
    hide Escape;
    if deps == [] {
      assert deps + [g] == [g] && [g][1..] == [] && LaterDeps([]) == [];
    } else {
      LaterDepsAppend(deps[1..], g);
      assert (deps + [g])[1..] == deps[1..] + [g];
    }
  }

  // ---- Targets: exactly which names survive ---------------------------------------------------------------

  /** No newline, and every backslash stands directly before a space. */
  predicate PlainTarget(u: string)
  {
    u == [] || (u[0] != '\n' && (u[0] == '\\' ==> |u| > 1 && u[1] == ' ') && PlainTarget(u[1..]))
  }

  /** The names whose escaped form the parser reads back. */
  predicate TargetOk(u: string)
  {
    PlainTarget(u) && (u == [] || u[0] == ' ' || !IsSpace(u[0]))
  }

  /** Escaped text in front of the rest of the input. */
  function Before(v: string, tail: string): string
  {
    if v == [] then tail else EscapeChar(v[0]) + Before(v[1..], tail)
  }

  lemma {:induction false} EscapeBefore(v: string, tail: string)
    ensures Escape(v) + tail == Before(v, tail)
  {
    if v == [] {
      assert [] + tail == tail;
    } else {
      EscapeBefore(v[1..], tail);
      assert Escape(v) + tail == EscapeChar(v[0]) + (Escape(v[1..]) + tail);
    }
  }

  lemma RawPlain(c: char, s: string, name: string)
    requires !IsSpecial(c) && c != '\\'
    ensures RawTarget([c] + s, name) == RawTarget(s, name + [c])
  {
    assert ([c] + s)[1..] == s;
  }

  lemma RawPair(c: char, s: string, name: string)
    ensures RawTarget(['\\', c] + s, name) == RawTarget(s, if c == '\n' then name else name + [c])
  {
    assert (['\\', c] + s)[2..] == s;
  }

  lemma RawSpace(s: string, name: string)
    ensures RawTarget([' '] + s, name) == RawTarget(s, if name != [] && name[|name| - 1] == ' ' then name else name + [' '])
  {
    assert ([' '] + s)[1..] == s;
  }

  /** A backslash in the name meets the backslash inserted before its successor. */
  lemma BackslashMeets(v: string, tail: string)
    requires |v| >= 2 && v[0] == '\\'
    ensures IsSpecial(v[1]) ==> Before(v, tail) == ['\\', '\\'] + ([v[1]] + Before(v[2..], tail))
    ensures !IsSpecial(v[1]) ==> Before(v, tail) == ['\\', v[1]] + Before(v[2..], tail)
  {
    var w := v[1..];
    assert w[1..] == v[2..];
    assert Before(v, tail) == ['\\'] + (EscapeChar(v[1]) + Before(v[2..], tail));
  }

  lemma RawBackslashSpace(v: string, name: string, tail: string)
    requires |v| >= 2 && v[0] == '\\' && v[1] == ' '
    ensures RawTarget(Before(v, tail), name) == RawTarget(Before(v[2..], tail), name + ['\\', ' '])
  {
    var s := Before(v[2..], tail);
    BackslashMeets(v, tail);
    RawPair('\\', [' '] + s, name);
    RawSpace(s, name + ['\\']);
    assert name + ['\\'] + [' '] == name + ['\\', ' '];
  }

  lemma RawLoneBackslash(v: string, name: string, rest: string)
    requires v == ['\\']
    ensures RawTarget(Before(v, [':'] + rest), name) == RawTarget(rest, name + [':'])
  {
    assert v[1..] == [];
    assert Before(v, [':'] + rest) == ['\\', ':'] + rest;
    RawPair(':', rest, name);
  }

  lemma RawStep(v: string, name: string, tail: string)
    requires v != [] && v[0] != '\\'
    ensures RawTarget(Before(v, tail), name) == RawTarget(Before(v[1..], tail), if v[0] == '\n' then name else name + [v[0]])
  {
    var s := Before(v[1..], tail);
    if IsSpecial(v[0]) { RawPair(v[0], s, name); } else { RawPlain(v[0], s, name); }
  }

  lemma {:induction false} RawReads(v: string, name: string, rest: string)
    requires PlainTarget(v)
    ensures RawTarget(Before(v, [':'] + rest), name) == Some((name + v, rest))
    decreases |v|
  {
    var tail := [':'] + rest;
    if v == [] {
      assert tail[1..] == rest && name + [] == name;
    } else if v[0] == '\\' {
      assert v[1..][1..] == v[2..];
      assert v[..2] == ['\\', ' '];
      RawBackslashSpace(v, name, tail);
      RawReads(v[2..], name + v[..2], rest);
      Regroup(name, v, 2);
    } else {
      assert v[..1] == [v[0]];
      RawStep(v, name, tail);
      RawReads(v[1..], name + v[..1], rest);
      Regroup(name, v, 1);
    }
  }

  lemma StartsWithText(u: string, tail: string)
    requires u == [] ==> tail != [] && !IsSpace(tail[0])
    requires u == [] || u[0] == ' ' || !IsSpace(u[0])
    ensures Before(u, tail) != [] && SkipSpaces(Before(u, tail)) == Before(u, tail)
  {
  }

  lemma TargetReads(u: string, rest: string)
    requires TargetOk(u)
    ensures ReadTarget(Escape(u) + ([':'] + rest)) == Some((Escape(u), rest))
    ensures SkipSpaces(Escape(u) + ([':'] + rest)) != []
  {
    EscapeBefore(u, [':'] + rest);
    StartsWithText(u, [':'] + rest);
    RawReads(u, [], rest);
    assert [] + u == u;
  }

  /**
   If the parser stops no later than the colon written after the name, the name it has collected is at most
   as long as the original, and as long only if the original is plain. `after` says that the backslash
   inserted before the first character has already been taken as the second half of a pair.
   */
  lemma {:induction false} RawShort(v: string, after: bool, name: string, rest: string)
    requires after ==> v != [] && IsSpecial(v[0])
    requires var r := RawTarget(if after then [v[0]] + Before(v[1..], [':'] + rest) else Before(v, [':'] + rest), name);
      r.Some? && |r.value.1| >= |rest|
    ensures var r := RawTarget(if after then [v[0]] + Before(v[1..], [':'] + rest) else Before(v, [':'] + rest), name).value;
      && |r.0| <= |name| + |v|
      && (|r.0| == |name| + |v| ==> if after then v[0] == ' ' && PlainTarget(v[1..]) else PlainTarget(v))
    decreases |v|
  {
    var tail := [':'] + rest;
    if after {
      var s := Before(v[1..], tail);
      assert ([v[0]] + s)[1..] == s;
      if v[0] == ' ' {
        RawSpace(s, name);
        RawShort(v[1..], false, if name != [] && name[|name| - 1] == ' ' then name else name + [' '], rest);
      }
    } else if v == [] {
    } else if v[0] == '\\' {
      if |v| == 1 {
        RawLoneBackslash(v, name, rest);
      } else {
        BackslashMeets(v, tail);
        if IsSpecial(v[1]) {
          RawPair('\\', [v[1]] + Before(v[2..], tail), name);
          assert v[1..][1..] == v[2..];
          RawShort(v[1..], true, name + ['\\'], rest);
        } else {
          RawPair(v[1], Before(v[2..], tail), name);
          RawShort(v[2..], false, name + [v[1]], rest);
        }
      }
    } else {
      RawStep(v, name, tail);
      RawShort(v[1..], false, if v[0] == '\n' then name else name + [v[0]], rest);
    }
  }

  /** Skipping white space loses the first `n` characters of the name. */
  ghost predicate SkipsTo(u: string, n: nat, rest: string)
  {
    && 0 < n <= |u|
    && SkipSpaces(Before(u, [':'] + rest)) == Before(u[n..], [':'] + rest)
    && forall j | 0 <= j < n :: u[j] != ':'
  }

  lemma {:induction false} SkippedIsShorter(u: string, rest: string)
    requires u != [] && u[0] != ' ' && IsSpace(u[0]) && u[0] != '\n'
    ensures exists n: nat :: SkipsTo(u, n, rest)
  {
    var tail := [':'] + rest;
    assert Before(u, tail)[1..] == Before(u[1..], tail);
    if u[1..] != [] && u[1] != ' ' && u[1] != '\n' && IsSpace(u[1]) {
      SkippedIsShorter(u[1..], rest);
      var n: nat :| SkipsTo(u[1..], n, rest);
      assert u[1..][n..] == u[1 + n..];
      assert forall j | 0 < j < 1 + n :: u[j] == u[1..][j - 1];
      assert SkipsTo(u, 1 + n, rest);
    } else {
      assert SkipSpaces(Before(u[1..], tail)) == Before(u[1..], tail);
      assert SkipsTo(u, 1, rest);
    }
  }

  lemma {:induction false} RawExtends(s: string, name: string)
    requires RawTarget(s, name).Some?
    ensures name <= RawTarget(s, name).value.0
    decreases |s|
  {
    if s[0] == ':' {
    } else if s[0] == '\\' {
      RawExtends(Skip2(s), if |s| >= 2 && s[1] != '\n' then name + [s[1]] else name);
    } else if s[0] == ' ' && name != [] && name[|name| - 1] == ' ' {
      RawExtends(s[1..], name);
    } else {
      RawExtends(s[1..], name + [s[0]]);
    }
  }

  /** The collected name goes on with `c`. */
  ghost predicate Continues(r: string, name: string, c: char) { |name| < |r| && r[|name|] == c }

  lemma RawEmits(s: string, name: string, c: char)
    requires RawTarget(s, name + [c]).Some?
    ensures Continues(RawTarget(s, name + [c]).value.0, name, c)
  {
    RawExtends(s, name + [c]);
  }

  /** Once a pair of backslashes has made one, the name cannot come out as it was unless a space follows. */
  lemma {:induction false} RawStuck(v: string, k: nat, name: string, rest: string, u: string)
    requires k > 0 && |u| == |name| + k + |v|
    requires forall i | |name| <= i < |name| + k :: u[i] == '\\'
    requires u[|name| + k..] == v
    ensures var r := RawTarget(Before(v, [':'] + rest), name); r.Some? ==> r.value.0 != u
    decreases |v|
  {
    hide RawTarget;
    var tail := [':'] + rest;
    var r := RawTarget(Before(v, tail), name);
    EndOfName(rest, name);
    if r.Some? && v != [] {
      if v[0] == '\\' {
        if |v| == 1 {
          RawLoneBackslash(v, name, rest);
          RawEmits(rest, name, ':');
        } else {
          BackslashMeets(v, tail);
          var s := Before(v[2..], tail);
          if IsSpecial(v[1]) {
            RawPair('\\', [v[1]] + s, name);
            RawAfterBackslash(v[1], s, name + ['\\']);
          } else {
            RawPair(v[1], s, name);
            RawEmits(s, name, v[1]);
            if v[1] == '\\' {
              assert u[|name| + 1 + (k + 1)..] == v[2..];
              RawStuck(v[2..], k + 1, name + ['\\'], rest, u);
            }
          }
        }
      } else {
        RawStep(v, name, tail);
        if v[0] == '\n' {
          assert u[|name| + k] == '\n';
          RawNoNewline(Before(v, tail), name);
          RawExtends(Before(v, tail), name);
        } else {
          RawEmits(Before(v[1..], tail), name, v[0]);
        }
      }
    }
  }

  /** A special character whose backslash was taken: a colon ends the name, a newline throws, a space is kept. */
  lemma RawAfterBackslash(x: char, s: string, name: string)
    requires IsSpecial(x) && name != [] && name[|name| - 1] != ' '
    ensures var r := RawTarget([x] + s, name);
      r.Some? ==> (x == ':' && r.value == (name, s)) || (x == ' ' && r == RawTarget(s, name + [' ']) && Continues(r.value.0, name, ' '))
  {
    assert ([x] + s)[1..] == s;
    if x == ' ' && RawTarget([x] + s, name).Some? { RawEmits(s, name, ' '); }
  }

  /** The parser never collects a newline. */
  lemma {:induction false} RawNoNewline(s: string, name: string)
    requires RawTarget(s, name).Some?
    ensures var r := RawTarget(s, name).value.0; forall i | |name| <= i < |r| :: r[i] != '\n'
    decreases |s|
  {
    if s[0] == ':' {
    } else if s[0] == '\\' {
      var name' := if |s| >= 2 && s[1] != '\n' then name + [s[1]] else name;
      RawNoNewline(Skip2(s), name');
      RawExtends(Skip2(s), name');
    } else if s[0] == ' ' && name != [] && name[|name| - 1] == ' ' {
      RawNoNewline(s[1..], name);
    } else {
      RawNoNewline(s[1..], name + [s[0]]);
      RawExtends(s[1..], name + [s[0]]);
    }
  }

  lemma {:induction false} LoneBackslashDiffers(v: string, name: string, rest: string)
    requires v == ['\\']
    ensures var r := RawTarget(Before(v, [':'] + rest), name); r.Some? ==> r.value.0 != name + v
  {
    RawLoneBackslash(v, name, rest);
    if RawTarget(rest, name + [':']).Some? { RawEmits(rest, name, ':'); }
  }

  lemma {:induction false} PlainPairDiffers(v: string, name: string, rest: string)
    requires |v| >= 2 && v[0] == '\\' && !IsSpecial(v[1])
    ensures var r := RawTarget(Before(v, [':'] + rest), name); r.Some? ==> r.value.0 != name + v
  {
    var s := Before(v[2..], [':'] + rest);
    BackslashMeets(v, [':'] + rest);
    RawPair(v[1], s, name);
    if RawTarget(s, name + [v[1]]).Some? {
      RawEmits(s, name, v[1]);
      if v[1] == '\\' {
        assert (name + v)[|name + ['\\']| + 1..] == v[2..];
        RawStuck(v[2..], 1, name + ['\\'], rest, name + v);
      }
    }
  }

  lemma {:induction false} SpecialPairDiffers(v: string, name: string, rest: string)
    requires |v| >= 2 && v[0] == '\\' && IsSpecial(v[1]) && v[1] != ' '
    ensures var r := RawTarget(Before(v, [':'] + rest), name); r.Some? ==> r.value.0 != name + v
  {
    var s := Before(v[2..], [':'] + rest);
    BackslashMeets(v, [':'] + rest);
    RawPair('\\', [v[1]] + s, name);
    RawAfterBackslash(v[1], s, name + ['\\']);
  }

  /** A name with a backslash at the front comes out as it went in only if a space follows. */
  lemma {:induction false} RawBackslashEqual(v: string, name: string, rest: string)
    requires v != [] && v[0] == '\\'
    requires RawTarget(Before(v, [':'] + rest), name).Some?
    requires RawTarget(Before(v, [':'] + rest), name).value.0 == name + v
    ensures |v| >= 2 && v[1] == ' '
  {
    if |v| == 1 {
      LoneBackslashDiffers(v, name, rest);
    } else if !IsSpecial(v[1]) {
      PlainPairDiffers(v, name, rest);
    } else if v[1] != ' ' {
      SpecialPairDiffers(v, name, rest);
    }
  }

  /** If the name comes out as it went in, it was plain and the parser stopped at its colon. */
  lemma {:induction false} RawEqual(v: string, name: string, rest: string)
    requires RawTarget(Before(v, [':'] + rest), name).Some?
    requires RawTarget(Before(v, [':'] + rest), name).value.0 == name + v
    ensures PlainTarget(v) && RawTarget(Before(v, [':'] + rest), name).value.1 == rest
    decreases |v|
  {
    hide RawTarget;
    var tail := [':'] + rest;
    if v == [] {
      EndOfName(rest, name);
    } else if v[0] == '\\' {
      RawBackslashEqual(v, name, rest);
      RawBackslashSpace(v, name, tail);
      assert name + v == name + ['\\', ' '] + v[2..];
      RawEqual(v[2..], name + ['\\', ' '], rest);
      assert v[1..][1..] == v[2..];
    } else {
      RawStep(v, name, tail);
      if v[0] == '\n' {
        assert (name + v)[|name|] == '\n';
        RawNoNewline(Before(v, tail), name);
      } else {
        assert name + v == name + [v[0]] + v[1..];
        RawEqual(v[1..], name + [v[0]], rest);
      }
    }
  }

  /** If the parser runs past the colon, every colon of the name and that one too were collected no later than written. */
  lemma {:induction false} ColonCollected(v: string, name: string, rest: string, i: nat)
    requires RawTarget(Before(v, [':'] + rest), name).Some?
    requires |RawTarget(Before(v, [':'] + rest), name).value.1| < |rest|
    requires i == |v| || (i < |v| && v[i] == ':')
    ensures var r := RawTarget(Before(v, [':'] + rest), name).value.0;
      exists p :: |name| <= p <= |name| + i && p < |r| && r[p] == ':'
    decreases |v|
  {
    hide RawTarget;
    var tail := [':'] + rest;
    if v == [] {
      EndOfName(rest, name);
    } else if v[0] == '\\' {
      if |v| == 1 {
        RawLoneBackslash(v, name, rest);
        RawEmits(rest, name, ':');
      } else {
        BackslashMeets(v, tail);
        var s := Before(v[2..], tail);
        if IsSpecial(v[1]) {
          RawPair('\\', [v[1]] + s, name);
          RawAfterBackslash(v[1], s, name + ['\\']);
          BeforeLength(v[2..], tail);
          ColonCollected(v[2..], name + ['\\'] + [' '], rest, i - 2);
        } else {
          RawPair(v[1], s, name);
          ColonCollected(v[2..], name + [v[1]], rest, i - 2);
        }
      }
    } else {
      RawStep(v, name, tail);
      if i == 0 {
        RawEmits(Before(v[1..], tail), name, ':');
      } else {
        ColonCollected(v[1..], if v[0] == '\n' then name else name + [v[0]], rest, i - 1);
      }
    }
  }

  lemma EndOfName(rest: string, name: string)
    ensures RawTarget([':'] + rest, name) == Some((name, rest))
  {
    assert ([':'] + rest)[1..] == rest;
  }

  lemma {:induction false} BeforeLength(v: string, tail: string)
    ensures |Before(v, tail)| >= |tail|
  {
    if v != [] { BeforeLength(v[1..], tail); }
  }

  /** After skipping leading white space the parser cannot run past the colon and still return the whole name. */
  lemma {:induction false} NoDescent(u: string, n: nat, rest: string, i: nat)
    requires 0 < n <= |u| && (forall j | 0 <= j < n :: u[j] != ':')
    requires RawTarget(Before(u[n..], [':'] + rest), []).Some?
    requires |RawTarget(Before(u[n..], [':'] + rest), []).value.1| < |rest|
    requires i == |u| - n || (n + i < |u| && u[n + i] == ':')
    ensures RawTarget(Before(u[n..], [':'] + rest), []).value.0 != u
    decreases i
  {
    ColonCollected(u[n..], [], rest, i);
    var r := RawTarget(Before(u[n..], [':'] + rest), []).value.0;
    var p :| 0 <= p <= i && p < |r| && r[p] == ':';
    if r == u {
      NoDescent(u, n, rest, p - n);
    }
  }

  /**
   Exactly the names satisfying `TargetOk` are read back from their escaped form, whatever follows, and then
   the parser stops right after the colon.
   */
  lemma TargetExact(u: string, rest: string)
    ensures ReadTarget(Escape(u) + ([':'] + rest)).Some? && ReadTarget(Escape(u) + ([':'] + rest)).value.0 == Escape(u)
       <==> TargetOk(u)
    ensures TargetOk(u) ==> ReadTarget(Escape(u) + ([':'] + rest)) == Some((Escape(u), rest))
  {
    var tail := [':'] + rest;
    EscapeBefore(u, tail);
    if TargetOk(u) {
      TargetReads(u, rest);
    } else if ReadTarget(Escape(u) + tail).Some? && ReadTarget(Escape(u) + tail).value.0 == Escape(u) {
      var (raw, end) := RawTarget(SkipSpaces(Before(u, tail)), []).value;
      EscapeInjective(raw, u);
      if u != [] && u[0] != ' ' && u[0] != '\n' && IsSpace(u[0]) {
        SkippedIsShorter(u, rest);
        var n: nat :| SkipsTo(u, n, rest);
        if |end| >= |rest| { RawShort(u[n..], false, [], rest); } else { NoDescent(u, n, rest, |u| - n); }
      } else {
        assert SkipSpaces(Before(u, tail)) == Before(u, tail);
        assert [] + u == u;
        RawEqual(u, [], rest);
      }
    }
  }

  // ---- Dependencies: exactly which names survive ------------------------------------------------------------

  /** Every backslash stands directly before a colon. */
  predicate PlainDep(f: string)
  {
    f == [] || ((f[0] == '\\' ==> |f| > 1 && f[1] == ':') && PlainDep(f[1..]))
  }

  predicate DepOk(f: string)
  {
    PlainDep(f) && f != [] && !IsSpecial(f[0]) && f[0] != '\\'
  }

  /** The text after a dependency: a continuation or the end of the line. */
  predicate EndsItem(tail: string) { tail != [] && (tail[0] == ' ' || tail[0] == '\n') }

  lemma ItemPlain(c: char, s: string, name: string)
    requires c != ' ' && c != '\n' && c != '\\'
    ensures ItemTail([c] + s, name) == ItemTail(s, name + [c])
  {
    assert ([c] + s)[1..] == s;
  }

  lemma ItemPair(c: char, s: string, name: string)
    ensures ItemTail(['\\', c] + s, name) == ItemTail(s, name + [c])
  {
    assert (['\\', c] + s)[2..] == s;
  }

  lemma ItemBackslashColon(v: string, name: string, tail: string)
    requires |v| >= 2 && v[0] == '\\' && v[1] == ':'
    ensures ItemTail(Before(v, tail), name) == ItemTail(Before(v[2..], tail), name + ['\\', ':'])
  {
    var s := Before(v[2..], tail);
    BackslashMeets(v, tail);
    ItemPair('\\', [':'] + s, name);
    ItemPlain(':', s, name + ['\\']);
    assert name + ['\\'] + [':'] == name + ['\\', ':'];
  }

  lemma ItemStep(v: string, name: string, tail: string)
    requires v != [] && v[0] != '\\'
    ensures ItemTail(Before(v, tail), name) == ItemTail(Before(v[1..], tail), name + [v[0]])
  {
    var s := Before(v[1..], tail);
    if IsSpecial(v[0]) { ItemPair(v[0], s, name); } else { ItemPlain(v[0], s, name); }
  }

  lemma {:induction false} ItemReads(v: string, name: string, tail: string)
    requires PlainDep(v) && EndsItem(tail)
    ensures ItemTail(Before(v, tail), name) == (name + v, tail)
    decreases |v|
  {
    if v == [] {
      assert name + [] == name;
    } else if v[0] == '\\' {
      assert v[1..][1..] == v[2..];
      assert v[..2] == ['\\', ':'];
      ItemBackslashColon(v, name, tail);
      ItemReads(v[2..], name + v[..2], tail);
      Regroup(name, v, 2);
    } else {
      assert v[..1] == [v[0]];
      ItemStep(v, name, tail);
      ItemReads(v[1..], name + v[..1], tail);
      Regroup(name, v, 1);
    }
  }

  lemma LoneBackslash(v: string, tail: string)
    requires v == ['\\'] && tail != []
    ensures Before(v, tail) == ['\\', tail[0]] + tail[1..]
  {
    assert v[1..] == [];
  }

  lemma ItemLoneBackslash(v: string, name: string, tail: string)
    requires v == ['\\'] && tail != []
    ensures ItemTail(Before(v, tail), name) == ItemTail(tail[1..], name + [tail[0]])
  {
    LoneBackslash(v, tail);
    ItemPair(tail[0], tail[1..], name);
  }

  /** As `RawShort`, for dependencies. */
  lemma {:induction false} ItemShort(v: string, after: bool, name: string, tail: string)
    requires EndsItem(tail) && (after ==> v != [] && IsSpecial(v[0]))
    requires |ItemTail(if after then [v[0]] + Before(v[1..], tail) else Before(v, tail), name).1| >= |tail|
    ensures var r := ItemTail(if after then [v[0]] + Before(v[1..], tail) else Before(v, tail), name).0;
      && |r| <= |name| + |v|
      && (|r| == |name| + |v| ==> if after then v[0] == ':' && PlainDep(v[1..]) else PlainDep(v))
    decreases |v|
  {
    if after {
      var s := Before(v[1..], tail);
      if v[0] == ':' {
        ItemPlain(':', s, name);
        ItemShort(v[1..], false, name + [':'], tail);
      }
    } else if v == [] {
    } else if v[0] == '\\' {
      if |v| == 1 {
        ItemLoneBackslash(v, name, tail);
      } else {
        BackslashMeets(v, tail);
        if IsSpecial(v[1]) {
          ItemPair('\\', [v[1]] + Before(v[2..], tail), name);
          assert v[1..][1..] == v[2..];
          ItemShort(v[1..], true, name + ['\\'], tail);
        } else {
          ItemPair(v[1], Before(v[2..], tail), name);
          ItemShort(v[2..], false, name + [v[1]], tail);
        }
      }
    } else {
      ItemStep(v, name, tail);
      ItemShort(v[1..], false, name + [v[0]], tail);
    }
  }

  lemma GapPair(c: char, s: string)
    ensures NextItem(['\\', c] + s) == NextItem(s)
  {
    assert (['\\', c] + s)[2..] == s;
  }

  lemma GapBlank(s: string)
    ensures NextItem([' '] + s) == NextItem(s)
  {
    assert ([' '] + s)[1..] == s;
  }

  lemma GapLoneBackslash(v: string, tail: string)
    requires v == ['\\'] && tail != []
    ensures NextItem(Before(v, tail)) == NextItem(tail[1..])
  {
    LoneBackslash(v, tail);
    GapPair(tail[0], tail[1..]);
  }

  /** Skipping the gap before a dependency that starts with an escape eats part of the dependency. */
  lemma {:induction false} GapShort(v: string, tail: string)
    requires EndsItem(tail) && |NextItem(Before(v, tail)).1| >= |tail|
    ensures |NextItem(Before(v, tail)).0| <= |v|
    ensures |NextItem(Before(v, tail)).0| == |v| ==> DepOk(v)
    decreases |v|
  {
    if v == [] {
    } else if v[0] == '\\' {
      if |v| == 1 {
        GapLoneBackslash(v, tail);
      } else {
        BackslashMeets(v, tail);
        if IsSpecial(v[1]) {
          GapPair('\\', [v[1]] + Before(v[2..], tail));
          assert v[1..][1..] == v[2..];
          GapAfter(v[1..], tail);
        } else {
          GapPair(v[1], Before(v[2..], tail));
          GapShort(v[2..], tail);
        }
      }
    } else if IsSpecial(v[0]) {
      GapPair(v[0], Before(v[1..], tail));
      GapShort(v[1..], tail);
    } else {
      assert SkipGap(Before(v, tail)) == Before(v, tail);
      ItemShort(v, false, [], tail);
    }
  }

  lemma GapAfter(v: string, tail: string)
    requires EndsItem(tail) && v != [] && IsSpecial(v[0])
    requires |NextItem([v[0]] + Before(v[1..], tail)).1| >= |tail|
    ensures |NextItem([v[0]] + Before(v[1..], tail)).0| <= |v|
    decreases |v|
  {
    var s := Before(v[1..], tail);
    if v[0] == ' ' {
      GapBlank(s);
      GapShort(v[1..], tail);
    } else if v[0] == ':' {
      assert SkipGap([':'] + s) == [':'] + s;
      ItemShort(v, true, [], tail);
    }
  }

  /** Exactly the names satisfying `DepOk` are read back with the cursor left on what was printed after them. */
  lemma DepExact(f: string, tail: string)
    requires EndsItem(tail)
    ensures NextItem([' '] + (Escape(f) + tail)) == (f, tail) <==> DepOk(f)
  {
    EscapeBefore(f, tail);
    GapBlank(Before(f, tail));
    if DepOk(f) {
      assert SkipGap(Before(f, tail)) == Before(f, tail);
      ItemReads(f, [], tail);
      assert [] + f == f;
    } else if NextItem(Before(f, tail)) == (f, tail) {
      GapShort(f, tail);
    }
  }

  // ---- Whole files ------------------------------------------------------------------------------------------

  lemma GapContinuation(s: string)
    ensures NextItem(CONTINUATION + s) == NextItem([' '] + s)
  {
    assert CONTINUATION + s == [' '] + (['\\', '\n'] + ([' '] + ([' '] + s)));
    GapBlank(['\\', '\n'] + ([' '] + ([' '] + s)));
    GapPair('\n', [' '] + ([' '] + s));
    GapBlank([' '] + s);
  }

  lemma LaterDepsEnd(deps: seq<string>, rest: string)
    ensures EndsItem(LaterDeps(deps) + (NL + rest))
  {
    if deps == [] {
      assert [] + (NL + rest) == NL + rest;
    } else {
      assert (LaterDeps(deps) + (NL + rest))[0] == ' ';
    }
  }

  ghost predicate AllDepsOk(deps: seq<string>) { forall f | f in deps :: DepOk(f) }

  lemma {:induction false} LaterDepsRead(deps: seq<string>, rest: string)
    requires AllDepsOk(deps)
    ensures Items(LaterDeps(deps) + (NL + rest)) == (deps, rest)
  {
    var s := LaterDeps(deps) + (NL + rest);
    if deps == [] {
      assert s == NL + rest && s[1..] == rest;
    } else {
      var f, tail := deps[0], LaterDeps(deps[1..]) + (NL + rest);
      assert s == CONTINUATION + (Escape(f) + tail);
      GapContinuation(Escape(f) + tail);
      LaterDepsEnd(deps[1..], rest);
      DepExact(f, tail);
      LaterDepsRead(deps[1..], rest);
      assert deps == [f] + deps[1..];
    }
  }

  lemma DepListReads(deps: seq<string>, rest: string)
    requires AllDepsOk(deps)
    ensures Items(DepList(deps) + (NL + rest)) == (deps, rest)
  {
    if deps == [] {
      LaterDepsRead(deps, rest);
    } else {
      var f, tail := deps[0], LaterDeps(deps[1..]) + (NL + rest);
      assert DepList(deps) + (NL + rest) == [' '] + (Escape(f) + tail);
      LaterDepsEnd(deps[1..], rest);
      DepExact(f, tail);
      LaterDepsRead(deps[1..], rest);
      assert deps == [f] + deps[1..];
    }
  }

  /** Targets are escaped names that survive, dependencies are names that survive. */
  ghost predicate Printable(ts: seq<DepTarget>, names: seq<string>)
  {
    |names| == |ts| && forall i | 0 <= i < |ts| ::
      TargetOk(names[i]) && ts[i].target == Escape(names[i]) && AllDepsOk(ts[i].deps)
  }

  lemma LineReads(t: DepTarget, u: string, rest: string)
    requires TargetOk(u) && t.target == Escape(u) && AllDepsOk(t.deps)
    ensures Parse(Line(t) + rest) == Parsed([t] + Parse(rest).targets, Parse(rest).ok)
  {
    var after := DepList(t.deps) + (NL + rest);
    assert Line(t) + rest == Escape(u) + ([':'] + after);
    TargetReads(u, after);
    DepListReads(t.deps, rest);
  }

  lemma ParseSkipsGap(gap: string, s: string)
    requires gap == [] || gap == NL
    ensures Parse(gap + s) == Parse(s)
  {
    if gap == [] { assert gap + s == s; } else { assert (gap + s)[1..] == s; }
  }

  lemma LineThen(t: DepTarget, u: string, gap: string, more: string, ts: seq<DepTarget>)
    requires TargetOk(u) && t.target == Escape(u) && AllDepsOk(t.deps)
    requires (gap == [] || gap == NL) && Parse(more) == Parsed(ts, true)
    ensures Parse(Line(t) + (gap + more)) == Parsed([t] + ts, true)
  {
    LineReads(t, u, gap + more);
    ParseSkipsGap(gap, more);
  }

  lemma OneLine(t: DepTarget, u: string)
    requires TargetOk(u) && t.target == Escape(u) && AllDepsOk(t.deps)
    ensures Parse(Line(t)) == Parsed([t], true)
  {
    LineThen(t, u, [], [], []);
    assert Line(t) + ([] + []) == Line(t);
    assert [t] + [] == [t];
  }

  lemma WrittenCons(ts: seq<DepTarget>)
    requires |ts| > 1
    ensures Written(ts) == Line(ts[0]) + (NL + Written(ts[1..])) && ts == [ts[0]] + ts[1..]
  {
    var l, more := Line(ts[0]), Written(ts[1..]);
    assert l + NL + more == l + (NL + more);
  }

  lemma PrintableTail(ts: seq<DepTarget>, names: seq<string>)
    requires Printable(ts, names) && ts != []
    ensures names != [] && TargetOk(names[0]) && ts[0].target == Escape(names[0]) && AllDepsOk(ts[0].deps)
    ensures Printable(ts[1..], names[1..])
  {
  }

  /** Parsing what was printed gives the file back. */
  lemma {:induction false} FileRoundTrip(ts: seq<DepTarget>, names: seq<string>)
    requires Printable(ts, names)
    ensures Parse(Written(ts)) == Parsed(ts, true)
  {
    if ts != [] {
      PrintableTail(ts, names);
      if |ts| == 1 {
        OneLine(ts[0], names[0]);
      } else {
        FileRoundTrip(ts[1..], names[1..]);
        LineThen(ts[0], names[0], NL, Written(ts[1..]), ts[1..]);
        WrittenCons(ts);
      }
    }
  }
}
