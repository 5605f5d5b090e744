/**
 The converse of the dependency-file round trip. The parser emits a backslash only for two adjacent ones in
 the text, and the printer puts two adjacent ones only where a name has one. If a file comes back, none of
 these pairs is wasted, and so every name was read where it was printed.
 */
module DepFileExact {
  import opened Bytes
  import opened Escaping
  import opened DepFile

  // ---- Counting ---------------------------------------------------------------------------------------------

  function One(b: bool): nat { if b then 1 else 0 }

  function Slashes(s: string): nat
  {
    if s == [] then 0 else One(s[0] == '\\') + Slashes(s[1..])
  }

  /** Places where two backslashes are adjacent. */
  function Pairs(s: string): nat
  {
    if |s| < 2 then 0 else One(s[0] == '\\' && s[1] == '\\') + Pairs(s[1..])
  }

  function Specials(s: string): nat
  {
    if s == [] then 0 else One(IsSpecial(s[0])) + Specials(s[1..])
  }

  function SlashesAll(ss: seq<string>): nat
  {
    if ss == [] then 0 else Slashes(ss[0]) + SlashesAll(ss[1..])
  }

  /** The backslashes of the name an escaped target stands for. */
  function Net(target: string): int { Slashes(target) - Specials(target) }

  function Weight(ts: seq<DepTarget>): int
  {
    if ts == [] then 0 else Net(ts[0].target) + SlashesAll(ts[0].deps) + Weight(ts[1..])
  }

  lemma {:induction false} SlashesSnoc(s: string, c: char)
    ensures Slashes(s + [c]) == Slashes(s) + One(c == '\\')
  {
    if s == [] {
      assert s + [c] == [c];
    } else {
      assert (s + [c])[1..] == s[1..] + [c];
      SlashesSnoc(s[1..], c);
    }
  }

  lemma {:induction false} CountCons(c: char, s: string)
    ensures Slashes([c] + s) == One(c == '\\') + Slashes(s) && Specials([c] + s) == One(IsSpecial(c)) + Specials(s)
  {
    assert ([c] + s)[1..] == s;
  }

  lemma {:induction false} PairsCons(c: char, s: string)
    ensures Pairs([c] + s) == One(c == '\\' && s != [] && s[0] == '\\') + Pairs(s)
  {
    assert ([c] + s)[1..] == s;
  }

  lemma {:induction false} NetEscape(u: string)
    ensures Net(Escape(u)) == Slashes(u)
  {
    if u != [] {
      var more := Escape(u[1..]);
      NetEscape(u[1..]);
      if IsSpecial(u[0]) {
        assert Escape(u) == ['\\'] + ([u[0]] + more);
        CountCons('\\', [u[0]] + more);
        CountCons(u[0], more);
      } else {
        assert Escape(u) == [u[0]] + more;
        CountCons(u[0], more);
      }
    }
  }

  // ---- The parser emits no more backslashes than there are pairs ---------------------------------------------

  lemma {:induction false} PairsDrop(s: string)
    requires s != []
    ensures Pairs(s[1..]) <= Pairs(s)
  {
  }

  lemma {:induction false} PairsDrop2(s: string)
    requires |s| >= 2
    ensures One(s[0] == '\\' && s[1] == '\\') + Pairs(s[2..]) <= Pairs(s)
  {
    PairsDrop(s[1..]);
    assert s[1..][1..] == s[2..];
  }

  lemma {:induction false} RawBound(s: string, name: string)
    requires RawTarget(s, name).Some?
    ensures var r := RawTarget(s, name).value; Slashes(r.0) + Pairs(r.1) <= Slashes(name) + Pairs(s)
    decreases |s|
  {
    PairsDrop(s);
    if s[0] == ':' {
    } else if s[0] == '\\' {
      if |s| >= 2 {
        PairsDrop2(s);
        SlashesSnoc(name, s[1]);
      }
      RawBound(Skip2(s), if |s| >= 2 && s[1] != '\n' then name + [s[1]] else name);
    } else {
      SlashesSnoc(name, s[0]);
      RawBound(s[1..], if s[0] == ' ' && name != [] && name[|name| - 1] == ' ' then name else name + [s[0]]);
    }
  }

  lemma {:induction false} ItemBound(s: string, name: string)
    ensures var r := ItemTail(s, name); Slashes(r.0) + Pairs(r.1) <= Slashes(name) + Pairs(s)
    decreases |s|
  {
    if s == [] || s[0] == ' ' || s[0] == '\n' {
    } else if s[0] == '\\' {
      if |s| >= 2 {
        PairsDrop2(s);
        SlashesSnoc(name, s[1]);
      }
      ItemBound(Skip2(s), if |s| >= 2 then name + [s[1]] else name);
    } else {
      PairsDrop(s);
      SlashesSnoc(name, s[0]);
      ItemBound(s[1..], name + [s[0]]);
    }
  }

  lemma {:induction false} GapBound(s: string)
    ensures Pairs(SkipGap(s)) <= Pairs(s)
    decreases |s|
  {
    if s != [] && s[0] == ' ' {
      PairsDrop(s);
      GapBound(s[1..]);
    } else if s != [] && s[0] == '\\' {
      if |s| >= 2 { PairsDrop2(s); }
      GapBound(Skip2(s));
    }
  }

  lemma {:induction false} NextBound(s: string)
    ensures Slashes(NextItem(s).0) + Pairs(NextItem(s).1) <= Pairs(s)
  {
    var g := SkipGap(s);
    GapBound(s);
    if g != [] && g[0] == '\n' {
      PairsDrop(g);
    } else if g != [] {
      ItemBound(g, []);
    }
  }

  lemma {:induction false} ItemsBound(s: string)
    ensures SlashesAll(Items(s).0) + Pairs(Items(s).1) <= Pairs(s)
    decreases |s|
  {
    var (item, rest) := NextItem(s);
    NextBound(s);
    if item != [] {
      ItemsBound(rest);
      assert ([item] + Items(rest).0)[1..] == Items(rest).0;
    }
  }

  lemma {:induction false} SpacesBound(s: string)
    ensures Pairs(SkipSpaces(s)) <= Pairs(s)
  {
    if s != [] && IsSpace(s[0]) { SpacesBound(s[1..]); }
  }

  lemma {:induction false} WeightCons(t: DepTarget, ts: seq<DepTarget>)
    ensures Weight([t] + ts) == Net(t.target) + SlashesAll(t.deps) + Weight(ts)
  {
    assert ([t] + ts)[1..] == ts;
  }

  lemma {:induction false} ParseBound(s: string)
    ensures Weight(Parse(s).targets) <= Pairs(s)
    decreases |s|
  {
    if SkipSpaces(s) != [] && ReadTarget(s).Some? {
      var (target, rest) := ReadTarget(s).value;
      var (name, _) := RawTarget(SkipSpaces(s), []).value;
      SpacesBound(s);
      RawBound(SkipSpaces(s), []);
      NetEscape(name);
      ItemsBound(rest);
      ParseBound(Items(rest).1);
      WeightCons(DepTarget(target, Items(rest).0), Parse(Items(rest).1).targets);
    }
  }

  // ---- The printer makes no more pairs than the names have backslashes ----------------------------------------

  /** The backslashes of a name that stand before a backslash or an escaped character. */
  function Guarded(v: string): (n: nat)
    ensures n <= Slashes(v)
  {
    if v == [] then 0
    else One(v[0] == '\\' && |v| > 1 && (v[1] == '\\' || IsSpecial(v[1]))) + Guarded(v[1..])
  }

  function GuardedAll(ss: seq<string>): (n: nat)
    ensures n <= SlashesAll(ss)
  {
    if ss == [] then 0 else Guarded(ss[0]) + GuardedAll(ss[1..])
  }

  predicate AllGuarded(v: string) { Guarded(v) == Slashes(v) }

  lemma {:induction false} BeforeHead(v: string, tail: string)
    requires tail != [] && tail[0] != '\\'
    ensures Before(v, tail) != []
    ensures Before(v, tail)[0] == '\\' <==> v != [] && (v[0] == '\\' || IsSpecial(v[0]))
  {
  }

  lemma {:induction false} PairsBefore(v: string, tail: string)
    requires tail != [] && tail[0] != '\\'
    ensures Pairs(Before(v, tail)) == Guarded(v) + Pairs(tail)
  {
    if v != [] {
      var s := Before(v[1..], tail);
      PairsBefore(v[1..], tail);
      BeforeHead(v[1..], tail);
      if IsSpecial(v[0]) {
        assert Before(v, tail) == ['\\'] + ([v[0]] + s);
        PairsCons('\\', [v[0]] + s);
        PairsCons(v[0], s);
      } else {
        PairsCons(v[0], s);
      }
    }
  }

  lemma {:induction false} PairsContinuation(s: string)
    ensures Pairs(CONTINUATION + s) == Pairs(s)
  {
    hide Pairs;
    var s1 := [' '] + s;
    var s2 := [' '] + s1;
    var s3 := ['\n'] + s2;
    var s4 := ['\\'] + s3;
    assert CONTINUATION + s == [' '] + s4;
    PairsCons(' ', s);
    PairsCons(' ', s1);
    PairsCons('\n', s2);
    PairsCons('\\', s3);
    PairsCons(' ', s4);
  }

  /** The text of a dependency list from its `f` on: in either form the gap before `f` adds nothing. */
  ghost predicate Leads(s: string, f: string, tail: string)
  {
    NextItem(s) == NextItem(Before(f, tail)) && Pairs(s) == Guarded(f) + Pairs(tail)
  }

  lemma {:induction false} LaterDepsLead(deps: seq<string>, rest: string)
    requires deps != []
    ensures var tail := LaterDeps(deps[1..]) + (NL + rest);
      EndsItem(tail) && Leads(LaterDeps(deps) + (NL + rest), deps[0], tail)
  {
    var f, tail := deps[0], LaterDeps(deps[1..]) + (NL + rest);
    LaterDepsEnd(deps[1..], rest);
    assert LaterDeps(deps) + (NL + rest) == CONTINUATION + (Escape(f) + tail);
    EscapeBefore(f, tail);
    GapContinuation(Before(f, tail));
    GapBlank(Before(f, tail));
    PairsContinuation(Before(f, tail));
    PairsBefore(f, tail);
  }

  lemma {:induction false} DepListLeads(deps: seq<string>, rest: string)
    requires deps != []
    ensures var tail := LaterDeps(deps[1..]) + (NL + rest);
      EndsItem(tail) && Leads(DepList(deps) + (NL + rest), deps[0], tail)
  {
    var f, later := deps[0], LaterDeps(deps[1..]);
    var tail := later + (NL + rest);
    LaterDepsEnd(deps[1..], rest);
    assert DepList(deps) == [' '] + Escape(f) + later;
    hide DepList, LaterDeps, Escape, NextItem;
    assert [' '] + Escape(f) + later + (NL + rest) == [' '] + (Escape(f) + tail);
    EscapeBefore(f, tail);
    GapBlank(Before(f, tail));
    PairsCons(' ', Before(f, tail));
    PairsBefore(f, tail);
  }

  lemma {:induction false} LaterDepsPairs(deps: seq<string>, rest: string)
    ensures Pairs(LaterDeps(deps) + (NL + rest)) == GuardedAll(deps) + Pairs(rest)
  {
    if deps == [] {
      assert LaterDeps(deps) + (NL + rest) == NL + rest;
      PairsCons('\n', rest);
    } else {
      LaterDepsLead(deps, rest);
      LaterDepsPairs(deps[1..], rest);
    }
  }

  lemma {:induction false} DepListPairs(deps: seq<string>, rest: string)
    ensures Pairs(DepList(deps) + (NL + rest)) == GuardedAll(deps) + Pairs(rest)
  {
    if deps == [] {
      LaterDepsPairs(deps, rest);
    } else {
      DepListLeads(deps, rest);
      LaterDepsPairs(deps[1..], rest);
    }
  }

  /** A printed line in front of the rest, split at the colon. */
  lemma {:induction false} LineText(t: DepTarget, u: string, rest: string)
    requires t.target == Escape(u)
    ensures var after := DepList(t.deps) + (NL + rest);
      && Line(t) + rest == Escape(u) + ([':'] + after)
      && Pairs(Line(t) + rest) == Guarded(u) + GuardedAll(t.deps) + Pairs(rest)
  {
    var after := DepList(t.deps) + (NL + rest);
    assert Line(t) + rest == Escape(u) + ([':'] + after);
    EscapeBefore(u, [':'] + after);
    PairsBefore(u, [':'] + after);
    PairsCons(':', after);
    DepListPairs(t.deps, rest);
  }

  ghost predicate Escaped(ts: seq<DepTarget>, names: seq<string>)
  {
    |names| == |ts| && forall i | 0 <= i < |ts| :: ts[i].target == Escape(names[i])
  }

  /** What follows the first printed line. */
  function AfterFirst(ts: seq<DepTarget>): string
    requires ts != []
  {
    if |ts| == 1 then [] else NL + Written(ts[1..])
  }

  lemma {:induction false} WrittenFirst(ts: seq<DepTarget>)
    requires ts != []
    ensures Written(ts) == Line(ts[0]) + AfterFirst(ts) && Pairs(AfterFirst(ts)) == Pairs(Written(ts[1..]))
    ensures Parse(AfterFirst(ts)) == Parse(Written(ts[1..]))
  {
    if |ts| == 1 {
      assert Line(ts[0]) + [] == Line(ts[0]);
    } else {
      WrittenCons(ts);
      PairsCons('\n', Written(ts[1..]));
      ParseSkipsGap(NL, Written(ts[1..]));
    }
  }

  lemma {:induction false} WrittenPairs(ts: seq<DepTarget>, names: seq<string>)
    requires Escaped(ts, names)
    ensures Pairs(Written(ts)) <= Weight(ts)
  {
    if ts != [] {
      WrittenFirst(ts);
      LineText(ts[0], names[0], AfterFirst(ts));
      NetEscape(names[0]);
      WrittenPairs(ts[1..], names[1..]);
    }
  }

  // ---- No pair is wasted: every dependency is read where it was printed ----------------------------------------

  lemma {:induction false} GuardedRest(v: string)
    requires v != [] && AllGuarded(v)
    ensures AllGuarded(v[1..]) && (v[0] == '\\' ==> |v| > 1 && (v[1] == '\\' || IsSpecial(v[1])))
  {
  }

  ghost predicate EndsInSlash(x: string) { x != [] && x[|x| - 1] == '\\' }

  lemma {:induction false} GuardedEnd(v: string)
    requires AllGuarded(v)
    ensures !EndsInSlash(v)
  {
    if |v| > 1 {
      GuardedRest(v);
      GuardedEnd(v[1..]);
    }
  }

  /** Two backslashes of the name in one pair: the second is wasted. */
  lemma {:induction false} DoubleWasted(v: string, name: string, tail: string)
    requires |v| >= 2 && v[0] == '\\' && v[1] == '\\' && AllGuarded(v) && EndsItem(tail)
    ensures var r := ItemTail(Before(v, tail), name);
      Slashes(r.0) + Pairs(r.1) < Slashes(name) + Pairs(Before(v, tail))
  {
    GuardedRest(v);
    GuardedRest(v[1..]);
    assert v[1..][1..] == v[2..];
    BackslashMeets(v, tail);
    ItemPair('\\', Before(v[2..], tail), name);
    ItemBound(Before(v[2..], tail), name + ['\\']);
    SlashesSnoc(name, '\\');
    PairsBefore(v, tail);
    PairsBefore(v[2..], tail);
  }

  /** An item in which no pair is wasted, and which does not end in a backslash, ends where it was printed. */
  lemma {:induction false} ItemInPlace(v: string, name: string, tail: string)
    requires AllGuarded(v) && EndsItem(tail)
    requires var r := ItemTail(Before(v, tail), name);
      Slashes(r.0) + Pairs(r.1) == Slashes(name) + Pairs(Before(v, tail)) && !EndsInSlash(r.0)
    ensures ItemTail(Before(v, tail), name).1 == tail
    decreases |v|
  {
    if v != [] {
      GuardedRest(v);
      PairsBefore(v, tail);
      if v[0] != '\\' {
        ItemStep(v, name, tail);
        SlashesSnoc(name, v[0]);
        PairsBefore(v[1..], tail);
        ItemInPlace(v[1..], name + [v[0]], tail);
      } else if v[1] == '\\' {
        DoubleWasted(v, name, tail);
      } else {
        SpecialInPlace(v, name, tail);
      }
    }
  }

  lemma {:induction false} SpecialInPlace(v: string, name: string, tail: string)
    requires AllGuarded(v) && EndsItem(tail) && |v| >= 2 && v[0] == '\\' && IsSpecial(v[1])
    requires var r := ItemTail(Before(v, tail), name);
      Slashes(r.0) + Pairs(r.1) == Slashes(name) + Pairs(Before(v, tail)) && !EndsInSlash(r.0)
    ensures ItemTail(Before(v, tail), name).1 == tail
    decreases |v|, 0
  {
    GuardedRest(v);
    GuardedRest(v[1..]);
    assert v[1..][1..] == v[2..];
    if v[1] == ':' {
      ItemBackslashColon(v, name, tail);
      SlashesSnoc(name, '\\');
      SlashesSnoc(name + ['\\'], ':');
      assert name + ['\\'] + [':'] == name + ['\\', ':'];
      PairsBefore(v, tail);
      PairsBefore(v[2..], tail);
      ItemInPlace(v[2..], name + ['\\', ':'], tail);
    } else {
      BackslashMeets(v, tail);
      ItemPair('\\', [v[1]] + Before(v[2..], tail), name);
    }
  }

  /** A dependency is read in place, or leaves nothing behind. */
  lemma {:induction false} OneOrNone(f: string, tail: string)
    requires AllGuarded(f) && EndsItem(tail)
    requires var r := NextItem(Before(f, tail));
      Slashes(r.0) + Pairs(r.1) == Pairs(Before(f, tail)) && !EndsInSlash(r.0)
    ensures var r := NextItem(Before(f, tail)); (r.0 != [] && r.1 == tail) || r == NextItem(tail)
  {
    if f != [] {
      GuardedRest(f);
      PairsBefore(f, tail);
      if IsSpecial(f[0]) {
        GapPair(f[0], Before(f[1..], tail));
        PairsBefore(f[1..], tail);
        OneOrNone(f[1..], tail);
      } else if f[0] == '\\' {
        GapWasted(f, tail);
      } else {
        assert SkipGap(Before(f, tail)) == Before(f, tail);
        ItemInPlace(f, [], tail);
      }
    }
  }

  /** A backslash skipped in a gap is wasted. */
  lemma {:induction false} GapWasted(f: string, tail: string)
    requires f != [] && f[0] == '\\' && AllGuarded(f) && EndsItem(tail)
    ensures var r := NextItem(Before(f, tail)); Slashes(r.0) + Pairs(r.1) < Pairs(Before(f, tail))
  {
    var s := Before(f, tail);
    GuardedRest(f);
    BeforeHead(f[1..], tail);
    assert s == ['\\', '\\'] + s[2..];
    GapPair('\\', s[2..]);
    NextBound(s[2..]);
    PairsDrop2(s);
  }

  ghost predicate NoneEndsInSlash(ss: seq<string>) { forall x | x in ss :: !EndsInSlash(x) }

  /** In reading the items of `s` no pair is wasted. */
  ghost predicate Thrifty(s: string)
  {
    SlashesAll(Items(s).0) + Pairs(Items(s).1) == Pairs(s) && NoneEndsInSlash(Items(s).0)
  }

  lemma {:induction false} ItemsUnfold(s: string)
    ensures var (x, r) := NextItem(s);
      Items(s) == if x == [] then ([], r) else ([x] + Items(r).0, Items(r).1)
    ensures var (x, r) := NextItem(s); x != [] ==> SlashesAll([x] + Items(r).0) == Slashes(x) + SlashesAll(Items(r).0)
  {
    var (x, r) := NextItem(s);
    assert ([x] + Items(r).0)[1..] == Items(r).0;
  }

  /** The first item of a thrifty list wastes nothing, and the rest is thrifty. */
  lemma {:induction false} ThriftyFirst(s: string)
    requires Thrifty(s)
    ensures var (x, r) := NextItem(s);
      && Slashes(x) + Pairs(r) == Pairs(s) && !EndsInSlash(x)
      && (x != [] ==> Thrifty(r))
  {
    var (x, r) := NextItem(s);
    ItemsUnfold(s);
    NextBound(s);
    ItemsBound(r);
    hide Items, NextItem, Slashes, Pairs;
    if x != [] {
      assert x in [x] + Items(r).0;
      assert forall y | y in Items(r).0 :: y in [x] + Items(r).0;
    }
  }

  /** One dependency of a thrifty list: it is the next item, in place, or nothing at all. */
  lemma {:induction false} ThriftyDep(s: string, f: string, tail: string)
    requires Leads(s, f, tail) && Thrifty(s) && AllGuarded(f) && EndsItem(tail)
    ensures Thrifty(tail) && Items(tail).1 == Items(s).1
    ensures (NextItem(s).0 != [] && NextItem(s).1 == tail && Items(s).0 == [NextItem(s).0] + Items(tail).0)
         || Items(s).0 == Items(tail).0
  {
    ThriftyFirst(s);
    PairsBefore(f, tail);
    OneOrNone(f, tail);
    ItemsUnfold(s);
    ItemsUnfold(tail);
    ItemsBound(tail);
    hide Items, NextItem, Slashes, Pairs, SlashesAll;
  }

  ghost predicate EachGuarded(ss: seq<string>) { forall x | x in ss :: AllGuarded(x) }

  /** A thrifty list has at most one item per dependency and ends at its newline. */
  lemma {:induction false} LaterDepsThrifty(deps: seq<string>, rest: string)
    requires EachGuarded(deps) && Thrifty(LaterDeps(deps) + (NL + rest))
    ensures var (out, end) := Items(LaterDeps(deps) + (NL + rest));
      end == rest && |out| <= |deps| && (out == deps ==> AllDepsOk(deps))
    decreases |deps|, 1
  {
    var s := LaterDeps(deps) + (NL + rest);
    if deps == [] {
      LaterDepsRead(deps, rest);
    } else {
      LaterDepsLead(deps, rest);
      ListThrifty(s, deps, rest);
    }
  }

  /** The same for a list behind either form of its first gap. */
  lemma {:induction false} ListThrifty(s: string, deps: seq<string>, rest: string)
    requires deps != [] && EachGuarded(deps) && Thrifty(s)
    requires var tail := LaterDeps(deps[1..]) + (NL + rest); Leads(s, deps[0], tail) && EndsItem(tail)
    ensures Items(s).1 == rest && |Items(s).0| <= |deps| && (Items(s).0 == deps ==> AllDepsOk(deps))
    decreases |deps|, 0
  {
    var f, tail := deps[0], LaterDeps(deps[1..]) + (NL + rest);
    assert f in deps && forall x | x in deps[1..] :: x in deps;
    ThriftyDep(s, f, tail);
    LaterDepsThrifty(deps[1..], rest);
    if Items(s).0 == deps {
      FirstInPlace(s, f, tail, deps);
      assert deps == [f] + deps[1..];
    }
  }

  lemma {:induction false} FirstInPlace(s: string, f: string, tail: string, deps: seq<string>)
    requires Leads(s, f, tail) && EndsItem(tail) && deps != [] && f == deps[0] && Items(s).0 == deps
    requires NextItem(s).0 != [] && NextItem(s).1 == tail && Items(s).0 == [NextItem(s).0] + Items(tail).0
    ensures DepOk(f) && Items(tail).0 == deps[1..]
  {
    hide Items, NextItem, DepOk;
    EscapeBefore(f, tail);
    GapBlank(Before(f, tail));
    DepExact(f, tail);
    assert NextItem(s) == (f, tail);
  }

  lemma {:induction false} DepListThrifty(deps: seq<string>, rest: string)
    requires EachGuarded(deps) && Thrifty(DepList(deps) + (NL + rest)) && Items(DepList(deps) + (NL + rest)).0 == deps
    ensures Items(DepList(deps) + (NL + rest)).1 == rest && AllDepsOk(deps)
  {
    if deps == [] {
      DepListReads(deps, rest);
    } else {
      DepListLeads(deps, rest);
      ListThrifty(DepList(deps) + (NL + rest), deps, rest);
    }
  }

  // ---- Whole files ----------------------------------------------------------------------------------------------

  lemma {:induction false} AllGuardedWhenTight(deps: seq<string>)
    requires GuardedAll(deps) == SlashesAll(deps)
    ensures EachGuarded(deps)
  {
    if deps != [] {
      AllGuardedWhenTight(deps[1..]);
      forall x | x in deps
        ensures AllGuarded(x)
      {
        if x != deps[0] { assert x in deps[1..]; }
      }
    }
  }

  lemma {:induction false} GuardedEnds(deps: seq<string>)
    requires EachGuarded(deps)
    ensures NoneEndsInSlash(deps)
  {
    forall x | x in deps
      ensures !EndsInSlash(x)
    {
      GuardedEnd(x);
    }
  }

  /** What the parser makes of a printed line in front of `rest`, if it reads the target back. */
  lemma {:induction false} ParseLine(t: DepTarget, u: string, rest: string, ts: seq<DepTarget>)
    requires t.target == Escape(u) && Parse(Line(t) + rest) == Parsed([t] + ts, true)
    ensures TargetOk(u)
    ensures var (out, end) := Items(DepList(t.deps) + (NL + rest)); out == t.deps && Parse(end) == Parsed(ts, true)
  {
    var after := DepList(t.deps) + (NL + rest);
    LineText(t, u, rest);
    TargetExact(u, after);
    assert ([t] + ts)[0] == t && ([t] + ts)[1..] == ts;
    hide DepList, Line, TargetOk, Items, ReadTarget, Escape;
    var s := Line(t) + rest;
    assert SkipSpaces(s) != [] && ReadTarget(s).Some?;
    var (deps, end) := Items(ReadTarget(s).value.1);
    assert ([DepTarget(ReadTarget(s).value.0, deps)] + Parse(end).targets)[1..] == Parse(end).targets;
  }

  /** The first line of a file that comes back was read in place. */
  lemma {:induction false} FirstLine(t: DepTarget, u: string, rest: string, ts: seq<DepTarget>)
    requires t.target == Escape(u) && Parse(Line(t) + rest) == Parsed([t] + ts, true) && Pairs(rest) <= Weight(ts)
    ensures TargetOk(u) && AllDepsOk(t.deps) && Parse(rest) == Parsed(ts, true)
  {
    var after := DepList(t.deps) + (NL + rest);
    ParseLine(t, u, rest, ts);
    var end := Items(after).1;
    ItemsBound(after);
    ParseBound(end);
    DepListPairs(t.deps, rest);
    hide DepList, Line, TargetOk, Items, Parse, Pairs, Weight, SlashesAll, GuardedAll, AllDepsOk;
    AllGuardedWhenTight(t.deps);
    GuardedEnds(t.deps);
    DepListThrifty(t.deps, rest);
  }

  lemma {:induction false} ComesBackPrintable(ts: seq<DepTarget>, names: seq<string>)
    requires Escaped(ts, names) && Parse(Written(ts)) == Parsed(ts, true)
    ensures Printable(ts, names)
  {
    if ts != [] {
      WrittenFirst(ts);
      WrittenPairs(ts[1..], names[1..]);
      assert ts == [ts[0]] + ts[1..];
      hide Parse, Written, Weight, TargetOk, AllDepsOk;
      FirstLine(ts[0], names[0], AfterFirst(ts), ts[1..]);
      ComesBackPrintable(ts[1..], names[1..]);
      PrintableCons(ts, names);
    }
  }

  lemma {:induction false} PrintableCons(ts: seq<DepTarget>, names: seq<string>)
    requires ts != [] && |names| == |ts| && Printable(ts[1..], names[1..])
    requires TargetOk(names[0]) && ts[0].target == Escape(names[0]) && AllDepsOk(ts[0].deps)
    ensures Printable(ts, names)
  {
    hide TargetOk, AllDepsOk, Escape;
    forall i | 0 <= i < |ts|
      ensures TargetOk(names[i]) && ts[i].target == Escape(names[i]) && AllDepsOk(ts[i].deps)
    {
      if i > 0 { assert ts[i] == ts[1..][i - 1] && names[i] == names[1..][i - 1]; }
    }
  }

  /** The parser returns escaped targets. */
  lemma {:induction false} ParsedNames(s: string) returns (names: seq<string>)
    ensures Escaped(Parse(s).targets, names)
    decreases |s|
  {
    names := [];
    if SkipSpaces(s) != [] && ReadTarget(s).Some? {
      var (target, rest) := ReadTarget(s).value;
      var more := ParsedNames(Items(rest).1);
      names := [RawTarget(SkipSpaces(s), []).value.0] + more;
      var t, ts := DepTarget(target, Items(rest).0), Parse(Items(rest).1).targets;
      assert Parse(s).targets == [t] + ts;
    }
  }

  /** A file comes back from its text exactly when its targets and dependencies all survive. */
  lemma {:induction false} FileExact(ts: seq<DepTarget>)
    ensures Parse(Written(ts)) == Parsed(ts, true) <==> exists names :: Printable(ts, names)
  {
    hide Parse, Written;
    if Parse(Written(ts)) == Parsed(ts, true) {
      var names := ParsedNames(Written(ts));
      ComesBackPrintable(ts, names);
    }
    if names :| Printable(ts, names) { FileRoundTrip(ts, names); }
  }
}
