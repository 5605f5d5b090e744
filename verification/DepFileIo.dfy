/** The cursor loops of the dependency-file parser, and its printer. */
module DepFileIo {
  import opened Bytes
  import opened Escaping
  import opened DepFile

  function Left(c: string, offset: nat): string { if offset <= |c| then c[offset..] else [] }

  lemma LeftStep(c: string, offset: nat)
    requires offset < |c|
    ensures Left(c, offset) != [] && Left(c, offset)[0] == c[offset]
    ensures Left(c, offset)[1..] == Left(c, offset + 1)
    ensures Skip2(Left(c, offset)) == Left(c, offset + 2)
    ensures |Left(c, offset)| >= 2 <==> offset + 1 < |c|
    ensures offset + 1 < |c| ==> Left(c, offset)[1] == c[offset + 1]
  {
  }

  method ParseSkipSpaces(c: string, start: nat) returns (offset: nat)
    requires start <= |c| + 1
    ensures start <= offset <= |c| + 1
    ensures Left(c, offset) == SkipSpaces(Left(c, start))
  {
    offset := start;
    while offset < |c| && IsSpace(c[offset])
      invariant start <= offset <= |c| + 1
      invariant SkipSpaces(Left(c, offset)) == SkipSpaces(Left(c, start))
    {
      LeftStep(c, offset);
      offset := offset + 1;
    }
    if offset < |c| { LeftStep(c, offset); }
  }

  lemma RawTargetStep(c: string, offset: nat, name: string)
    ensures offset >= |c| ==> RawTarget(Left(c, offset), name) == None
    ensures offset < |c| && c[offset] == '\n' ==> RawTarget(Left(c, offset), name) == None
    ensures offset < |c| && c[offset] == ':' ==> RawTarget(Left(c, offset), name) == Some((name, Left(c, offset + 1)))
    ensures offset < |c| && c[offset] == '\\' ==>
      RawTarget(Left(c, offset), name)
      == RawTarget(Left(c, offset + 2), if offset + 1 < |c| && c[offset + 1] != '\n' then name + [c[offset + 1]] else name)
    ensures offset < |c| && c[offset] == ' ' ==>
      RawTarget(Left(c, offset), name)
      == RawTarget(Left(c, offset + 1), if name == [] || name[|name| - 1] != ' ' then name + [' '] else name)
    ensures offset < |c| && c[offset] !in ['\n', ':', '\\', ' '] ==>
      RawTarget(Left(c, offset), name) == RawTarget(Left(c, offset + 1), name + [c[offset]])
  {
    if offset < |c| { LeftStep(c, offset); }
  }

  /** None where the original throws. */
  method ParseTargetName(c: string, start: nat) returns (r: Option<(string, nat)>)
    requires start <= |c| + 1
    ensures var raw := RawTarget(Left(c, start), []);
      && (r.None? <==> raw.None?)
      && (r.Some? ==> start < r.value.1 <= |c| && r.value.0 == Escape(raw.value.0) && Left(c, r.value.1) == raw.value.1)
  {
    hide RawTarget, Escape, Left;
    var offset := start;
    var name := [];
    while offset < |c|
      invariant start <= offset <= |c| + 1
      invariant RawTarget(Left(c, offset), name) == RawTarget(Left(c, start), [])
      decreases |c| + 1 - offset
    {
      RawTargetStep(c, offset, name);
      if c[offset] == ':' {
        var escaped := EscapeGnuMakeSpaces(name);
        return Some((escaped, offset + 1));
      } else if c[offset] == '\n' {
        return None;
      } else if c[offset] == '\\' {
        if offset + 1 < |c| && c[offset + 1] != '\n' { name := name + [c[offset + 1]]; }
        offset := offset + 2;
      } else if c[offset] == ' ' {
        if name == [] || name[|name| - 1] != ' ' { name := name + [' ']; }
        offset := offset + 1;
      } else {
        name := name + [c[offset]];
        offset := offset + 1;
      }
    }
    RawTargetStep(c, offset, name);
    return None;
  }

  method SkipItemGap(c: string, start: nat) returns (offset: nat)
    requires start <= |c| + 1
    ensures start <= offset <= |c| + 1 && Left(c, offset) == SkipGap(Left(c, start))
  {
    offset := start;
    while offset < |c| && (c[offset] == ' ' || c[offset] == '\\')
      invariant start <= offset <= |c| + 1
      invariant SkipGap(Left(c, offset)) == SkipGap(Left(c, start))
      decreases |c| + 1 - offset
    {
      LeftStep(c, offset);
      offset := if c[offset] == ' ' then offset + 1 else offset + 2;
    }
    if offset < |c| { LeftStep(c, offset); }
  }

  lemma ItemTailStep(c: string, offset: nat, name: string)
    ensures offset >= |c| ==> ItemTail(Left(c, offset), name) == (name, Left(c, offset))
    ensures offset < |c| && (c[offset] == ' ' || c[offset] == '\n') ==>
      ItemTail(Left(c, offset), name) == (name, Left(c, offset))
    ensures offset < |c| && c[offset] == '\\' ==>
      ItemTail(Left(c, offset), name)
      == ItemTail(Left(c, offset + 2), if offset + 1 < |c| then name + [c[offset + 1]] else name)
    ensures offset < |c| && c[offset] != ' ' && c[offset] != '\n' && c[offset] != '\\' ==>
      ItemTail(Left(c, offset), name) == ItemTail(Left(c, offset + 1), name + [c[offset]])
  {
    if offset < |c| { LeftStep(c, offset); }
  }

  /** The second loop of the item parser: the item's text up to a blank or a line end. */
  method CollectItem(c: string, start: nat) returns (name: string, offset: nat)
    requires start <= |c| + 1
    ensures start <= offset <= |c| + 1
    ensures (name, Left(c, offset)) == ItemTail(Left(c, start), [])
    ensures name != [] ==> start < offset
  {
    hide ItemTail, Left;
    name, offset := [], start;
    while offset < |c|
      invariant start <= offset <= |c| + 1
      invariant ItemTail(Left(c, offset), name) == ItemTail(Left(c, start), [])
      invariant offset == start ==> name == []
      decreases |c| + 1 - offset
    {
      ItemTailStep(c, offset, name);
      if c[offset] == ' ' || c[offset] == '\n' {
        break;
      } else if c[offset] == '\\' {
        if offset + 1 < |c| { name := name + [c[offset + 1]]; }
        offset := offset + 2;
      } else {
        name := name + [c[offset]];
        offset := offset + 1;
      }
    }
    ItemTailStep(c, offset, name);
  }

  /** The cursor never passes the end by more than one, and moves whenever an item is returned. */
  method ParseNextDepItem(c: string, start: nat) returns (name: string, offset: nat)
    requires start <= |c| + 1
    ensures start <= offset <= |c| + 1
    ensures (name, Left(c, offset)) == NextItem(Left(c, start))
    ensures name != [] ==> start < offset
  {
    hide ItemTail, SkipGap;
    offset := SkipItemGap(c, start);
    name := [];
    if offset >= |c| { return; }
    LeftStep(c, offset);
    if c[offset] == '\n' { return [], offset + 1; }
    name, offset := CollectItem(c, offset);
  }

  lemma ItemsStep(s: string, item: string, rest: string, before: seq<string>)
    requires NextItem(s) == (item, rest)
    ensures item == [] ==> Items(s) == ([], rest)
    ensures item != [] ==> before + Items(s).0 == before + [item] + Items(rest).0 && Items(s).1 == Items(rest).1
  {
  }

  method ParseItems(c: string, start: nat) returns (items: seq<string>, offset: nat)
    requires start <= |c| + 1
    ensures start <= offset <= |c| + 1
    ensures items == Items(Left(c, start)).0 && Left(c, offset) == Items(Left(c, start)).1
  {
    items, offset := [], start;
    while true
      invariant start <= offset <= |c| + 1
      invariant Items(Left(c, start)).0 == items + Items(Left(c, offset)).0
      invariant Items(Left(c, start)).1 == Items(Left(c, offset)).1
      decreases |c| + 1 - offset
    {
      var item, next := ParseNextDepItem(c, offset);
      ItemsStep(Left(c, offset), item, Left(c, next), items);
      offset := next;
      if item == [] { break; }
      items := items + [item];
    }
  }

  class DepFileContents {
    var depTargets: seq<DepTarget>

    constructor ()
      ensures depTargets == []
    {
      depTargets := [];
    }

    /** Total on every text; `ok` is false where the original throws, and targets read before stay. */
    method ParseDepFileContents(c: string) returns (ok: bool)
      modifies this
      ensures depTargets == old(depTargets) + Parse(c).targets && ok == Parse(c).ok
    {
      var offset := 0;
      assert Left(c, 0) == c;
      while true
        invariant offset <= |c| + 1
        invariant old(depTargets) + Parse(c).targets == depTargets + Parse(Left(c, offset)).targets
        invariant Parse(c).ok == Parse(Left(c, offset)).ok
        decreases |c| + 1 - offset
      {
        ghost var here := Left(c, offset);
        offset := ParseSkipSpaces(c, offset);
        if offset >= |c| { return true; }
        var target := ParseTargetName(c, offset);
        if target.None? { return false; }
        var items;
        items, offset := ParseItems(c, target.value.1);
        ghost var t := DepTarget(target.value.0, items);
        assert Parse(here).targets == [t] + Parse(Left(c, offset)).targets;
        assert depTargets + ([t] + Parse(Left(c, offset)).targets) == depTargets + [t] + Parse(Left(c, offset)).targets;
        depTargets := depTargets + [DepTarget(target.value.0, items)];
      }
    }

    method WriteToBytes() returns (out: string)
      ensures out == Written(depTargets)
    {
      out := [];
      assert depTargets[0..] == depTargets;
      for i := 0 to |depTargets|
        invariant Written(depTargets) == out + Written(depTargets[i..])
      {
        var t := depTargets[i];
        var line := WriteLine(t);
        out := out + line;
        assert depTargets[i..][1..] == depTargets[i + 1..];
        if i + 1 < |depTargets| { out := out + NL; }
      }
    }
  }

  lemma LaterDepsStep(deps: seq<string>, j: nat, start: string, out: string)
    requires j < |deps| && start == out + LaterDeps(deps[j..])
    ensures start == out + CONTINUATION + Escape(deps[j]) + LaterDeps(deps[j + 1..])
  {
    assert deps[j..][1..] == deps[j + 1..];
  }

  lemma LaterDepsNone(deps: seq<string>, out: string)
    ensures out + LaterDeps(deps[|deps|..]) == out
  {
  }

  method WriteLine(t: DepTarget) returns (out: string)
    ensures out == Line(t)
  {
    hide LaterDeps, Escape;
    out := t.target + [':'];
    if t.deps != [] {
      var first := EscapeGnuMakeSpaces(t.deps[0]);
      out := out + [' '] + first;
      ghost var start := t.target + [':'] + DepList(t.deps);
      for j := 1 to |t.deps|
        invariant start == out + LaterDeps(t.deps[j..])
      {
        var item := EscapeGnuMakeSpaces(t.deps[j]);
        LaterDepsStep(t.deps, j, start, out);
        out := out + CONTINUATION + item;
      }
      LaterDepsNone(t.deps, out);
    }
    out := out + NL;
  }
}
