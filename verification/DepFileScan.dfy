/**
 Where the parser of dependency files stops, for any text: a character is escaped exactly if an odd run of backslashes
 stands before it, and a name ends at the first unescaped character that ends it.
 */
module DepFileScan {
  import opened Bytes
  import opened DepFile
  import MakeTarget

  /** An even number of backslashes stands directly before position `i`. */
  predicate Live(s: string, i: nat) { i <= |s| && MakeTarget.TrailingRun(s[..i]) % 2 == 0 }

  lemma {:induction false} RunCons(c: char, t: string)
    ensures var n := MakeTarget.TrailingRun(t);
      MakeTarget.TrailingRun([c] + t) == if n == |t| && c == '\\' then n + 1 else n
  {
    var s := [c] + t;
    if t == [] {
      assert s[..|s| - 1] == [] && MakeTarget.TrailingRun([]) == 0;
    } else {
      assert s[..|s| - 1] == [c] + t[..|t| - 1] && s[|s| - 1] == t[|t| - 1];
      RunCons(c, t[..|t| - 1]);
    }
  }

  lemma LiveStart(s: string)
    ensures Live(s, 0)
  {
  }

  /** Past a character that is no backslash. */
  lemma LiveSkip1(s: string, i: nat)
    requires s != [] && s[0] != '\\' && i <= |s| - 1
    ensures Live(s, i + 1) <==> Live(s[1..], i)
  {
    assert s[..i + 1] == [s[0]] + s[1..][..i];
    RunCons(s[0], s[1..][..i]);
  }

  /** Past a backslash and the character it escapes. */
  lemma LiveSkip2(s: string, i: nat)
    requires |s| >= 2 && s[0] == '\\' && i <= |s| - 2
    ensures Live(s, i + 2) <==> Live(s[2..], i)
  {
    var t := s[2..][..i];
    assert s[..i + 2] == ['\\'] + ([s[1]] + t);
    RunCons(s[1], t);
    RunCons('\\', [s[1]] + t);
  }

  lemma NotLiveAfterBackslash(s: string)
    requires s != [] && s[0] == '\\'
    ensures !Live(s, 1)
  {
    assert s[..1] == ['\\'] + [];
    RunCons('\\', []);
  }

  /** The first unescaped character with the property is at `i`, which is the end of the text if there is none. */
  ghost predicate Stops(s: string, i: nat, f: char -> bool)
  {
    && i <= |s| && (i < |s| ==> Live(s, i) && f(s[i]))
    && forall j | 0 <= j < i && Live(s, j) :: !f(s[j])
  }

  lemma StopSkip1(s: string, i: nat, f: char -> bool)
    requires s != [] && s[0] != '\\' && !f(s[0])
    ensures !Stops(s, 0, f) && (Stops(s, i + 1, f) <==> Stops(s[1..], i, f))
  {
    hide Live;
    var t := s[1..];
    forall j: nat | j < |t| ensures (Live(s, j + 1) <==> Live(t, j)) && s[j + 1] == t[j] { LiveSkip1(s, j); }
    if Stops(t, i, f) {
      forall j | 0 <= j < i + 1 && Live(s, j) ensures !f(s[j]) {
        if j > 0 { assert Live(t, j - 1) && s[j] == t[j - 1]; }
      }
      if i < |t| { assert s[i + 1] == t[i]; }
    }
    if Stops(s, i + 1, f) {
      forall j | 0 <= j < i && Live(t, j) ensures !f(t[j]) { assert Live(s, j + 1) && s[j + 1] == t[j]; }
      if i < |t| { assert s[i + 1] == t[i]; }
    }
  }

  lemma StopSkip2(s: string, i: nat, f: char -> bool)
    requires |s| >= 2 && s[0] == '\\' && !f('\\')
    ensures !Stops(s, 0, f) && !Stops(s, 1, f) && (Stops(s, i + 2, f) <==> Stops(s[2..], i, f))
  {
    NotLiveAfterBackslash(s);
    hide Live;
    var t := s[2..];
    forall j: nat | j < |t| ensures (Live(s, j + 2) <==> Live(t, j)) && s[j + 2] == t[j] { LiveSkip2(s, j); }
    if Stops(t, i, f) {
      forall j | 0 <= j < i + 2 && Live(s, j) ensures !f(s[j]) {
        if j > 1 { assert Live(t, j - 2) && s[j] == t[j - 2]; }
      }
      if i < |t| { assert s[i + 2] == t[i]; }
    }
    if Stops(s, i + 2, f) {
      forall j | 0 <= j < i && Live(t, j) ensures !f(t[j]) { assert Live(s, j + 2) && s[j + 2] == t[j]; }
      if i < |t| { assert s[i + 2] == t[i]; }
    }
  }

  lemma StopHere(s: string, i: nat, f: char -> bool)
    requires s != [] && f(s[0])
    ensures Stops(s, i, f) <==> i == 0
  {
    LiveStart(s);
    hide Live;
  }

  lemma LoneStop(s: string, i: nat, f: char -> bool)
    requires s == ['\\'] && !f('\\')
    ensures Stops(s, i, f) <==> i == 1
  {
    LiveStart(s);
    hide Live;
  }

  // ---- Targets --------------------------------------------------------------------------------------------------------

  predicate EndsTarget(c: char) { c == ':' || c == '\n' }

  /** The first unescaped colon or newline is a colon, at `i`. */
  ghost predicate ColonAt(s: string, i: nat) { Stops(s, i, EndsTarget) && i < |s| && s[i] == ':' }

  /** What the parser has collected after one character, or one escaped pair. */
  function Collected(s: string, name: string): string
    requires s != []
  {
    if s[0] == '\\' then (if |s| >= 2 && s[1] != '\n' then name + [s[1]] else name)
    else if s[0] == ' ' && name != [] && name[|name| - 1] == ' ' then name
    else name + [s[0]]
  }

  lemma TargetStep(s: string, name: string)
    requires s != []
    ensures s[0] == ':' ==> RawTarget(s, name) == Some((name, s[1..]))
    ensures s[0] == '\n' ==> RawTarget(s, name) == None
    ensures s[0] == '\\' ==> RawTarget(s, name) == RawTarget(Skip2(s), Collected(s, name))
    ensures !EndsTarget(s[0]) && s[0] != '\\' ==> RawTarget(s, name) == RawTarget(s[1..], Collected(s, name))
  {
  }

  lemma DropDrop(s: string, k: nat, i: nat)
    requires k <= i <= |s|
    ensures s[k..][i - k..] == s[i..]
  {
  }

  /** If the colon is at `i`, the name ends there, whatever was collected before. */
  lemma {:induction false} TargetEndsAt(s: string, name: string, i: nat)
    requires ColonAt(s, i)
    ensures RawTarget(s, name).Some? && RawTarget(s, name).value.1 == s[i + 1..]
    decreases |s|
  {
    hide Stops, RawTarget, Collected;
    TargetStep(s, name);
    if EndsTarget(s[0]) {
      StopHere(s, i, EndsTarget);
    } else if s == ['\\'] {
      LoneStop(s, i, EndsTarget);
    } else if s[0] == '\\' {
      StopSkip2(s, if i >= 2 then i - 2 else 0, EndsTarget);
      TargetEndsAt(s[2..], Collected(s, name), i - 2);
      DropDrop(s, 2, i + 1);
    } else {
      StopSkip1(s, if i >= 1 then i - 1 else 0, EndsTarget);
      TargetEndsAt(s[1..], Collected(s, name), i - 1);
      DropDrop(s, 1, i + 1);
    }
  }

  lemma {:induction false} TargetHasColon(s: string, name: string) returns (i: nat)
    requires s != [] && RawTarget(s, name).Some?
    ensures ColonAt(s, i)
    decreases |s|
  {
    hide Stops, RawTarget, Collected;
    TargetStep(s, name);
    if s[0] == ':' {
      StopHere(s, 0, EndsTarget);
      i := 0;
    } else if s[0] == '\\' {
      NothingLeft(Collected(s, name));
      i := TargetHasColon(Skip2(s), Collected(s, name));
      StopSkip2(s, i, EndsTarget);
      i := i + 2;
    } else {
      NothingLeft(Collected(s, name));
      i := TargetHasColon(s[1..], Collected(s, name));
      StopSkip1(s, i, EndsTarget);
      i := i + 1;
    }
  }

  lemma NothingLeft(name: string)
    ensures RawTarget([], name) == None
  {
  }

  /**
   For any text: a target is read exactly if an unescaped colon comes before every unescaped newline, and the rest of
   the text is what follows that colon. Otherwise the parser throws.
   */
  lemma {:induction false} TargetEndsExactly(s: string)
    ensures RawTarget(s, []).Some? <==> exists i: nat :: ColonAt(s, i)
    ensures forall i: nat | ColonAt(s, i) :: RawTarget(s, []).Some? && RawTarget(s, []).value.1 == s[i + 1..]
  {
    hide Stops, RawTarget;
    NothingLeft([]);
    if RawTarget(s, []).Some? { var i := TargetHasColon(s, []); }
    forall i: nat | ColonAt(s, i) ensures RawTarget(s, []).Some? && RawTarget(s, []).value.1 == s[i + 1..] {
      TargetEndsAt(s, [], i);
    }
  }

  /** Unescaped blanks in a row count as one. */
  lemma BlanksCollapse(s: string, name: string)
    ensures RawTarget([' ', ' '] + s, name) == RawTarget([' '] + s, name)
  {
    var one, two := [' '] + s, [' ', ' '] + s;
    assert two[1..] == one && one[1..] == s;
  }

  // ---- Items ----------------------------------------------------------------------------------------------------------

  predicate EndsItem(c: char) { c == ' ' || c == '\n' }

  predicate EndsGap(c: char) { c != ' ' && c != '\\' }

  /** The text without the backslashes that escape. */
  function Unescaped(s: string): string
    decreases |s|
  {
    if s == [] then []
    else if s[0] != '\\' then [s[0]] + Unescaped(s[1..])
    else if |s| == 1 then []
    else [s[1]] + Unescaped(s[2..])
  }

  /** For any text: blanks and escaped characters are skipped up to the first other character. */
  lemma {:induction false} GapEndsExactly(s: string, i: nat)
    requires Stops(s, i, EndsGap)
    ensures SkipGap(s) == s[i..]
    decreases |s|
  {
    if s == [] {
    } else {
      hide Stops;
      if EndsGap(s[0]) {
        StopHere(s, i, EndsGap);
        assert s[0..] == s;
      } else if s == ['\\'] {
        LoneStop(s, i, EndsGap);
      } else if s[0] == '\\' {
        StopSkip2(s, if i >= 2 then i - 2 else 0, EndsGap);
        GapEndsExactly(s[2..], i - 2);
        assert s[2..][i - 2..] == s[i..];
      } else {
        StopSkip1(s, if i >= 1 then i - 1 else 0, EndsGap);
        GapEndsExactly(s[1..], i - 1);
        assert s[1..][i - 1..] == s[i..];
      }
    }
  }

  /** For any text: an item is what stands before the first unescaped blank or newline, unescaped. */
  lemma {:induction false} ItemEndsExactly(s: string, name: string, i: nat)
    requires Stops(s, i, EndsItem)
    ensures ItemTail(s, name) == (name + Unescaped(s[..i]), s[i..])
    decreases |s|
  {
    if s == [] {
      assert name + [] == name;
    } else {
      hide Stops;
      if EndsItem(s[0]) {
        StopHere(s, i, EndsItem);
        assert name + [] == name && s[0..] == s && s[..0] == [];
      } else if s == ['\\'] {
        LoneStop(s, i, EndsItem);
        assert name + [] == name && s[..1] == s && s[1..] == [];
      } else if s[0] == '\\' {
        StopSkip2(s, if i >= 2 then i - 2 else 0, EndsItem);
        ItemEndsExactly(s[2..], name + [s[1]], i - 2);
        assert s[..i][2..] == s[2..][..i - 2] && s[2..][i - 2..] == s[i..];
        Associate(name, [s[1]], Unescaped(s[2..][..i - 2]));
      } else {
        StopSkip1(s, if i >= 1 then i - 1 else 0, EndsItem);
        ItemEndsExactly(s[1..], name + [s[0]], i - 1);
        assert s[..i][1..] == s[1..][..i - 1] && s[1..][i - 1..] == s[i..];
        Associate(name, [s[0]], Unescaped(s[1..][..i - 1]));
      }
    }
  }
}
