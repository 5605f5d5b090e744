/** Escaping of names in dependency files: three `replace_all` passes that amount to one map over characters. */
module Escaping {
  predicate IsSpecial(c: char) { c == '\n' || c == ' ' || c == ':' }

  function EscapeChar(c: char): string { if IsSpecial(c) then ['\\', c] else [c] }

  /** One backslash before every newline, space and colon. */
  function Escape(s: string): string
  {
    if s == [] then [] else EscapeChar(s[0]) + Escape(s[1..])
  }

  /** `replace_all`: leftmost, not overlapping, replacements not scanned again. */
  function Replaced(s: string, from: string, to: string): string
    requires from != []
    decreases |s|
  {
    if |s| < |from| then s
    else if s[..|from|] == from then to + Replaced(s[|from|..], from, to)
    else [s[0]] + Replaced(s[1..], from, to)
  }

  lemma {:induction false} ReplacedSplit(a: string, b: string, x: char, to: string)
    ensures Replaced(a + b, [x], to) == Replaced(a, [x], to) + Replaced(b, [x], to)
  {
    if a == [] {
      assert a + b == b;
    } else {
      ReplacedSplit(a[1..], b, x, to);
      ReplacedStep(a, x, to);
      ReplacedStep(a + b, x, to);
      assert (a + b)[1..] == a[1..] + b;
      var head := if a[0] == x then to else [a[0]];
      Regroup(head, Replaced(a[1..], [x], to) + Replaced(b, [x], to), |Replaced(a[1..], [x], to)|);
    }
  }

  lemma ReplacedStep(s: string, x: char, to: string)
    requires s != []
    ensures Replaced(s, [x], to) == (if s[0] == x then to else [s[0]]) + Replaced(s[1..], [x], to)
  {
    assert s[..1] == [s[0]];
  }

  lemma Regroup(name: string, v: string, n: nat)
    requires n <= |v|
    ensures name + v[..n] + v[n..] == name + v
  {
  }

  lemma ReplacedOne(c: char, x: char, to: string)
    ensures Replaced([c], [x], to) == if c == x then to else [c]
  {
    assert [c][..1] == [c] && [c][1..] == [];
    assert Replaced([], [x], to) == [];
  }

  /** The three passes over the text, in the order they are made. */
  function ThreePasses(s: string): string
  {
    Replaced(Replaced(Replaced(s, ['\n'], ['\\', '\n']), [' '], ['\\', ' ']), [':'], ['\\', ':'])
  }

  lemma ThreePassesSplit(a: string, b: string)
    ensures ThreePasses(a + b) == ThreePasses(a) + ThreePasses(b)
  {
    ReplacedSplit(a, b, '\n', ['\\', '\n']);
    var a1, b1 := Replaced(a, ['\n'], ['\\', '\n']), Replaced(b, ['\n'], ['\\', '\n']);
    ReplacedSplit(a1, b1, ' ', ['\\', ' ']);
    ReplacedSplit(Replaced(a1, [' '], ['\\', ' ']), Replaced(b1, [' '], ['\\', ' ']), ':', ['\\', ':']);
  }

  lemma PassOver(y: char, x: char, to: string)
    requires x != '\\' && y != x
    ensures Replaced(['\\', y], [x], to) == ['\\', y]
  {
    assert ['\\', y] == ['\\'] + [y];
    ReplacedSplit(['\\'], [y], x, to);
    ReplacedOne('\\', x, to);
    ReplacedOne(y, x, to);
  }

  lemma ThreePassesChar(c: char)
    ensures ThreePasses([c]) == EscapeChar(c)
  {
    ReplacedOne(c, '\n', ['\\', '\n']);
    ReplacedOne(c, ' ', ['\\', ' ']);
    ReplacedOne(c, ':', ['\\', ':']);
    if c == '\n' {
      PassOver('\n', ' ', ['\\', ' ']);
      PassOver('\n', ':', ['\\', ':']);
    } else if c == ' ' {
      PassOver(' ', ':', ['\\', ':']);
    }
  }

  /** The sequential passes do not disturb each other: together they are the per-character map. */
  lemma {:induction false} ThreePassesIsEscape(s: string)
    ensures ThreePasses(s) == Escape(s)
  {
    if s != [] {
      assert s == [s[0]] + s[1..];
      ThreePassesSplit([s[0]], s[1..]);
      ThreePassesChar(s[0]);
      ThreePassesIsEscape(s[1..]);
    }
  }

  lemma EscapeHead(a: string)
    requires a != []
    ensures Escape(a)[0] == if IsSpecial(a[0]) then '\\' else a[0]
    ensures IsSpecial(a[0]) ==> |Escape(a)| >= 2 && Escape(a)[1] == a[0]
    ensures !IsSpecial(a[0]) && |Escape(a)| >= 2 ==> !IsSpecial(Escape(a)[1])
    ensures Escape(a)[|EscapeChar(a[0])|..] == Escape(a[1..])
  {
    var rest := a[1..];
    assert Escape(a) == EscapeChar(a[0]) + Escape(rest);
    if rest != [] {
      assert Escape(rest) == EscapeChar(rest[0]) + Escape(rest[1..]);
    }
  }

  /** Each character is escaped by itself: exactly newline, space and colon get a backslash. */
  lemma {:induction false} EscapedOneByOne(a: string, c: char)
    ensures Escape(a + [c]) == Escape(a) + if c in "\n :" then ['\\', c] else [c]
  {
    if a == [] {
      assert a + [c] == [c] && [c][1..] == [] && Escape([]) == [];
    } else {
      EscapedOneByOne(a[1..], c);
      assert (a + [c])[1..] == a[1..] + [c];
    }
  }

  /** Escaping loses nothing. */
  lemma {:induction false} EscapeInjective(a: string, b: string)
    requires Escape(a) == Escape(b)
    ensures a == b
  {
    if a != [] && b != [] {
      EscapeHead(a);
      EscapeHead(b);
      assert a[0] == b[0];
      EscapeInjective(a[1..], b[1..]);
      assert a == [a[0]] + a[1..] && b == [b[0]] + b[1..];
    }
  }

  // ---- The methods ---------------------------------------------------------------------------------------

  predicate Matches(s: string, from: string, k: nat) { k + |from| <= |s| && s[k..k + |from|] == from }

  /** `std::string::find` from a position; the length of the text stands for `npos`. */
  method Find(str: string, from: string, pos: nat) returns (at: nat)
    requires from != [] && pos <= |str|
    ensures pos <= at <= |str|
    ensures at == |str| || Matches(str, from, at)
    ensures forall k | pos <= k < at :: !Matches(str, from, k)
  {
    at := pos;
    while at < |str| && !Matches(str, from, at)
      invariant pos <= at <= |str|
      invariant forall k | pos <= k < at :: !Matches(str, from, k)
    {
      at := at + 1;
    }
  }

  lemma ReplacedMiss(s: string, from: string, to: string)
    requires from != [] && s != [] && !Matches(s, from, 0)
    ensures Replaced(s, from, to) == [s[0]] + Replaced(s[1..], from, to)
  {
    if |s| < |from| {
      assert s == [s[0]] + s[1..];
    } else {
      assert s[0..0 + |from|] == s[..|from|];
    }
  }

  /** Text before the first match is kept. */
  lemma {:induction false} ReplacedSkips(s: string, n: nat, from: string, to: string)
    requires from != [] && n <= |s| && forall k | 0 <= k < n :: !Matches(s, from, k)
    ensures Replaced(s, from, to) == s[..n] + Replaced(s[n..], from, to)
  {
    hide Replaced, Matches;
    if n == 0 {
      assert s[..0] == [] && s[0..] == s;
    } else {
      var t := s[1..];
      forall k | 0 <= k < n - 1 ensures !Matches(t, from, k) {
        MatchesDrop(s, from, 1, k);
        assert !Matches(s, from, k + 1);
      }
      ReplacedMiss(s, from, to);
      ReplacedSkips(t, n - 1, from, to);
      HeadAndTail(s, n);
    }
  }

  lemma HeadAndTail(s: string, n: nat)
    requires 0 < n <= |s|
    ensures s[1..][n - 1..] == s[n..] && s[..n] == [s[0]] + s[1..][..n - 1]
  {
  }

  lemma ReplacedHit(s: string, from: string, to: string)
    requires from != [] && Matches(s, from, 0)
    ensures Replaced(s, from, to) == to + Replaced(s[|from|..], from, to)
  {
    assert s[0..0 + |from|] == s[..|from|];
  }

  lemma MatchesDrop(s: string, from: string, pos: nat, k: nat)
    requires pos <= |s|
    ensures Matches(s[pos..], from, k) <==> Matches(s, from, pos + k)
  {
    if pos + k + |from| <= |s| { assert s[pos..][k..k + |from|] == s[pos + k..pos + k + |from|]; }
  }

  /** What one turn of the loop does to what is still to come. */
  lemma ReplaceStep(str: string, pos: nat, at: nat, from: string, to: string)
    requires from != [] && pos <= at <= |str| && (at == |str| || Matches(str, from, at))
    requires forall k | pos <= k < at :: !Matches(str, from, k)
    ensures at == |str| ==> Replaced(str[pos..], from, to) == str[pos..]
    ensures at < |str| ==> Replaced(str[pos..], from, to) == str[pos..at] + (to + Replaced(str[at + |from|..], from, to))
  {
    var s := str[pos..];
    forall k | 0 <= k < at - pos ensures !Matches(s, from, k) {
      MatchesDrop(str, from, pos, k);
      assert !Matches(str, from, pos + k);
    }
    ReplacedSkips(s, at - pos, from, to);
    assert s[..at - pos] == str[pos..at] && s[at - pos..] == str[at..];
    if at < |str| {
      MatchesDrop(str, from, at, 0);
      ReplacedHit(str[at..], from, to);
      assert str[at..][|from|..] == str[at + |from|..];
    } else {
      assert str[at..] == [] && Replaced([], from, to) == [];
      assert s[..at - pos] + [] == s;
    }
  }

  /** Edits its copy of the text in place, as the original does. */
  method ReplaceAll(text: string, from: string, to: string) returns (str: string)
    requires from != []
    ensures str == Replaced(text, from, to)
  {
    str := text;
    var pos: nat := 0;
    ghost var done, todo := [], text;
    while true
      invariant pos <= |str| && done == str[..pos] && todo == str[pos..]
      invariant Replaced(text, from, to) == done + Replaced(todo, from, to)
      decreases |todo|
    {
      var at := Find(str, from, pos);
      ReplaceStep(str, pos, at, from, to);
      if at == |str| {
        assert done + todo == str;
        break;
      }
      ghost var kept, rest := str[pos..at], str[at + |from|..];
      assert done + (kept + (to + Replaced(rest, from, to))) == done + kept + to + Replaced(rest, from, to);
      assert done + kept == str[..at];
      done, todo := done + kept + to, rest;
      str := str[..at] + to + str[at + |from|..];
      pos := at + |to|;
    }
  }

  method EscapeGnuMakeSpaces(item: string) returns (escaped: string)
    ensures escaped == Escape(item)
  {
    escaped := ReplaceAll(item, ['\n'], ['\\', '\n']);
    escaped := ReplaceAll(escaped, [' '], ['\\', ' ']);
    escaped := ReplaceAll(escaped, [':'], ['\\', ':']);
    ThreePassesIsEscape(item);
  }
}
