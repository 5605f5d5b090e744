/**
 Quoting of file names for a makefile: a blank gets one backslash of its own and doubles the run of
 backslashes before it, `$` is doubled, `#` gets a backslash.
 */
module MakeTarget {
  import opened Bytes

  predicate IsBlank(c: char) { c == ' ' || c == '\t' }

  /** How many backslashes end `s`. */
  function TrailingRun(s: string): (n: nat)
    ensures n <= |s|
  {
    if s == [] || s[|s| - 1] != '\\' then 0 else 1 + TrailingRun(s[..|s| - 1])
  }

  function Backslashes(n: nat): (s: string)
    ensures |s| == n
  {
    if n == 0 then [] else Backslashes(n - 1) + ['\\']
  }

  /** What is written for `c` after a run of `k` backslashes. */
  function Quoted(c: char, k: nat): string
  {
    if IsBlank(c) then Backslashes(k + 1) + [c]
    else if c == '$' then ['$', '$']
    else if c == '#' then ['\\', '#']
    else [c]
  }

  function Processed(t: string): string
  {
    if t == [] then []
    else Processed(t[..|t| - 1]) + Quoted(t[|t| - 1], TrailingRun(t[..|t| - 1]))
  }

  function Append(name: Option<string>, c: char): Option<string>
  {
    if name.None? then None else Some(name.value + [c])
  }

  /**
   How make reads a quoted name, from the right: a blank is part of it only after an odd run of backslashes, half of
   which go; `$` only after a `$`, `#` only after a backslash, which go as well. None where a name would end.
   */
  function MakeReads(s: string): Option<string>
    decreases |s|
  {
    if s == [] then Some([]) else
    var front, c := s[..|s| - 1], s[|s| - 1];
    if IsBlank(c) then
      if TrailingRun(front) % 2 == 0 then None
      else Append(MakeReads(front[..|front| - (TrailingRun(front) + 1) / 2]), c)
    else if c == '$' || c == '#' then
      if front == [] || front[|front| - 1] != (if c == '$' then '$' else '\\') then None
      else Append(MakeReads(front[..|front| - 1]), c)
    else Append(MakeReads(front), c)
  }

  lemma {:induction false} RunOfBackslashes(s: string, n: nat)
    ensures TrailingRun(s + Backslashes(n)) == TrailingRun(s) + n
  {
    if n == 0 {
      assert s + [] == s;
    } else {
      var t := s + Backslashes(n);
      assert t == s + Backslashes(n - 1) + ['\\'];
      assert t[..|t| - 1] == s + Backslashes(n - 1);
      RunOfBackslashes(s, n - 1);
    }
  }

  lemma {:induction false} RunOfQuoted(q: string, c: char, k: nat)
    ensures TrailingRun(q + Quoted(c, k)) == if c == '\\' then TrailingRun(q) + 1 else 0
  {
    var s := q + Quoted(c, k);
    assert s[|s| - 1] == c;
    if c == '\\' { assert s[..|s| - 1] == q; }
  }

  /** Quoting leaves the trailing run of backslashes as it was. */
  lemma {:induction false} RunKept(t: string)
    ensures TrailingRun(Processed(t)) == TrailingRun(t)
  {
    if t != [] {
      var front, c := t[..|t| - 1], t[|t| - 1];
      RunKept(front);
      RunOfQuoted(Processed(front), c, TrailingRun(front));
    }
  }

  lemma {:induction false} QuotedLast(front: string, c: char)
    ensures Processed(front + [c]) == Processed(front) + Quoted(c, TrailingRun(front))
  {
    assert (front + [c])[..|front|] == front;
  }

  /** A blank after `k` backslashes is written after what went before and 2k+1 backslashes in all. */
  lemma {:induction false} BlankRun(front: string, c: char)
    requires IsBlank(c)
    ensures var before := Processed(front) + Backslashes(TrailingRun(front) + 1);
      Processed(front + [c]) == before + [c] && TrailingRun(before) == 2 * TrailingRun(front) + 1
  {
    QuotedLast(front, c);
    hide Processed, TrailingRun;
    var k := TrailingRun(front);
    Associate(Processed(front), Backslashes(k + 1), [c]);
    RunOfBackslashes(Processed(front), k + 1);
    RunKept(front);
  }

  lemma {:induction false} ReadsBlankAfter(front: string, c: char, n: nat)
    requires IsBlank(c) && TrailingRun(front) == 2 * n - 1
    ensures MakeReads(front + [c]) == Append(MakeReads(front[..|front| - n]), c)
  {
    hide TrailingRun;
    assert (front + [c])[..|front|] == front;
  }

  lemma {:induction false} ReadsBlank(q: string, c: char)
    requires IsBlank(c)
    ensures MakeReads(q + Backslashes(TrailingRun(q) + 1) + [c]) == Append(MakeReads(q), c)
  {
    hide TrailingRun, Backslashes, MakeReads;
    var k := TrailingRun(q);
    var front := q + Backslashes(k + 1);
    RunOfBackslashes(q, k + 1);
    ReadsBlankAfter(front, c, k + 1);
    assert front[..|front| - (k + 1)] == q;
  }

  lemma {:induction false} ReadsPair(q: string, x: char, c: char)
    requires (x == '$' && c == '$') || (x == '\\' && c == '#')
    ensures MakeReads(q + [x, c]) == Append(MakeReads(q), c)
  {
    var s := q + [x, c];
    var front := s[..|s| - 1];
    assert front == q + [x];
    assert front[..|front| - 1] == q;
  }

  lemma {:induction false} ReadsPlain(q: string, c: char)
    requires !IsBlank(c) && c != '$' && c != '#'
    ensures MakeReads(q + [c]) == Append(MakeReads(q), c)
  {
    var s := q + [c];
    assert s[..|s| - 1] == q;
  }

  lemma {:induction false} ReadsQuoted(q: string, c: char)
    ensures MakeReads(q + Quoted(c, TrailingRun(q))) == Append(MakeReads(q), c)
  {
    hide MakeReads, TrailingRun, Backslashes;
    if IsBlank(c) {
      ReadsBlank(q, c);
      Associate(q, Backslashes(TrailingRun(q) + 1), [c]);
    } else if c == '$' {
      ReadsPair(q, '$', '$');
    } else if c == '#' {
      ReadsPair(q, '\\', '#');
    } else {
      ReadsPlain(q, c);
    }
  }

  /** Lossless: make reads back every name. */
  lemma {:induction false} MakeReadsProcessed(t: string)
    ensures MakeReads(Processed(t)) == Some(t)
  {
    if t != [] {
      hide Processed, MakeReads, TrailingRun, Quoted;
      var front, c := t[..|t| - 1], t[|t| - 1];
      assert t == front + [c];
      QuotedLast(front, c);
      MakeReadsProcessed(front);
      RunKept(front);
      ReadsQuoted(Processed(front), c);
    }
  }

  lemma {:induction false} ProcessedPrefix(t: string, n: nat)
    requires n <= |t|
    ensures Processed(t[..n]) <= Processed(t)
    decreases |t|
  {
    if n == |t| {
      assert t[..n] == t;
    } else {
      ProcessedPrefix(t[..|t| - 1], n);
      assert t[..|t| - 1][..n] == t[..n];
    }
  }

  /** A blank occurs in a quoted character only as its last one. */
  lemma {:induction false} BlankIsLast(c: char, k: nat, j: nat)
    requires j < |Quoted(c, k)| && IsBlank(Quoted(c, k)[j])
    ensures IsBlank(c) && j == |Quoted(c, k)| - 1
  {
    AllBackslashes(k + 1);
  }

  lemma TakeOfAppend(a: string, b: string, i: nat)
    requires i <= |a|
    ensures (a + b)[..i] == a[..i] && a[..|a|] == a
  {
  }

  lemma Odd(k: nat)
    ensures (2 * k + 1) % 2 == 1
  {
  }

  /** A blank in what is written for the last character is the one `BlankRun` speaks of. */
  lemma {:induction false} LastBlank(front: string, c: char, i: nat)
    requires |Processed(front)| <= i < |Processed(front + [c])| && IsBlank(Processed(front + [c])[i])
    ensures IsBlank(c) && TrailingRun(Processed(front + [c])[..i]) % 2 == 1
  {
    var q, last := Processed(front), Quoted(c, TrailingRun(front));
    QuotedLast(front, c);
    hide Processed, TrailingRun;
    assert last[i - |q|] == (q + last)[i];
    BlankIsLast(c, TrailingRun(front), i - |q|);
    BlankRun(front, c);
    TakeOfAppend(q + Backslashes(TrailingRun(front) + 1), [c], i);
    Odd(TrailingRun(front));
  }

  /** Every blank of the output is preceded by an odd run of backslashes. */
  lemma {:induction false} BlanksAreEscaped(t: string, i: nat)
    requires i < |Processed(t)| && IsBlank(Processed(t)[i])
    ensures TrailingRun(Processed(t)[..i]) % 2 == 1
    decreases |t|
  {
    assert t != [];
    hide Processed, TrailingRun, Backslashes, Quoted;
    var front, c := t[..|t| - 1], t[|t| - 1];
    assert t == front + [c];
    QuotedLast(front, c);
    if i < |Processed(front)| {
      TakeOfAppend(Processed(front), Quoted(c, TrailingRun(front)), i);
      BlanksAreEscaped(front, i);
    } else {
      LastBlank(front, c, i);
    }
  }

  /** How many `$` end `s`. */
  function TrailingDollars(s: string): nat
  {
    if s == [] || s[|s| - 1] != '$' then 0 else 1 + TrailingDollars(s[..|s| - 1])
  }

  lemma {:induction false} DollarsOfQuoted(q: string, c: char, k: nat)
    requires TrailingDollars(q) % 2 == 0
    ensures TrailingDollars(q + Quoted(c, k)) % 2 == 0
  {
    var s := q + Quoted(c, k);
    assert s[|s| - 1] == c;
    if c == '$' {
      assert s[..|s| - 1] == q + ['$'] && (q + ['$'])[..|q|] == q;
      assert TrailingDollars(s) == 2 + TrailingDollars(q);
    }
  }

  /** Inside what is written for one character a `$` is always followed by a `$`. */
  lemma {:induction false} NoDollarInside(q: string, c: char, k: nat, i: nat)
    requires |q| < i < |q + Quoted(c, k)| && (q + Quoted(c, k))[i] != '$'
    ensures TrailingDollars((q + Quoted(c, k))[..i]) == 0
  {
    AllBackslashes(k + 1);
    var s := q + Quoted(c, k);
    assert s[..i][|s[..i]| - 1] == Quoted(c, k)[i - 1 - |q|];
  }

  /** Every run of `$` in the output is of even length: each belongs to a pair. */
  lemma {:induction false} DollarsArePaired(t: string, i: nat)
    requires i <= |Processed(t)| && (i == |Processed(t)| || Processed(t)[i] != '$')
    ensures TrailingDollars(Processed(t)[..i]) % 2 == 0
    decreases |t|
  {
    if t != [] {
      hide Processed, TrailingRun, TrailingDollars, Quoted;
      var front, c := t[..|t| - 1], t[|t| - 1];
      assert t == front + [c];
      QuotedLast(front, c);
      var q, k := Processed(front), TrailingRun(front);
      assert q[..|q|] == q;
      if i <= |q| {
        TakeOfAppend(q, Quoted(c, k), i);
        DollarsArePaired(front, i);
      } else if i < |Processed(t)| {
        NoDollarInside(q, c, k, i);
      } else {
        DollarsArePaired(front, |q|);
        DollarsOfQuoted(q, c, k);
        assert Processed(t)[..i] == q + Quoted(c, k);
      }
    } else {
      assert Processed(t)[..i] == [];
    }
  }

  lemma {:induction false} HashInQuoted(c: char, k: nat, j: nat)
    requires j < |Quoted(c, k)| && Quoted(c, k)[j] == '#'
    ensures j > 0 && Quoted(c, k)[j - 1] == '\\'
  {
    AllBackslashes(k + 1);
  }

  lemma PartsAt(a: string, b: string, i: nat)
    requires i < |a + b|
    ensures (a + b)[i] == if i < |a| then a[i] else b[i - |a|]
  {
  }

  /** Every `#` in the output directly follows a backslash. */
  lemma {:induction false} HashesAreEscaped(t: string, i: nat)
    requires i < |Processed(t)| && Processed(t)[i] == '#'
    ensures i > 0 && Processed(t)[i - 1] == '\\'
    decreases |t|
  {
    assert t != [];
    hide Processed, TrailingRun, Quoted;
    var front, c := t[..|t| - 1], t[|t| - 1];
    assert t == front + [c];
    QuotedLast(front, c);
    var q, last := Processed(front), Quoted(c, TrailingRun(front));
    PartsAt(q, last, i);
    if i < |q| {
      HashesAreEscaped(front, i);
    } else {
      HashInQuoted(c, TrailingRun(front), i - |q|);
    }
    PartsAt(q, last, i - 1);
  }

  lemma {:induction false} AllBackslashes(n: nat)
    ensures forall i | 0 <= i < n :: Backslashes(n)[i] == '\\'
  {
    if n > 0 { AllBackslashes(n - 1); }
  }

  /** The look-back loop: appends one backslash for each that precedes position `i`. */
  method LookBack(target: string, i: nat, processed: string) returns (out: string)
    requires i <= |target|
    ensures out == processed + Backslashes(TrailingRun(target[..i]))
  {
    out := processed;
    var aux := i - 1;
    while aux >= 0 && target[aux] == '\\'
      invariant -1 <= aux < i
      invariant TrailingRun(target[..i]) == (i - 1 - aux) + TrailingRun(target[..aux + 1])
      invariant out == processed + Backslashes(i - 1 - aux)
    {
      assert target[..aux + 1][..aux] == target[..aux];
      assert processed + Backslashes(i - 1 - aux) + ['\\'] == processed + Backslashes(i - aux);
      out := out + ['\\'];
      aux := aux - 1;
    }
  }

  /** One turn of the outer loop's switch. */
  method AppendQuoted(target: string, i: nat, processed: string) returns (out: string)
    requires i < |target|
    ensures out == processed + Quoted(target[i], TrailingRun(target[..i]))
  {
    out := processed;
    var c := target[i];
    ghost var k := TrailingRun(target[..i]);
    if c == ' ' || c == '\t' {
      out := LookBack(target, i, out);
      out := out + ['\\'];
      assert out == processed + Backslashes(k + 1);
      assert out + [c] == processed + Quoted(c, k);
    } else if c == '$' {
      out := out + ['$'];
    } else if c == '#' {
      out := out + ['\\'];
    }
    out := out + [c];
  }

  /** The quoting function of the dependency-file writer. */
  method ProcessMakefileTarget(target: string) returns (processed: string)
    ensures processed == Processed(target)
    ensures MakeReads(processed) == Some(target)
  {
    processed := [];
    for i := 0 to |target|
      invariant processed == Processed(target[..i])
    {
      processed := AppendQuoted(target, i, processed);
      assert target[..i + 1][..i] == target[..i];
    }
    assert target[..|target|] == target;
    MakeReadsProcessed(target);
  }
}
