/**
 LRU storage: a list of nodes, most recently used first, an index from key to node, and a byte budget.
 */
module Lru {
  import opened Bytes

  /** A list node; the index holds references to these. `size` is the stored value's own size. */
  class Node<T> {
    const key: string
    const value: T
    const size: nat

    constructor (key: string, value: T, size: nat)
      ensures this.key == key && this.value == value && this.size == size
    {
      this.key, this.value, this.size := key, value, size;
    }
  }

  datatype Entry<T> = Entry(key: string, value: T, size: nat)

  function Total<T>(es: seq<Entry<T>>): nat
  {
    if es == [] then 0 else es[0].size + Total(es[1..])
  }

  ghost predicate Distinct<T>(es: seq<Entry<T>>) {
    forall i, j | 0 <= i < j < |es| :: es[i].key != es[j].key
  }

  predicate Has<T>(es: seq<Entry<T>>, key: string)
  {
    es != [] && (es[0].key == key || Has(es[1..], key))
  }

  lemma {:induction false} HasAt<T>(es: seq<Entry<T>>, i: nat)
    requires i < |es|
    ensures Has(es, es[i].key)
  {
    if i > 0 { HasAt(es[1..], i - 1); }
  }

  function Position<T>(es: seq<Entry<T>>, key: string): (i: nat)
    requires Has(es, key)
    ensures i < |es| && es[i].key == key && forall j | 0 <= j < i :: es[j].key != key
  {
    if es[0].key == key then 0 else 1 + Position(es[1..], key)
  }

  function ToFront<T>(es: seq<Entry<T>>, i: nat): seq<Entry<T>>
    requires i < |es|
  { [es[i]] + es[..i] + es[i + 1..] }

  /** What a lookup does to the list. */
  function Touched<T>(es: seq<Entry<T>>, key: string): seq<Entry<T>>
  { if Has(es, key) then ToFront(es, Position(es, key)) else es }

  /** How many of the most recent entries fit into `budget` octets: evicting from the back until they do. */
  function Fitting<T>(es: seq<Entry<T>>, budget: nat): (n: nat)
    ensures n <= |es| && Total(es[..n]) <= budget
    decreases |es|
  {
    if Total(es) <= budget then
      assert es[..|es|] == es;
      |es|
    else
      var n := Fitting(es[..|es| - 1], budget);
      assert es[..|es| - 1][..n] == es[..n];
      n
  }

  /** Eviction keeps the longest most-recent prefix that fits. */
  lemma {:induction false} FittingIsLongest<T>(es: seq<Entry<T>>, budget: nat, m: nat)
    requires m <= |es| && Total(es[..m]) <= budget
    ensures m <= Fitting(es, budget)
    decreases |es|
  {
    assert es[..|es|] == es;
    if Total(es) > budget {
      assert es[..|es| - 1][..m] == es[..m];
      FittingIsLongest(es[..|es| - 1], budget, m);
    }
  }

  function Stored<T>(es: seq<Entry<T>>, capacity: nat, e: Entry<T>): seq<Entry<T>>
    requires e.size <= capacity
  {
    if Has(es, e.key) then es else [e] + es[..Fitting(es, capacity - e.size)]
  }

  /** `after` is the new entry followed by as many of the most recent entries as fit beside it. */
  ghost predicate KeepsMost<T>(before: seq<Entry<T>>, capacity: nat, e: Entry<T>, after: seq<Entry<T>>)
  {
    && after != [] && after[0] == e && after[1..] <= before && Total(after) <= capacity
    && forall m | 0 <= m <= |before| && Total(before[..m]) + e.size <= capacity :: m <= |after| - 1
  }

  lemma {:induction false} StoreKeepsMost<T>(es: seq<Entry<T>>, capacity: nat, e: Entry<T>)
    requires e.size <= capacity && !Has(es, e.key)
    ensures KeepsMost(es, capacity, e, Stored(es, capacity, e))
  {
    var n := Fitting(es, capacity - e.size);
    var after := Stored(es, capacity, e);
    assert after == [e] + es[..n] && after[1..] == es[..n];
    forall m | 0 <= m <= |es| && Total(es[..m]) + e.size <= capacity
      ensures m <= |after| - 1
    {
      FittingIsLongest(es, capacity - e.size, m);
    }
  }

  lemma TouchKeepsAll<T>(es: seq<Entry<T>>, key: string)
    ensures multiset(Touched(es, key)) == multiset(es)
  {
    if Has(es, key) {
      var i := Position(es, key);
      assert es == es[..i] + ([es[i]] + es[i + 1..]);
    }
  }

  lemma {:induction false} TotalSplit<T>(a: seq<Entry<T>>, b: seq<Entry<T>>)
    ensures Total(a + b) == Total(a) + Total(b)
  {
    if a == [] {
      assert a + b == b;
    } else {
      TotalSplit(a[1..], b);
      assert (a + b)[1..] == a[1..] + b;
    }
  }

  lemma TotalToFront<T>(es: seq<Entry<T>>, i: nat)
    requires i < |es|
    ensures Total(ToFront(es, i)) == Total(es)
  {
    var x, front, back := [es[i]], es[..i], es[i + 1..];
    assert es == front + (x + back);
    TotalSplit(front, x + back);
    TotalSplit(x, back);
    assert ToFront(es, i) == x + (front + back);
    TotalSplit(x, front + back);
    TotalSplit(front, back);
  }

  // ---- Runs: what the list looks like after any sequence of calls ------------------------------------

  datatype Op<T> = Get(key: string) | Store(entry: Entry<T>) | Clear

  function After<T>(capacity: nat, ops: seq<Op<T>>): seq<Entry<T>>
    requires forall k | 0 <= k < |ops| :: ops[k].Store? ==> ops[k].entry.size <= capacity
  {
    if ops == [] then [] else
    var es := After(capacity, ops[..|ops| - 1]);
    match ops[|ops| - 1]
    case Get(key) => Touched(es, key)
    case Store(e) => Stored(es, capacity, e)
    case Clear => []
  }

  ghost predicate Sized<T>(capacity: nat, ops: seq<Op<T>>) {
    forall k | 0 <= k < |ops| :: ops[k].Store? ==> ops[k].entry.size <= capacity
  }

  /** Call number `k` inserted `key` or found it. */
  ghost predicate Uses<T>(capacity: nat, ops: seq<Op<T>>, k: nat, key: string)
    requires Sized(capacity, ops) && k < |ops|
  {
    var es := After(capacity, ops[..k]);
    match ops[k]
    case Get(g) => g == key && Has(es, key)
    case Store(e) => e.key == key && !Has(es, key)
    case Clear => false
  }

  /** The last call that inserted or found `key`, counted from 1; 0 if there was none. */
  ghost function LastUse<T>(capacity: nat, ops: seq<Op<T>>, key: string): nat
    requires Sized(capacity, ops)
  {
    if ops == [] then 0
    else if Uses(capacity, ops, |ops| - 1, key) then |ops|
    else LastUse(capacity, ops[..|ops| - 1], key)
  }

  lemma {:induction false} LastUseBound<T>(capacity: nat, ops: seq<Op<T>>, key: string)
    requires Sized(capacity, ops)
    ensures LastUse(capacity, ops, key) <= |ops|
  {
    if ops != [] { LastUseBound(capacity, ops[..|ops| - 1], key); }
  }

  /** Strictly decreasing dates along the list. */
  ghost predicate Recent<T>(es: seq<Entry<T>>, date: string -> nat) {
    forall i, j | 0 <= i < j < |es| :: date(es[i].key) > date(es[j].key)
  }

  /** The list is ordered by last use, and the budget holds. */
  ghost predicate Good<T>(capacity: nat, ops: seq<Op<T>>)
    requires Sized(capacity, ops)
  {
    Total(After(capacity, ops)) <= capacity && Recent(After(capacity, ops), Dates(capacity, ops))
  }

  ghost function Dates<T>(capacity: nat, ops: seq<Op<T>>): string -> nat
    requires Sized(capacity, ops)
  {
    key => if Sized(capacity, ops) then LastUse(capacity, ops, key) else 0
  }

  lemma RecentIsDistinct<T>(es: seq<Entry<T>>, date: string -> nat)
    requires Recent(es, date)
    ensures Distinct(es)
  {
  }

  lemma ToFrontRecent<T>(es: seq<Entry<T>>, p: nat, old': string -> nat, new': string -> nat)
    requires Recent(es, old') && p < |es|
    requires forall j | 0 <= j < |es| && j != p :: new'(es[j].key) == old'(es[j].key) < new'(es[p].key)
    ensures Recent(ToFront(es, p), new')
  {
    var es' := ToFront(es, p);
    forall i, j | 0 <= i < j < |es'| ensures new'(es'[i].key) > new'(es'[j].key) {
      assert es'[j] == (if j <= p then es[j - 1] else es[j]);
      if i > 0 { assert es'[i] == (if i <= p then es[i - 1] else es[i]); }
    }
  }

  lemma PrefixRecent<T>(es: seq<Entry<T>>, n: nat, e: Entry<T>, old': string -> nat, new': string -> nat)
    requires Recent(es, old') && n <= |es|
    requires forall j | 0 <= j < |es| :: new'(es[j].key) == old'(es[j].key) < new'(e.key)
    ensures Recent([e] + es[..n], new')
  {
  }

  lemma OthersKeepDate<T>(capacity: nat, ops: seq<Op<T>>, key: string)
    requires Sized(capacity, ops) && ops != [] && !Uses(capacity, ops, |ops| - 1, key)
    ensures Dates(capacity, ops)(key) == Dates(capacity, ops[..|ops| - 1])(key) < |ops|
  {
    LastUseBound(capacity, ops[..|ops| - 1], key);
  }

  lemma GetGood<T>(capacity: nat, ops: seq<Op<T>>)
    requires Sized(capacity, ops) && ops != [] && ops[|ops| - 1].Get?
    requires Good(capacity, ops[..|ops| - 1])
    ensures Good(capacity, ops)
  {
    var front, key := ops[..|ops| - 1], ops[|ops| - 1].key;
    var es := After(capacity, front);
    forall j | 0 <= j < |es| && es[j].key != key
      ensures Dates(capacity, ops)(es[j].key) == Dates(capacity, front)(es[j].key) < |ops|
    {
      OthersKeepDate(capacity, ops, es[j].key);
    }
    if Has(es, key) {
      var p := Position(es, key);
      TotalToFront(es, p);
      assert Dates(capacity, ops)(key) == |ops|;
      RecentIsDistinct(es, Dates(capacity, front));
      ToFrontRecent(es, p, Dates(capacity, front), Dates(capacity, ops));
    } else {
      forall j | 0 <= j < |es| ensures es[j].key != key { HasAt(es, j); }
    }
  }

  lemma StoreGood<T>(capacity: nat, ops: seq<Op<T>>)
    requires Sized(capacity, ops) && ops != [] && ops[|ops| - 1].Store?
    requires Good(capacity, ops[..|ops| - 1])
    ensures Good(capacity, ops)
  {
    var front, e := ops[..|ops| - 1], ops[|ops| - 1].entry;
    var es := After(capacity, front);
    assert ops[|ops| - 1].Store? && e.size <= capacity;
    if Has(es, e.key) {
      forall j | 0 <= j < |es| ensures Dates(capacity, ops)(es[j].key) == Dates(capacity, front)(es[j].key) {
        OthersKeepDate(capacity, ops, es[j].key);
      }
    } else {
      forall j | 0 <= j < |es| ensures Dates(capacity, ops)(es[j].key) == Dates(capacity, front)(es[j].key) < |ops| {
        HasAt(es, j);
        OthersKeepDate(capacity, ops, es[j].key);
      }
      assert Dates(capacity, ops)(e.key) == |ops|;
      var n := Fitting(es, capacity - e.size);
      PrefixRecent(es, n, e, Dates(capacity, front), Dates(capacity, ops));
      assert ([e] + es[..n])[1..] == es[..n];
    }
  }

  /** Every run: distinct keys, usage within capacity, and list order is order of last insertion or hit. */
  lemma {:induction false} RunGood<T>(capacity: nat, ops: seq<Op<T>>)
    requires Sized(capacity, ops)
    ensures Good(capacity, ops) && Distinct(After(capacity, ops))
  {
    if ops != [] {
      RunGood(capacity, ops[..|ops| - 1]);
      match ops[|ops| - 1]
      case Get(_) => GetGood(capacity, ops);
      case Store(_) => StoreGood(capacity, ops);
      case Clear =>
      RecentIsDistinct(After(capacity, ops), Dates(capacity, ops));
    }
  }

  /** What one more call does, whatever was called before. */
  lemma {:induction false} CallExactly<T>(capacity: nat, ops: seq<Op<T>>, op: Op<T>)
    requires Sized(capacity, ops) && (op.Store? ==> op.entry.size <= capacity)
    ensures Sized(capacity, ops + [op])
    ensures var before, after := After(capacity, ops), After(capacity, ops + [op]);
      match op
      case Get(key) =>
        && multiset(after) == multiset(before)
        && (Has(before, key) ==> after != [] && after[0].key == key) && (!Has(before, key) ==> after == before)
      case Store(e) => if Has(before, e.key) then after == before else KeepsMost(before, capacity, e, after)
      case Clear => after == []
  {
    assert (ops + [op])[..|ops|] == ops;
    var before := After(capacity, ops);
    match op
    case Get(key) => TouchKeepsAll(before, key);
    case Store(e) => if !Has(before, e.key) { StoreKeepsMost(before, capacity, e); }
    case Clear =>
  }

  // ---- The storage object ------------------------------------------------------------------------------

  function EntryOf<T>(n: Node<T>): Entry<T> { Entry(n.key, n.value, n.size) }

  function Listed<T>(ns: seq<Node<T>>): (es: seq<Entry<T>>)
    ensures |es| == |ns|
  {
    seq(|ns|, i requires 0 <= i < |ns| => EntryOf(ns[i]))
  }

  /** The index maps exactly the listed keys, each to its node. */
  ghost predicate Indexed<T>(ns: seq<Node<T>>, index: map<string, Node<T>>)
  {
    && (forall k | k in index :: index[k] in ns && index[k].key == k)
    && (forall n | n in ns :: n.key in index && index[n.key] == n)
    && DistinctKeys(ns)
  }

  ghost predicate DistinctKeys<T>(ns: seq<Node<T>>) {
    forall i, j | 0 <= i < j < |ns| :: ns[i].key != ns[j].key
  }

  lemma IndexedHas<T>(ns: seq<Node<T>>, index: map<string, Node<T>>, key: string)
    requires Indexed(ns, index)
    ensures key in index <==> Has(Listed(ns), key)
  {
    if key in index {
      var i :| 0 <= i < |ns| && ns[i] == index[key];
      HasAt(Listed(ns), i);
    }
    if Has(Listed(ns), key) {
      assert ns[Position(Listed(ns), key)] in ns;
    }
  }

  /** Where the iterator of a stored key points. */
  lemma IndexedPosition<T>(ns: seq<Node<T>>, index: map<string, Node<T>>, key: string, i: nat)
    requires Indexed(ns, index) && key in index && i < |ns| && ns[i] == index[key]
    ensures Has(Listed(ns), key) && Position(Listed(ns), key) == i
  {
    IndexedHas(ns, index, key);
    var p := Position(Listed(ns), key);
    assert ns[p].key == ns[i].key;
  }

  function Spliced<T>(ns: seq<Node<T>>, i: nat): seq<Node<T>>
    requires i < |ns|
  { [ns[i]] + ns[..i] + ns[i + 1..] }

  lemma SplicedMembers<T>(ns: seq<Node<T>>, i: nat, n: Node<T>)
    requires i < |ns|
    ensures n in Spliced(ns, i) <==> n in ns
  {
    assert ns == ns[..i] + [ns[i]] + ns[i + 1..];
  }

  lemma SplicedDistinct<T>(ns: seq<Node<T>>, i: nat)
    requires i < |ns| && DistinctKeys(ns)
    ensures DistinctKeys(Spliced(ns, i))
  {
    var ns' := Spliced(ns, i);
    forall a, b | 0 <= a < b < |ns'| ensures ns'[a].key != ns'[b].key {
      assert ns'[b] == (if b <= i then ns[b - 1] else ns[b]);
      if a > 0 { assert ns'[a] == (if a <= i then ns[a - 1] else ns[a]); }
    }
  }

  lemma SplicedListed<T>(ns: seq<Node<T>>, i: nat)
    requires i < |ns|
    ensures Listed(Spliced(ns, i)) == ToFront(Listed(ns), i)
  {
  }

  lemma IndexedSplice<T>(ns: seq<Node<T>>, index: map<string, Node<T>>, i: nat)
    requires Indexed(ns, index) && i < |ns|
    ensures Indexed(Spliced(ns, i), index)
    ensures Listed(Spliced(ns, i)) == ToFront(Listed(ns), i)
  {
    hide DistinctKeys, Listed;
    forall n ensures n in Spliced(ns, i) <==> n in ns { SplicedMembers(ns, i, n); }
    SplicedDistinct(ns, i);
    SplicedListed(ns, i);
  }

  lemma ListedFront<T>(ns: seq<Node<T>>)
    requires ns != []
    ensures Listed(ns[..|ns| - 1]) == Listed(ns)[..|ns| - 1]
    ensures Listed(ns) == Listed(ns[..|ns| - 1]) + [EntryOf(ns[|ns| - 1])]
  {
  }

  lemma FrontMembers<T>(ns: seq<Node<T>>, n: Node<T>)
    requires ns != [] && DistinctKeys(ns)
    ensures n in ns[..|ns| - 1] <==> n in ns && n.key != ns[|ns| - 1].key
  {
    if n in ns && n != ns[|ns| - 1] {
      var j :| 0 <= j < |ns| && ns[j] == n;
      assert ns[..|ns| - 1][j] == n;
    }
  }

  lemma IndexedEvict<T>(ns: seq<Node<T>>, index: map<string, Node<T>>)
    requires Indexed(ns, index) && ns != []
    ensures Indexed(ns[..|ns| - 1], index - {ns[|ns| - 1].key})
    ensures Listed(ns[..|ns| - 1]) == Listed(ns)[..|ns| - 1]
    ensures Total(Listed(ns)) == Total(Listed(ns[..|ns| - 1])) + ns[|ns| - 1].size
  {
    var front, last := ns[..|ns| - 1], ns[|ns| - 1];
    assert DistinctKeys(front);
    hide DistinctKeys, Listed, Total;
    forall n ensures n in front <==> n in ns && n.key != last.key { FrontMembers(ns, n); }
    ListedFront(ns);
    TotalSplit(Listed(front), [EntryOf(last)]);
    TotalOne(EntryOf(last));
  }

  lemma TotalOne<T>(e: Entry<T>)
    ensures Total([e]) == e.size
  {
  }

  lemma IndexedInsert<T>(ns: seq<Node<T>>, index: map<string, Node<T>>, n: Node<T>)
    requires Indexed(ns, index) && n.key !in index
    ensures Indexed([n] + ns, index[n.key := n])
    ensures Listed([n] + ns) == [EntryOf(n)] + Listed(ns)
    ensures Total(Listed([n] + ns)) == n.size + Total(Listed(ns))
  {
    assert Listed([n] + ns)[1..] == Listed(ns);
  }

  class LruStorage<T> {
    var nodes: seq<Node<T>>
    var index: map<string, Node<T>>
    var usage: int
    const capacity: nat

    ghost function Entries(): seq<Entry<T>>
      reads this
    { Listed(nodes) }

    ghost predicate Valid()
      reads this
    { Indexed(nodes, index) && usage == Total(Entries()) <= capacity }

    constructor (capacity: nat)
      ensures Valid() && Entries() == [] && this.capacity == capacity
    {
      this.capacity := capacity;
      nodes, index, usage := [], map[], 0;
    }

    method ClearStorage()
      modifies this
      ensures Valid() && Entries() == []
    {
      index := map[];
      nodes := [];
      usage := 0;
    }

    /** A hit moves the node to the front. */
    method GetValue(key: string) returns (r: Option<T>)
      requires Valid()
      modifies this
      ensures Valid()
      ensures Entries() == Touched(old(Entries()), key)
      ensures multiset(Entries()) == multiset(old(Entries()))
      ensures r.None? <==> !Has(old(Entries()), key)
      ensures r.Some? ==> Entries() != [] && Entries()[0].key == key && r.value == Entries()[0].value
    {
      TouchKeepsAll(Entries(), key);
      IndexedHas(nodes, index, key);
      if key !in index { return None; }
      var hit := index[key];
      var i :| 0 <= i < |nodes| && nodes[i] == hit;
      IndexedPosition(nodes, index, key, i);
      IndexedSplice(nodes, index, i);
      TotalToFront(Entries(), i);
      nodes := Spliced(nodes, i);
      return Some(hit.value);
    }

    /**
     False if the key is present; otherwise evicts from the back and puts the value in front. A value larger than
     the capacity evicts everything and then looks at the back of the empty list: `inBounds` is false.
     */
    method StoreValue(key: string, value: T, size: nat) returns (stored: bool, inBounds: bool)
      requires Valid()
      modifies this
      ensures Valid()
      ensures inBounds <==> Has(old(Entries()), key) || size <= capacity
      ensures stored <==> inBounds && !Has(old(Entries()), key)
      ensures inBounds && !stored ==> Entries() == old(Entries())
      ensures stored ==> Entries() == Stored(old(Entries()), capacity, Entry(key, value, size))
      ensures stored ==> KeepsMost(old(Entries()), capacity, Entry(key, value, size), Entries())
      ensures !inBounds ==> Entries() == []
    {
      hide Indexed, Listed, Total, Has, Fitting, KeepsMost;
      ghost var before := Entries();
      if !Has(before, key) && size <= capacity { StoreKeepsMost(before, capacity, Entry(key, value, size)); }
      stored := Absent(key);
      inBounds := true;
      if stored {
        inBounds := MakeRoom(size);
        stored := inBounds;
        if inBounds { InsertFront(key, value, size); }
      }
    }

    method Absent(key: string) returns (absent: bool)
      requires Valid()
      ensures absent <==> key !in index
      ensures absent <==> !Has(Entries(), key)
    {
      IndexedHas(nodes, index, key);
      absent := key !in index;
    }

    method InsertFront(key: string, value: T, size: nat)
      requires Valid() && key !in index && usage + size <= capacity
      modifies this
      ensures Valid() && Entries() == [Entry(key, value, size)] + old(Entries())
    {
      var node := new Node(key, value, size);
      IndexedInsert(nodes, index, node);
      nodes := [node] + nodes;
      index := index[key := node];
      usage := usage + size;
    }

    /** The eviction loop; false where it would look at the back of an empty list. */
    method MakeRoom(size: nat) returns (inBounds: bool)
      requires Valid()
      modifies this
      ensures Valid() && index.Keys <= old(index).Keys
      ensures inBounds <==> size <= capacity
      ensures inBounds ==> usage + size <= capacity && Entries() == old(Entries())[..Fitting(old(Entries()), capacity - size)]
      ensures !inBounds ==> Entries() == []
    {
      hide Indexed, Listed, Total;
      ghost var es := Entries();
      assert es[..|es|] == es;
      while usage + size > capacity
        invariant Valid() && index.Keys <= old(index).Keys
        invariant |nodes| <= |es| && Entries() == es[..|nodes|]
        invariant size <= capacity ==> Fitting(es, capacity - size) == Fitting(es[..|nodes|], capacity - size)
        decreases |nodes|
      {
        if nodes == [] { return false; }
        ghost var n := |nodes|;
        EvictLast();
        assert es[..n][..n - 1] == es[..n - 1];
      }
      inBounds := true;
    }

    method EvictLast()
      requires Valid() && nodes != []
      modifies this
      ensures Valid() && |nodes| == |old(nodes)| - 1
      ensures Entries() == old(Entries())[..|nodes|]
      ensures index.Keys <= old(index).Keys
    {
      IndexedEvict(nodes, index);
      var last := nodes[|nodes| - 1];
      usage := usage - last.size;
      index := index - {last.key};
      nodes := nodes[..|nodes| - 1];
    }
  }
}
