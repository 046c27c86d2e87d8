/**
 The chained hash table: an insert goes in front of its chain and shadows older entries of the same key.
*/
module HashTable {
  import opened Common

  datatype Pair<V> = Pair(key: string, value: V)

  type Chain<V> = seq<Pair<V>>

  datatype Op<V> = Insert(key: string, value: V) | Remove(key: string)

  /** The bucket of a key. */
  function At(hash: string -> nat, key: string, size: nat): (b: nat)
    requires size > 0
    ensures b < size
  {
    hash(key) % size
  }

  /** The first entry of the key. */
  function Lookup<V>(chain: Chain<V>, key: string): Option<V> {
    if chain == [] then None
    else if chain[0].key == key then Some(chain[0].value)
    else Lookup(chain[1..], key)
  }

  /** The chain without the first entry of the key. */
  function Without<V>(chain: Chain<V>, key: string): Chain<V> {
    if chain == [] then []
    else if chain[0].key == key then chain[1..]
    else [chain[0]] + Without(chain[1..], key)
  }

  function Step<V>(hash: string -> nat, t: seq<Chain<V>>, op: Op<V>): (u: seq<Chain<V>>)
    requires |t| > 0
    ensures |u| == |t|
  {
    var b := At(hash, op.key, |t|);
    match op
    case Insert(key, value) => t[b := [Pair(key, value)] + t[b]]
    case Remove(key) => t[b := Without(t[b], key)]
  }

  function Empty<V>(size: nat): (t: seq<Chain<V>>)
    ensures |t| == size && forall b :: 0 <= b < size ==> t[b] == []
  {
    seq(size, _ => [])
  }

  function After<V>(hash: string -> nat, size: nat, ops: seq<Op<V>>): (t: seq<Chain<V>>)
    requires size > 0
    ensures |t| == size
  {
    if ops == [] then Empty(size) else Step(hash, After(hash, size, ops[..|ops| - 1]), ops[|ops| - 1])
  }

  /** What the table finds. */
  function Found<V>(hash: string -> nat, t: seq<Chain<V>>, key: string): Option<V>
    requires |t| > 0
  {
    Lookup(t[At(hash, key, |t|)], key)
  }

  // ----- The reference: a stack of values for every key

  /** The values of the inserts of the key that no remove has undone, the latest first. */
  function Stack<V>(ops: seq<Op<V>>, key: string): seq<V> {
    if ops == [] then []
    else
      var before, op := Stack(ops[..|ops| - 1], key), ops[|ops| - 1];
      if op.key != key then before
      else if op.Insert? then [op.value] + before
      else if before == [] then [] else before[1..]
  }

  /** The values of the key in a chain. */
  function Values<V>(chain: Chain<V>, key: string): seq<V> {
    if chain == [] then []
    else (if chain[0].key == key then [chain[0].value] else []) + Values(chain[1..], key)
  }

  lemma {:induction false} LookupIsFirst<V>(chain: Chain<V>, key: string)
    ensures Lookup(chain, key) == if Values(chain, key) == [] then None else Some(Values(chain, key)[0])
  {
    if chain != [] && chain[0].key != key {
      LookupIsFirst(chain[1..], key);
    }
  }

  /** Removing uncovers the next value of the key and leaves the other keys alone. */
  lemma {:induction false} WithoutValues<V>(chain: Chain<V>, gone: string, key: string)
    ensures Values(Without(chain, gone), key)
            == if key != gone then Values(chain, key)
               else if Values(chain, key) == [] then [] else Values(chain, key)[1..]
    ensures |Without(chain, gone)| == if Values(chain, gone) == [] then |chain| else |chain| - 1
  {
    if chain != [] && chain[0].key != gone {
      WithoutValues(chain[1..], gone, key);
      assert Without(chain, gone)[1..] == Without(chain[1..], gone);
    }
  }

  /** Whatever the hash function and the number of buckets, the chain of a key holds its stack. */
  lemma {:induction false} ChainsAreStacks<V>(hash: string -> nat, size: nat, ops: seq<Op<V>>, key: string)
    requires size > 0
    ensures Values(After(hash, size, ops)[At(hash, key, size)], key) == Stack(ops, key)
  {
    if ops != [] {
      var front, op := ops[..|ops| - 1], ops[|ops| - 1];
      ChainsAreStacks(hash, size, front, key);
      var chain := After(hash, size, front)[At(hash, op.key, size)];
      match op
      case Insert(_, value) => assert ([Pair(op.key, value)] + chain)[1..] == chain;
      case Remove(gone) => WithoutValues(chain, gone, key);
    }
  }

  /** Find returns the value of the latest insert of the key that no remove has undone. */
  lemma {:induction false} FindsLatest<V>(hash: string -> nat, size: nat, ops: seq<Op<V>>, key: string)
    requires size > 0
    ensures Found(hash, After(hash, size, ops), key)
            == if Stack(ops, key) == [] then None else Some(Stack(ops, key)[0])
  {
    ChainsAreStacks(hash, size, ops, key);
    LookupIsFirst(After(hash, size, ops)[At(hash, key, size)], key);
  }

  /** Two tables of different hash functions and sizes cannot be told apart. */
  lemma {:induction false} SameForAnyHash<V>(hash: string -> nat, size: nat, hash': string -> nat, size': nat,
                                             ops: seq<Op<V>>, key: string)
    requires size > 0 && size' > 0
    ensures Found(hash, After(hash, size, ops), key) == Found(hash', After(hash', size', ops), key)
    ensures Total(After(hash, size, ops)) == Total(After(hash', size', ops))
  {
    FindsLatest(hash, size, ops, key);
    FindsLatest(hash', size', ops, key);
    TotalIsLive(hash, size, ops);
    TotalIsLive(hash', size', ops);
  }

  // ----- Counting

  function Total<V>(t: seq<Chain<V>>): nat {
    if t == [] then 0 else |t[0]| + Total(t[1..])
  }

  /** The inserts that no remove has undone. */
  function Live<V>(ops: seq<Op<V>>): int {
    if ops == [] then 0
    else
      var front, op := ops[..|ops| - 1], ops[|ops| - 1];
      Live(front) + if op.Insert? then 1 else if Stack(front, op.key) == [] then 0 else -1
  }

  lemma {:induction false} TotalUpdate<V>(t: seq<Chain<V>>, b: nat, chain: Chain<V>)
    requires b < |t|
    ensures Total(t[b := chain]) == Total(t) - |t[b]| + |chain|
  {
    if b == 0 {
      assert t[b := chain][1..] == t[1..];
    } else {
      assert t[b := chain][1..] == t[1..][b - 1 := chain];
      TotalUpdate(t[1..], b - 1, chain);
    }
  }

  lemma {:induction false} TotalEmpty<V>(size: nat)
    ensures Total<V>(Empty(size)) == 0
  {
    if size > 0 {
      assert Empty<V>(size)[1..] == Empty(size - 1);
      TotalEmpty<V>(size - 1);
    }
  }

  lemma {:induction false} TotalIsLive<V>(hash: string -> nat, size: nat, ops: seq<Op<V>>)
    requires size > 0
    ensures Total(After(hash, size, ops)) == Live(ops)
  {
    if ops == [] {
      TotalEmpty<V>(size);
    } else {
      var front, op := ops[..|ops| - 1], ops[|ops| - 1];
      var t, b := After(hash, size, front), At(hash, op.key, size);
      TotalIsLive(hash, size, front);
      ChainsAreStacks(hash, size, front, op.key);
      match op
      case Insert(key, value) => TotalUpdate(t, b, [Pair(key, value)] + t[b]);
      case Remove(gone) =>
        WithoutValues(t[b], gone, gone);
        TotalUpdate(t, b, Without(t[b], gone));
    }
  }

  // ----- The hash function

  const WRAP: nat := 0x1_0000_0000_0000_0000

  /** A character of a key, as an `unsigned char`. */
  function Byte(c: char): (b: nat)
    ensures b < 256
  {
    c as nat % 256
  }

  /** The polynomial in 33 that `corm_hash_str` evaluates, without a word size. */
  function Polynomial(key: string): nat {
    if key == "" then 5381 else 33 * Polynomial(key[..|key| - 1]) + Byte(key[|key| - 1])
  }

  function Djb2(key: string): nat {
    Polynomial(key) % WRAP
  }

  /** Wrapping in between changes nothing. */
  lemma {:induction false} WrapStep(p: nat, c: nat)
    ensures (((32 * (p % WRAP)) % WRAP + p % WRAP) % WRAP + c) % WRAP == (33 * p + c) % WRAP
  {
    var h, q := p % WRAP, p / WRAP;
    var a := (32 * h) / WRAP;
    var s := (32 * h) % WRAP + h;
    assert s == 33 * h - a * WRAP;
    var b := s / WRAP;
    assert s % WRAP + c == 33 * p + c - (33 * q + a + b) * WRAP;
    Shifted(33 * p + c, 33 * q + a + b);
  }

  lemma {:induction false} Shifted(x: int, k: int)
    ensures (x - k * WRAP) % WRAP == x % WRAP
  {
    var q, r := x / WRAP, x % WRAP;
    assert x - k * WRAP == (q - k) * WRAP + r;
    Quotient(q - k, r);
  }

  lemma {:induction false} Quotient(q: int, r: nat)
    requires r < WRAP
    ensures (q * WRAP + r) % WRAP == r
  {}

  /** `corm_hash_str`. */
  method HashString(key: string, size: nat) returns (b: nat)
    requires size > 0
    ensures b == At(Djb2, key, size)
  {
    var h := 5381;
    for i := 0 to |key|
      invariant h == Polynomial(key[..i]) % WRAP
    {
      assert key[..i + 1][..i] == key[..i];
      WrapStep(Polynomial(key[..i]), Byte(key[i]));
      h := (((h * 32) % WRAP + h) % WRAP + Byte(key[i])) % WRAP;
    }
    assert key[..|key|] == key;
    b := h % size;
  }

  // ----- The table

  class Node<V> {
    const key: string
    const value: V
    var next: Node?<V>
    /** The bucket whose chain the node is in. */
    ghost const home: nat

    constructor (key: string, value: V, next: Node?<V>, ghost home: nat)
      ensures this.key == key && this.value == value && this.next == next && this.home == home
    {
      this.key, this.value, this.next, this.home := key, value, next, home;
    }
  }

  ghost function PairsOf<V>(nodes: seq<Node<V>>): (chain: Chain<V>)
    ensures |chain| == |nodes|
    ensures forall i :: 0 <= i < |nodes| ==> chain[i] == Pair(nodes[i].key, nodes[i].value)
  {
    seq(|nodes|, i requires 0 <= i < |nodes| => Pair(nodes[i].key, nodes[i].value))
  }

  ghost function AllPairs<V>(chains: seq<seq<Node<V>>>): (t: seq<Chain<V>>)
    ensures |t| == |chains| && forall b :: 0 <= b < |t| ==> t[b] == PairsOf(chains[b])
  {
    seq(|chains|, b requires 0 <= b < |chains| => PairsOf(chains[b]))
  }

  ghost function NodeAt<V>(nodes: seq<Node<V>>, i: nat): Node?<V> {
    if i < |nodes| then nodes[i] else null
  }

  /** The nodes from `first` on, each once. */
  ghost predicate Linked<V>(first: Node?<V>, nodes: seq<Node<V>>)
    reads nodes
  {
    && first == NodeAt(nodes, 0)
    && (forall i :: 0 <= i < |nodes| ==> nodes[i].next == NodeAt(nodes, i + 1))
    && forall i, j :: 0 <= i < j < |nodes| ==> nodes[i] != nodes[j]
  }

  /** All of them are known, and belong to bucket `b`. */
  ghost predicate Home<V>(chain: seq<Node<V>>, nodes: set<Node<V>>, b: nat) {
    forall i :: 0 <= i < |chain| ==> chain[i] in nodes && chain[i].home == b
  }

  class Table<V> {
    const buckets: array<Node?<V>>
    var count: nat
    ghost var chains: seq<seq<Node<V>>>
    ghost var nodes: set<Node<V>>

    /** The chains are what the buckets point to. */
    ghost predicate Shaped()
      reads this, buckets, nodes
    {
      && buckets.Length > 0 && |chains| == buckets.Length
      && forall b :: 0 <= b < |chains| ==> Home(chains[b], nodes, b) && Linked(buckets[b], chains[b])
    }

    ghost predicate Valid()
      reads this, buckets, nodes
    {
      Shaped() && count == Total(View())
    }

    ghost function View(): (t: seq<Chain<V>>)
      reads this
    {
      AllPairs(chains)
    }

    constructor (initialSize: nat)
      ensures Valid() && View() == Empty(buckets.Length)
      ensures buckets.Length == (if initialSize == 0 then 32 else initialSize) && fresh(buckets) && nodes == {}
    {
      var size := if initialSize == 0 then 32 else initialSize;
      buckets := new Node?<V>[size](_ => null);
      count := 0;
      chains := seq(size, _ => []);
      nodes := {};
      new;
      assert View() == Empty(size);
      TotalEmpty<V>(size);
    }

    method Put(key: string, value: V)
      requires Valid()
      modifies this, buckets
      ensures Valid() && fresh(nodes - old(nodes))
      ensures View() == Step(Djb2, old(View()), Insert(key, value))
    {
      var b := HashString(key, buckets.Length);
      TotalUpdate(View(), b, [Pair(key, value)] + View()[b]);
      Prepend(b, key, value);
      count := count + 1;
    }

    method Prepend(b: nat, key: string, value: V)
      requires Shaped() && b < buckets.Length
      modifies this`chains, this`nodes, buckets
      ensures Shaped() && fresh(nodes - old(nodes))
      ensures View() == old(View())[b := [Pair(key, value)] + old(View())[b]]
    {
      hide Linked, Home, AllPairs, PairsOf;
      var entry := new Node(key, value, buckets[b], b);
      assert Home(chains[b], nodes, b) && Linked(buckets[b], chains[b]);
      PairsOfMore(entry, chains[b]);
      AllPairsUpdate(chains, b, [entry] + chains[b]);
      LinkedMore(entry, chains[b], nodes, b);
      forall c | 0 <= c < |chains| ensures Home(chains[c], nodes + {entry}, c) {
        HomeMore(chains[c], nodes, c, entry);
      }
      buckets[b] := entry;
      chains := chains[b := [entry] + chains[b]];
      nodes := nodes + {entry};
    }

    method Find(key: string) returns (value: Option<V>)
      requires Valid()
      ensures value == Found(Djb2, View(), key)
    {
      var b := HashString(key, buckets.Length);
      var entry := buckets[b];
      assert Linked(buckets[b], chains[b]);
      ghost var i, chain := 0, PairsOf(chains[b]);
      while entry != null
        invariant 0 <= i <= |chain|
        invariant entry == NodeAt(chains[b], i)
        invariant Lookup(chain[i..], key) == Lookup(chain, key)
        decreases |chain| - i
      {
        if entry.key == key {
          return Some(entry.value);
        }
        assert chain[i..][1..] == chain[i + 1..];
        entry := entry.next;
        i := i + 1;
      }
      return None;
    }

    method Drop(key: string)
      requires Valid()
      modifies this, buckets, nodes
      ensures Valid() && nodes == old(nodes)
      ensures View() == Step(Djb2, old(View()), Remove(key))
    {
      hide Linked, Home, AllPairs, PairsOf, Without;
      var b := HashString(key, buckets.Length);
      ghost var chain := View()[b];
      var prev, entry;
      ghost var i;
      prev, entry, i := Search(b, key);
      WithoutAt(chain, key, i);
      TotalUpdate(View(), b, Without(chain, key));
      if entry == null {
        assert View()[b := chain] == View();
        return;
      }
      Unlink(b, prev, entry, i);
      count := count - 1;
    }

    method Search(b: nat, key: string) returns (prev: Node?<V>, entry: Node?<V>, ghost i: nat)
      requires Shaped() && b < buckets.Length
      ensures i <= |chains[b]| && entry == NodeAt(chains[b], i)
      ensures prev == if i == 0 then null else chains[b][i - 1]
      ensures forall j :: 0 <= j < i ==> PairsOf(chains[b])[j].key != key
      ensures i < |chains[b]| ==> PairsOf(chains[b])[i].key == key
    {
      prev, entry, i := null, buckets[b], 0;
      assert Linked(buckets[b], chains[b]);
      ghost var chain := PairsOf(chains[b]);
      while entry != null && entry.key != key
        invariant 0 <= i <= |chain|
        invariant entry == NodeAt(chains[b], i)
        invariant i == 0 <==> prev == null
        invariant i > 0 ==> prev == chains[b][i - 1]
        invariant forall j :: 0 <= j < i ==> chain[j].key != key
        decreases |chain| - i
      {
        prev := entry;
        entry := entry.next;
        i := i + 1;
      }
    }

    method Unlink(b: nat, prev: Node?<V>, entry: Node<V>, ghost i: nat)
      requires Shaped() && b < buckets.Length && i < |chains[b]| && entry == chains[b][i]
      requires prev == if i == 0 then null else chains[b][i - 1]
      modifies this`chains, buckets, nodes
      ensures Shaped()
      ensures View() == old(View())[b := old(View())[b][..i] + old(View())[b][i + 1..]]
    {
      hide PairsOf, AllPairs, Rest, Home, Linked;
      ghost var rest := Rest(chains[b], i);
      PairsOfLess(chains[b], i);
      HomeLess(chains[b], nodes, b, i);
      AllPairsUpdate(chains, b, rest);
      Detach(b, prev, entry, i);
      chains := chains[b := rest];
    }

    method Detach(b: nat, prev: Node?<V>, entry: Node<V>, ghost i: nat)
      requires Shaped() && b < buckets.Length && i < |chains[b]| && entry == chains[b][i]
      requires prev == if i == 0 then null else chains[b][i - 1]
      modifies buckets, nodes
      ensures Linked(buckets[b], Rest(chains[b], i))
      ensures forall c :: 0 <= c < |chains| && c != b ==> Linked(buckets[c], chains[c])
    {
      assert Linked(buckets[b], chains[b]);
      if prev == null {
        LinkedTail(chains[b]);
        buckets[b] := entry.next;
      } else {
        Bypass(prev, entry, chains[b], i);
      }
      forall c | 0 <= c < |chains| && c != b ensures Linked(buckets[c], chains[c]) {
        assert Home(chains[c], nodes, c) && (prev != null ==> prev.home == b);
        assert prev !in chains[c];
        assert old(Linked(buckets[c], chains[c]));
      }
    }
  }

  ghost function Rest<T>(s: seq<T>, i: nat): (r: seq<T>)
    requires i < |s|
    ensures |r| == |s| - 1 && forall k :: 0 <= k < |r| ==> r[k] == s[if k < i then k else k + 1]
  {
    s[..i] + s[i + 1..]
  }

  lemma {:induction false} LinkedTail<V>(nodes: seq<Node<V>>)
    requires nodes != [] && Linked(nodes[0], nodes)
    ensures Linked(nodes[0].next, Rest(nodes, 0))
  {
    var rest := Rest(nodes, 0);
    forall k | 0 <= k < |rest| ensures rest[k].next == NodeAt(rest, k + 1) {
      assert nodes[k + 1].next == NodeAt(nodes, k + 2);
    }
    assert nodes[0].next == NodeAt(nodes, 1);
  }

  /** Takes the entry out from behind the node before it. */
  method Bypass<V>(prev: Node<V>, entry: Node<V>, ghost nodes: seq<Node<V>>, ghost i: nat)
    requires 0 < i < |nodes| && prev == nodes[i - 1] && entry == nodes[i] && Linked(nodes[0], nodes)
    modifies prev`next
    ensures Linked(nodes[0], Rest(nodes, i))
  {
    ghost var rest := Rest(nodes, i);
    assert entry.next == NodeAt(nodes, i + 1);
    prev.next := entry.next;
    forall k | 0 <= k < |rest| ensures rest[k].next == NodeAt(rest, k + 1) {
      if k < i - 1 {
        assert nodes[k].next == NodeAt(nodes, k + 1);
      } else if k >= i {
        assert nodes[k + 1].next == NodeAt(nodes, k + 2);
      }
    }
  }

  lemma {:induction false} PairsOfMore<V>(entry: Node<V>, nodes: seq<Node<V>>)
    ensures PairsOf([entry] + nodes) == [Pair(entry.key, entry.value)] + PairsOf(nodes)
  {}

  lemma {:induction false} AllPairsUpdate<V>(chains: seq<seq<Node<V>>>, b: nat, chain: seq<Node<V>>)
    requires b < |chains|
    ensures AllPairs(chains[b := chain]) == AllPairs(chains)[b := PairsOf(chain)]
  {}

  lemma {:induction false} HomeMore<V>(chain: seq<Node<V>>, nodes: set<Node<V>>, b: nat, entry: Node<V>)
    requires Home(chain, nodes, b)
    ensures Home(chain, nodes + {entry}, b)
  {}

  lemma {:induction false} LinkedMore<V>(entry: Node<V>, chain: seq<Node<V>>, nodes: set<Node<V>>, b: nat)
    requires Home(chain, nodes, b) && Linked(entry.next, chain) && entry !in nodes && entry.home == b
    ensures Linked(entry, [entry] + chain) && Home([entry] + chain, nodes + {entry}, b)
  {}

  lemma {:induction false} HomeLess<V>(chain: seq<Node<V>>, nodes: set<Node<V>>, b: nat, i: nat)
    requires i < |chain| && Home(chain, nodes, b)
    ensures Home(Rest(chain, i), nodes, b)
  {}

  lemma {:induction false} PairsOfLess<V>(nodes: seq<Node<V>>, i: nat)
    requires i < |nodes|
    ensures PairsOf(Rest(nodes, i)) == PairsOf(nodes)[..i] + PairsOf(nodes)[i + 1..]
  {}

  lemma {:induction false} WithoutAt<V>(chain: Chain<V>, key: string, i: nat)
    requires i <= |chain| && forall j :: 0 <= j < i ==> chain[j].key != key
    requires i < |chain| ==> chain[i].key == key
    ensures Without(chain, key) == if i < |chain| then chain[..i] + chain[i + 1..] else chain
  {
    if i > 0 {
      WithoutAt(chain[1..], key, i - 1);
      assert chain == [chain[0]] + chain[1..];
      if i < |chain| {
        assert chain[..i] == [chain[0]] + chain[1..][..i - 1];
        assert chain[i + 1..] == chain[1..][i..];
      }
    }
  }
}
