/** `utils::lru_cache`: a list of nodes and a hash map into it, updated together. */
module LruCache {
  import opened Bits

  datatype Entry<K, V> = Entry(key: K, value: V)

  // The position of k, or the length.
  function IndexOf<K(==), V>(s: seq<Entry<K, V>>, k: K): (i: nat)
    ensures i <= |s| && (i < |s| ==> s[i].key == k)
    ensures forall j | 0 <= j < i :: s[j].key != k
  {
    if s == [] || s[0].key == k then 0 else 1 + IndexOf(s[1..], k)
  }

  function Found<K(==), V>(s: seq<Entry<K, V>>, k: K): Option<V> {
    var i := IndexOf(s, k);
    if i < |s| then Some(s[i].value) else None
  }

  // A present key keeps its position; a new one goes to the front, and a full list loses its back.
  function Installed<K(==), V>(s: seq<Entry<K, V>>, capacity: nat, e: Entry<K, V>): seq<Entry<K, V>>
    requires capacity > 0
  {
    var i := IndexOf(s, e.key);
    if i < |s| then s[i := e]
    else [e] + (if |s| == capacity then s[..|s| - 1] else s)
  }

  // The list after a run of installs; lookups change nothing.
  function After<K(==), V>(ops: seq<Entry<K, V>>, capacity: nat): seq<Entry<K, V>>
    requires capacity > 0
  {
    if ops == [] then [] else Installed(After(ops[..|ops| - 1], capacity), capacity, ops[|ops| - 1])
  }

  // The bounded FIFO it should be. Keys in order of insertion: a key is inserted when it is not
  // among the last `capacity` insertions.
  function Inserted<K(==), V>(ops: seq<Entry<K, V>>, capacity: nat): seq<K> {
    if ops == [] then [] else
      var before, k := Inserted(ops[..|ops| - 1], capacity), ops[|ops| - 1].key;
      if Recent(before, capacity, k) then before else before + [k]
  }

  // Fewer than `capacity` keys were inserted after k last was.
  predicate Recent<K(==)>(inserted: seq<K>, capacity: nat, k: K) {
    exists p :: 0 <= p < |inserted| && inserted[p] == k && |inserted| - 1 - p < capacity
  }

  // The value of the last install of k.
  function LastValue<K(==), V>(ops: seq<Entry<K, V>>, k: K): Option<V> {
    if ops == [] then None
    else if ops[|ops| - 1].key == k then Some(ops[|ops| - 1].value)
    else LastValue(ops[..|ops| - 1], k)
  }

  ghost predicate Distinct<K(!new), V(!new)>(s: seq<Entry<K, V>>) {
    forall i, j | 0 <= i < j < |s| :: s[i].key != s[j].key
  }

  // The list holds the last `capacity` keys inserted, newest first.
  ghost predicate Mirrors<K(!new), V(!new)>(s: seq<Entry<K, V>>, keys: seq<K>, capacity: nat) {
    && |s| == (if |keys| < capacity then |keys| else capacity)
    && Distinct(s)
    && forall i | 0 <= i < |s| :: s[i].key == keys[|keys| - 1 - i]
  }

  lemma ListedIsRecent<K(!new), V(!new)>(s: seq<Entry<K, V>>, keys: seq<K>, capacity: nat, k: K)
    requires Mirrors(s, keys, capacity)
    ensures IndexOf(s, k) < |s| <==> Recent(keys, capacity, k)
  {
    var i := IndexOf(s, k);
    if i < |s| {
      assert keys[|keys| - 1 - i] == k;
    }
    if Recent(keys, capacity, k) {
      var p :| 0 <= p < |keys| && keys[p] == k && |keys| - 1 - p < capacity;
      assert s[|keys| - 1 - p].key == k;
    }
  }

  lemma InstallMirrors<K(!new), V(!new)>(s: seq<Entry<K, V>>, keys: seq<K>, capacity: nat, e: Entry<K, V>)
    requires capacity > 0 && Mirrors(s, keys, capacity)
    ensures Mirrors(Installed(s, capacity, e), if Recent(keys, capacity, e.key) then keys else keys + [e.key], capacity)
  {
    ListedIsRecent(s, keys, capacity, e.key);
    hide IndexOf;
  }

  lemma NothingMirrors<K(!new), V(!new)>(capacity: nat)
    ensures Mirrors<K, V>([], [], capacity)
  {}

  // After any run of installs.
  lemma {:induction false} ListIsFifo<K(!new), V(!new)>(ops: seq<Entry<K, V>>, capacity: nat)
    requires capacity > 0
    ensures Mirrors(After(ops, capacity), Inserted(ops, capacity), capacity)
  {
    if ops == [] {
      NothingMirrors<K, V>(capacity);
    } else {
      ListIsFifo(ops[..|ops| - 1], capacity);
      InstallMirrors(After(ops[..|ops| - 1], capacity), Inserted(ops[..|ops| - 1], capacity), capacity, ops[|ops| - 1]);
    }
  }

  lemma InstalledHas<K(!new), V(!new)>(s: seq<Entry<K, V>>, capacity: nat, e: Entry<K, V>, x: Entry<K, V>)
    requires capacity > 0 && Distinct(s) && x in Installed(s, capacity, e)
    ensures if x.key == e.key then x == e else x in s
  {}

  lemma {:induction false} ValuesAreLast<K(!new), V(!new)>(ops: seq<Entry<K, V>>, capacity: nat, x: Entry<K, V>)
    requires capacity > 0 && x in After(ops, capacity)
    ensures LastValue(ops, x.key) == Some(x.value)
  {
    if ops != [] {
      var rest, e := ops[..|ops| - 1], ops[|ops| - 1];
      ListIsFifo(rest, capacity);
      InstalledHas(After(rest, capacity), capacity, e, x);
      if x.key != e.key {
        ValuesAreLast(rest, capacity, x);
      }
    }
  }

  // A lookup gives the last value installed, unless `capacity` newer keys were inserted since.
  lemma LookupIsLastInstalled<K(!new), V(!new)>(ops: seq<Entry<K, V>>, capacity: nat, k: K)
    requires capacity > 0
    ensures Found(After(ops, capacity), k)
         == if Recent(Inserted(ops, capacity), capacity, k) then LastValue(ops, k) else None
    ensures Recent(Inserted(ops, capacity), capacity, k) ==> LastValue(ops, k).Some?
  {
    var s := After(ops, capacity);
    ListIsFifo(ops, capacity);
    ListedIsRecent(s, Inserted(ops, capacity), capacity, k);
    if IndexOf(s, k) < |s| {
      ValuesAreLast(ops, capacity, s[IndexOf(s, k)]);
    }
  }

  lemma InstalledCases<K(!new), V(!new)>(s: seq<Entry<K, V>>, capacity: nat, e: Entry<K, V>)
    requires capacity > 0
    ensures var i := IndexOf(s, e.key);
            Installed(s, capacity, e) ==
            if i < |s| then s[i := e] else if |s| == capacity then [e] + s[..|s| - 1] else [e] + s
  {}

  // A list node; iterators into the list are references to it.
  class Node<K, V> {
    const key: K
    var value: V

    constructor (k: K, v: V)
      ensures key == k && value == v
    {
      key, value := k, v;
    }
  }

  ghost function View<K, V>(nodes: seq<Node<K, V>>): (s: seq<Entry<K, V>>)
    reads nodes
    ensures |s| == |nodes| && forall i | 0 <= i < |s| :: s[i] == Entry(nodes[i].key, nodes[i].value)
  {
    if nodes == [] then [] else [Entry(nodes[0].key, nodes[0].value)] + View(nodes[1..])
  }

  // The map has exactly the listed nodes, under their keys, and no key twice.
  ghost predicate Linked<K(!new), V(!new)>(list: seq<Node<K, V>>, nodes: map<K, Node<K, V>>) {
    && (forall i, j | 0 <= i < j < |list| :: list[i].key != list[j].key)
    && (forall i | 0 <= i < |list| :: list[i].key in nodes && nodes[list[i].key] == list[i])
    && (forall k | k in nodes :: nodes[k].key == k && nodes[k] in list)
  }

  lemma LinkedWithoutBack<K(!new), V(!new)>(list: seq<Node<K, V>>, nodes: map<K, Node<K, V>>)
    requires Linked(list, nodes) && |list| > 0
    ensures Linked(list[..|list| - 1], nodes - {list[|list| - 1].key})
  {
    var back := |list| - 1;
    forall k | k in nodes && k != list[back].key
      ensures nodes[k] in list[..back]
    {
      var i :| 0 <= i < |list| && list[i] == nodes[k];
      assert list[..back][i] == nodes[k];
    }
  }

  lemma LinkedWithFront<K(!new), V(!new)>(list: seq<Node<K, V>>, nodes: map<K, Node<K, V>>, n: Node<K, V>)
    requires Linked(list, nodes) && n.key !in nodes
    ensures Linked([n] + list, nodes[n.key := n])
  {}

  lemma LinkedAgree<K(!new), V(!new)>(list: seq<Node<K, V>>, nodes: map<K, Node<K, V>>, k: K)
    requires Linked(list, nodes)
    ensures k in nodes <==> IndexOf(View(list), k) < |list|
    ensures k in nodes ==> nodes[k] == list[IndexOf(View(list), k)]
  {
    if k in nodes {
      var i :| 0 <= i < |list| && list[i] == nodes[k];
      assert View(list)[i].key == k;
    }
  }

  class LruCache<K(!new, ==), V(!new)> {
    const capacity: nat
    var list: seq<Node<K, V>>
    var nodes: map<K, Node<K, V>>

    ghost predicate Valid()
      reads this
    {
      0 < capacity && |list| <= capacity && Linked(list, nodes)
    }

    ghost function Contents(): seq<Entry<K, V>>
      reads this, list
    {
      View(list)
    }

    // The source accepts 0 too, but then the first install has no back to drop.
    constructor (entries: nat)
      requires entries > 0
      ensures Valid() && Contents() == [] && capacity == entries
    {
      capacity, list, nodes := entries, [], map[];
    }

    // The result points into the list.
    method Lookup(k: K) returns (n: Node?<K, V>)
      requires Valid()
      ensures (if n == null then None else Some(n.value)) == Found(Contents(), k)
      ensures n != null ==> n.key == k && n in list
    {
      LinkedAgree(list, nodes, k);
      n := if k !in nodes then null else nodes[k];
    }

    method Install(k: K, v: V)
      requires Valid()
      modifies this, list
      ensures Valid() && Contents() == Installed(old(Contents()), capacity, Entry(k, v))
      ensures forall n | n in list :: n in old(list) || fresh(n)
    {
      hide Installed;
      LinkedAgree(list, nodes, k);
      InstalledCases(Contents(), capacity, Entry(k, v));
      if k in nodes {
        SetValue(IndexOf(Contents(), k), k, v);
      } else {
        if |list| == capacity {
          DropBack();
        }
        PushFront(k, v);
      }
    }

    // Through the iterator the map holds.
    method SetValue(ghost i: nat, k: K, v: V)
      requires Valid() && k in nodes && i < |list| && nodes[k] == list[i]
      modifies list
      ensures Contents() == old(Contents())[i := Entry(k, v)]
    {
      nodes[k].value := v;
    }

    method DropBack()
      requires Valid() && |list| > 0
      modifies this
      ensures Valid() && |list| == |old(list)| - 1 && list == old(list)[..|list|] && nodes.Keys < old(nodes).Keys
      ensures Contents() == old(Contents())[..|list|]
    {
      LinkedWithoutBack(list, nodes);
      nodes := nodes - {list[|list| - 1].key};
      list := list[..|list| - 1];
    }

    method PushFront(k: K, v: V)
      requires Valid() && k !in nodes && |list| < capacity
      modifies this
      ensures Valid() && |list| == |old(list)| + 1 && list[1..] == old(list) && fresh(list[0])
      ensures Contents() == [Entry(k, v)] + old(Contents())
    {
      hide Linked;
      var n := new Node(k, v);
      LinkedWithFront(list, nodes, n);
      list, nodes := [n] + list, nodes[k := n];
      assert list[1..] == old(list);
    }
  }
}
