/**
 * The FIFO `Queue` of the user queue script: a chain of nodes from `front`
 * to `rear`, with enqueue, dequeue, peek, length, indexing, iteration and
 * an in-place bubble sort over the nodes' data.
 *
 * As in the linked list, the queue keeps a ghost view: `nodes`, the chain
 * from `front`, and `Contents`, the items from front to rear. `rear` is only
 * tied to the chain while the queue holds items: once the queue has been
 * drained, `front` is null and `rear` still names the last node dequeued.
 */
module UserQueue {
  import opened Wrappers
  import opened Sequences
  import StringOrder

  class QueueNode<T> {
    var data: T
    var next: QueueNode?<T>

    constructor (data: T)
      ensures this.data == data && next == null
    {
      this.data := data;
      next := null;
    }
  }

  /** The sentinel string `dequeue`, `peek` and `sort_by_value` return on an empty queue. */
  const EmptyMessage: string := "The queue is empty"

  /** What `dequeue` and `peek` return: an item, or the sentinel string. */
  datatype Answer<T> = Item(value: T) | QueueEmpty(message: string)

  ghost predicate DistinctNodes<T>(ns: seq<QueueNode<T>>) {
    forall k, l | 0 <= k < l < |ns| :: ns[k] != ns[l]
  }

  class Queue<T(==)> {
    var front: QueueNode?<T>
    var rear: QueueNode?<T>

    ghost var nodes: seq<QueueNode<T>>
    ghost var Contents: seq<T>
    ghost var Repr: set<object>

    /** `nodes` is the acyclic chain from `front` to null; while it is not
        empty, `rear` is its last node. */
    ghost predicate Valid()
      reads this, Repr
    {
      && this in Repr
      && (forall k | 0 <= k < |nodes| :: nodes[k] in Repr)
      && front == (if nodes == [] then null else nodes[0])
      && (nodes != [] ==> rear == nodes[|nodes| - 1])
      && (forall k {:trigger nodes[k].next} | 0 <= k < |nodes| - 1 :: nodes[k].next == nodes[k + 1])
      && (nodes != [] ==> nodes[|nodes| - 1].next == null)
      && DistinctNodes(nodes)
      && |Contents| == |nodes|
      && (forall k | 0 <= k < |nodes| :: Contents[k] == nodes[k].data)
    }

    constructor ()
      ensures Valid() && fresh(Repr)
      ensures Contents == [] && nodes == [] && front == null && rear == null
    {
      front := null;
      rear := null;
      nodes := [];
      Contents := [];
      Repr := {this};
    }

    /** `enqueue`: the new node becomes the rear. The test is on `front` as
        well as `rear`, so a drained queue with a stale `rear` starts a new
        chain. */
    method Enqueue(data: T)
      requires Valid()
      modifies Repr
      ensures Valid() && fresh(Repr - old(Repr))
      ensures Contents == old(Contents) + [data]
      ensures |nodes| == |old(nodes)| + 1 && nodes[..|old(nodes)|] == old(nodes)
      ensures front != null && rear != null
    {
      var newNode := new QueueNode(data);
      if front == null || rear == null {
        front := newNode;
        rear := newNode;
        nodes := [newNode];
        Contents := [data];
      } else {
        rear.next := newNode;
        rear := newNode;
        nodes := nodes + [newNode];
        Contents := Contents + [data];
      }
      Repr := Repr + {newNode};
    }

    /** `dequeue`: the front item, with `front` moved to the next node; on
        an empty queue the sentinel, and nothing changes. `rear` is never
        touched. */
    method Dequeue() returns (r: Answer<T>)
      requires Valid()
      modifies this
      ensures Valid() && Repr == old(Repr) && rear == old(rear)
      ensures old(Contents) == [] ==> r == QueueEmpty(EmptyMessage) && unchanged(this)
      ensures old(Contents) != [] ==>
        r == Item(old(Contents)[0]) && Contents == old(Contents)[1..] && nodes == old(nodes)[1..]
    {
      if front == null {
        return QueueEmpty(EmptyMessage);
      }
      var data := front.data;
      front := front.next;
      nodes := nodes[1..];
      Contents := Contents[1..];
      r := Item(data);
    }

    /** `peek`: the front item without removing it, or the sentinel. */
    method Peek() returns (r: Answer<T>)
      requires Valid()
      ensures Contents == [] ==> r == QueueEmpty(EmptyMessage)
      ensures Contents != [] ==> r == Item(Contents[0])
    {
      if front == null {
        return QueueEmpty(EmptyMessage);
      }
      r := Item(front.data);
    }

    /** `__len__`: the number of nodes reachable from `front`. */
    method Len() returns (count: nat)
      requires Valid()
      ensures count == |Contents|
    {
      count := 0;
      var current := front;
      while current != null
        invariant count <= |nodes|
        invariant current == if count < |nodes| then nodes[count] else null
        decreases |nodes| - count
      {
        assert current.next == if count + 1 < |nodes| then nodes[count + 1] else null;
        count := count + 1;
        current := current.next;
      }
    }

    /** `__getitem__`: IndexError outside [0, len), otherwise the item
        reached after `index` steps from `front`. */
    method GetItem(index: int) returns (r: Result<T>)
      requires Valid()
      ensures index < 0 || index >= |Contents| ==> r == Err(IndexError)
      ensures 0 <= index < |Contents| ==> r == Ok(Contents[index])
    {
      var n := Len();
      if index < 0 || index >= n {
        return Err(IndexError);
      }
      var current := front;
      var i := 0;
      while i < n && i != index
        invariant 0 <= i <= index
        invariant current == nodes[i]
      {
        current := current.next;
        i := i + 1;
      }
      r := Ok(current.data);
    }

    /** `__iter__`: the items from `front` to the end of the chain. */
    method Iterate() returns (items: seq<T>)
      requires Valid()
      ensures items == Contents
    {
      items := [];
      var current := front;
      while current != null
        invariant |items| <= |nodes|
        invariant items == Contents[..|items|]
        invariant current == if |items| < |nodes| then nodes[|items|] else null
        decreases |nodes| - |items|
      {
        items := items + [current.data];
        current := current.next;
      }
    }

    /** `sort_by_value`: bubble sort by `key`, exchanging the data of two
        adjacent nodes whenever the first key is greater, until a pass
        makes no exchange. The nodes and their links stay as they are. On
        an empty queue it returns the sentinel, otherwise nothing.

        `key` stands for reading the named attribute of an item and `gt`
        for Python's `>` on the attribute values; asymmetry of `gt` is all
        the loop needs to end. */
    method SortByValue<K(!new)>(key: T -> K, gt: (K, K) -> bool) returns (r: Option<string>, ghost perm: seq<nat>)
      requires Valid() && Asymmetric(gt)
      modifies Repr
      ensures Valid() && Repr == old(Repr) && nodes == old(nodes)
      ensures front == old(front) && rear == old(rear)
      ensures r == if old(Contents) == [] then Some(EmptyMessage) else None
      ensures Rearranged(old(Contents), Contents, perm) && multiset(Contents) == multiset(old(Contents))
      ensures AdjacentSorted(Contents, key, gt)
      ensures Stable(Contents, perm, key, gt)
    {
      perm := Identity(|Contents|);
      ghost var original := Contents;
      if front == null {
        return Some(EmptyMessage), perm;
      }
      while true
        invariant Valid() && Repr == old(Repr) && nodes == old(nodes)
        invariant front == old(front) && rear == old(rear) && nodes != []
        invariant Rearranged(original, Contents, perm) && Stable(Contents, perm, key, gt)
        invariant multiset(Contents) == multiset(original)
        decreases Inversions(Contents, key, gt)
      {
        var swapped;
        swapped, perm := BubblePass(key, gt, original, perm);
        if !swapped {
          break;
        }
      }
      r := None;
    }

    /** One pass of `sort_by_value` from `front` to the last node; `swapped`
        tells whether it exchanged anything. */
    method BubblePass<K(!new)>(key: T -> K, gt: (K, K) -> bool, ghost original: seq<T>, ghost perm0: seq<nat>)
      returns (swapped: bool, ghost perm: seq<nat>)
      requires Valid() && Asymmetric(gt) && nodes != []
      requires Rearranged(original, Contents, perm0) && Stable(Contents, perm0, key, gt)
      modifies Repr
      ensures Valid() && Repr == old(Repr) && nodes == old(nodes)
      ensures front == old(front) && rear == old(rear)
      ensures Rearranged(original, Contents, perm) && Stable(Contents, perm, key, gt)
      ensures multiset(Contents) == multiset(old(Contents))
      ensures !swapped ==> Contents == old(Contents) && AdjacentSorted(Contents, key, gt)
      ensures swapped ==> Inversions(Contents, key, gt) < Inversions(old(Contents), key, gt)
    {
      perm := perm0;
      swapped := false;
      var current := front;
      ghost var i: nat := 0;
      while current != null && current.next != null
        invariant Valid() && Repr == old(Repr) && nodes == old(nodes)
        invariant front == old(front) && rear == old(rear)
        invariant i < |nodes| && current == nodes[i]
        invariant Rearranged(original, Contents, perm) && Stable(Contents, perm, key, gt)
        invariant multiset(Contents) == multiset(old(Contents))
        invariant !swapped ==> Contents == old(Contents)
        invariant !swapped ==> forall k | 0 <= k < i :: !gt(key(Contents[k]), key(Contents[k + 1]))
        invariant swapped ==> Inversions(Contents, key, gt) < Inversions(old(Contents), key, gt)
        decreases |nodes| - i
      {
        if gt(key(current.data), key(current.next.data)) {
          perm := SwapStep(key, gt, original, perm, current, i);
          swapped := true;
        }
        current := current.next;
        i := i + 1;
      }
    }

    /** An exchange of two adjacent items out of order: one inversion
        fewer, and the order of equal keys is kept. */
    method SwapStep<K(!new)>(key: T -> K, gt: (K, K) -> bool, ghost original: seq<T>, ghost perm0: seq<nat>,
                             current: QueueNode<T>, ghost i: nat)
      returns (ghost perm: seq<nat>)
      requires Valid() && Asymmetric(gt) && i + 1 < |nodes| && current == nodes[i]
      requires gt(key(Contents[i]), key(Contents[i + 1]))
      requires Rearranged(original, Contents, perm0) && Stable(Contents, perm0, key, gt)
      modifies this, nodes[i], nodes[i + 1]
      ensures Valid() && Repr == old(Repr) && nodes == old(nodes)
      ensures front == old(front) && rear == old(rear)
      ensures Contents == SwapAt(old(Contents), i, i + 1)
      ensures Rearranged(original, Contents, perm) && Stable(Contents, perm, key, gt)
      ensures Inversions(Contents, key, gt) + 1 == Inversions(old(Contents), key, gt)
    {
      InversionsSwap(Contents, i, key, gt);
      SwapKeepsStable(original, Contents, perm0, i, key, gt);
      SwapData(current, i);
      perm := SwapAt(perm0, i, i + 1);
    }

    /** The tuple assignment of `sort_by_value`: the items of the nodes at
        `i` and `i + 1` change places. */
    method SwapData(current: QueueNode<T>, ghost i: nat)
      requires Valid() && i + 1 < |nodes| && current == nodes[i]
      modifies this, nodes[i], nodes[i + 1]
      ensures Valid() && Repr == old(Repr) && nodes == old(nodes)
      ensures front == old(front) && rear == old(rear)
      ensures Contents == SwapAt(old(Contents), i, i + 1)
    {
      current.data, current.next.data := current.next.data, current.data;
      Contents := SwapAt(Contents, i, i + 1);
    }
  }

  // --- the specification of the sort -------------------------------------

  ghost predicate Asymmetric<K(!new)>(gt: (K, K) -> bool) {
    forall a, b :: gt(a, b) ==> !gt(b, a)
  }

  /** "Not greater" is transitive, as it is for Python's `>` on numbers and strings. */
  ghost predicate NegativelyTransitive<K(!new)>(gt: (K, K) -> bool) {
    forall a, b, c :: !gt(a, b) && !gt(b, c) ==> !gt(a, c)
  }

  /** No item is directly followed by one with a smaller key. */
  ghost predicate AdjacentSorted<T, K>(s: seq<T>, key: T -> K, gt: (K, K) -> bool) {
    forall k | 0 <= k < |s| - 1 :: !gt(key(s[k]), key(s[k + 1]))
  }

  /** No item is followed, anywhere later, by one with a smaller key. */
  ghost predicate Sorted<T, K>(s: seq<T>, key: T -> K, gt: (K, K) -> bool) {
    forall k, l | 0 <= k < l < |s| :: !gt(key(s[k]), key(s[l]))
  }

  /** `t` is `s` with its positions permuted: `t[k]` is `s[perm[k]]` and
      every position of `s` is used once. */
  ghost predicate Rearranged<T>(s: seq<T>, t: seq<T>, perm: seq<nat>) {
    && |t| == |s| && |perm| == |s|
    && (forall k | 0 <= k < |perm| :: perm[k] < |s| && t[k] == s[perm[k]])
    && (forall k, l | 0 <= k < l < |perm| :: perm[k] != perm[l])
  }

  /** Two items end up in the opposite of their original order only if the
      one that came first has the strictly greater key; items whose keys
      are not ordered keep their order. */
  ghost predicate Stable<T, K>(t: seq<T>, perm: seq<nat>, key: T -> K, gt: (K, K) -> bool)
    requires |perm| == |t|
  {
    forall k, l | 0 <= k < l < |t| && perm[k] > perm[l] :: gt(key(t[l]), key(t[k]))
  }

  function Identity(n: nat): (perm: seq<nat>)
    ensures |perm| == n && forall k | 0 <= k < n :: perm[k] == k
  {
    if n == 0 then [] else Identity(n - 1) + [n - 1]
  }

  /** The number of items of `s` with a smaller key than `x`. */
  function GreaterCount<T, K>(x: T, s: seq<T>, key: T -> K, gt: (K, K) -> bool): nat {
    if s == [] then 0
    else (if gt(key(x), key(s[0])) then 1 else 0) + GreaterCount(x, s[1..], key, gt)
  }

  /** The number of pairs of positions whose keys are out of order. */
  function Inversions<T, K>(s: seq<T>, key: T -> K, gt: (K, K) -> bool): nat {
    if s == [] then 0 else GreaterCount(s[0], s[1..], key, gt) + Inversions(s[1..], key, gt)
  }

  lemma {:induction false} GreaterCountSwap<T, K>(x: T, s: seq<T>, i: nat, key: T -> K, gt: (K, K) -> bool)
    requires i + 1 < |s|
    ensures GreaterCount(x, SwapAt(s, i, i + 1), key, gt) == GreaterCount(x, s, key, gt)
  {
    var t := SwapAt(s, i, i + 1);
    if i == 0 {
      assert t[1..][1..] == s[1..][1..] == s[2..];
      assert t[1..][0] == s[0] && s[1..][0] == s[1];
    } else {
      assert t[1..] == SwapAt(s[1..], i - 1, i);
      GreaterCountSwap(x, s[1..], i - 1, key, gt);
    }
  }

  /** Exchanging an adjacent pair that is out of order removes exactly one
      inversion, so every exchange of the sort brings it closer to its end. */
  lemma {:induction false} InversionsSwap<T, K(!new)>(s: seq<T>, i: nat, key: T -> K, gt: (K, K) -> bool)
    requires i + 1 < |s| && Asymmetric(gt) && gt(key(s[i]), key(s[i + 1]))
    ensures Inversions(SwapAt(s, i, i + 1), key, gt) + 1 == Inversions(s, key, gt)
  {
    var t := SwapAt(s, i, i + 1);
    if i == 0 {
      assert t[1..][1..] == s[1..][1..] == s[2..];
      assert t[1..][0] == s[0] && s[1..][0] == s[1];
      assert !gt(key(s[1]), key(s[0]));
    } else {
      assert t[1..] == SwapAt(s[1..], i - 1, i);
      InversionsSwap(s[1..], i - 1, key, gt);
      GreaterCountSwap(s[0], s[1..], i - 1, key, gt);
    }
  }

  /** Exchanging an adjacent pair that is out of order keeps the result a
      stable rearrangement of the original. */
  lemma SwapKeepsStable<T, K>(s: seq<T>, t: seq<T>, perm: seq<nat>, i: nat, key: T -> K, gt: (K, K) -> bool)
    requires Rearranged(s, t, perm) && Stable(t, perm, key, gt)
    requires i + 1 < |t| && gt(key(t[i]), key(t[i + 1]))
    ensures Rearranged(s, SwapAt(t, i, i + 1), SwapAt(perm, i, i + 1))
    ensures Stable(SwapAt(t, i, i + 1), SwapAt(perm, i, i + 1), key, gt)
  {
    var t', perm' := SwapAt(t, i, i + 1), SwapAt(perm, i, i + 1);
    forall k, l | 0 <= k < l < |perm'|
      ensures perm'[k] != perm'[l]
      ensures perm'[k] > perm'[l] ==> gt(key(t'[l]), key(t'[k]))
    {
      var k' := if k == i then i + 1 else if k == i + 1 then i else k;
      var l' := if l == i then i + 1 else if l == i + 1 then i else l;
      assert perm'[k] == perm[k'] && perm'[l] == perm[l'] && t'[k] == t[k'] && t'[l] == t[l'];
      if k' > l' {
        assert k == i && l == i + 1;
      }
    }
  }

  /** Once no adjacent pair is out of order, no pair is, when "not greater"
      is transitive. */
  lemma {:induction false} AdjacentSortedIsSorted<T, K(!new)>(s: seq<T>, key: T -> K, gt: (K, K) -> bool)
    requires AdjacentSorted(s, key, gt) && NegativelyTransitive(gt)
    ensures Sorted(s, key, gt)
  {
    if |s| > 1 {
      AdjacentSortedIsSorted(s[1..], key, gt);
      forall l | 1 < l < |s|
        ensures !gt(key(s[0]), key(s[l]))
      {
        assert !gt(key(s[0]), key(s[1])) && !gt(key(s[1..][0]), key(s[1..][l - 1]));
      }
      forall k, l | 0 <= k < l < |s|
        ensures !gt(key(s[k]), key(s[l]))
      {
        if k > 0 {
          assert s[k] == s[1..][k - 1] && s[l] == s[1..][l - 1];
        }
      }
    }
  }

  // --- the element record and the orders the script sorts by -------------

  /** The record the script queues. */
  datatype User = User(name: string, age: int)

  predicate IntGreater(a: int, b: int) {
    a > b
  }

  predicate StringGreater(a: string, b: string) {
    StringOrder.Less(b, a)
  }

  /** Python's `>` on the two attribute types the script sorts by meets
      what the sort asks of `gt`, and makes adjacent order total order. */
  lemma PythonOrdersFit()
    ensures Asymmetric(IntGreater) && NegativelyTransitive(IntGreater)
    ensures Asymmetric(StringGreater) && NegativelyTransitive(StringGreater)
  {
    forall a, b | StringGreater(a, b)
      ensures !StringGreater(b, a)
    {
      StringOrder.LessAsymmetric(b, a);
    }
    forall a, b, c | !StringGreater(a, b) && !StringGreater(b, c)
      ensures !StringGreater(a, c)
    {
      StringOrder.NotLessTransitive(c, b, a);
    }
  }

  // --- whole-queue behaviour ------------------------------------------------

  /** Items enqueued one after the other come out of `dequeue` in the same
      order, and the sentinel follows the last one. */
  method FifoOrder<T(==)>(xs: seq<T>) returns (ys: seq<T>, last: Answer<T>)
    ensures ys == xs && last == QueueEmpty(EmptyMessage)
  {
    var q := FromItems(xs);
    ys, last := DrainAll(q);
  }

  /** A queue built by enqueuing `xs` one after the other. */
  method FromItems<T(==)>(xs: seq<T>) returns (q: Queue<T>)
    ensures q.Valid() && fresh(q.Repr) && q.Contents == xs
  {
    q := new Queue<T>();
    for i := 0 to |xs|
      invariant q.Valid() && fresh(q.Repr) && q.Contents == xs[..i]
    {
      q.Enqueue(xs[i]);
    }
    assert xs[..|xs|] == xs;
  }

  /** Dequeuing until the sentinel appears yields the contents in order. */
  method DrainAll<T(==)>(q: Queue<T>) returns (ys: seq<T>, last: Answer<T>)
    requires q.Valid()
    modifies q
    ensures q.Valid() && q.Contents == [] && ys == old(q.Contents) && last == QueueEmpty(EmptyMessage)
  {
    ys := [];
    last := q.Dequeue();
    while last.Item?
      invariant q.Valid() && q.Repr == old(q.Repr)
      invariant last.Item? ==> ys + [last.value] + q.Contents == old(q.Contents)
      invariant last.QueueEmpty? ==> q.Contents == [] && ys == old(q.Contents) && last == QueueEmpty(EmptyMessage)
      decreases |q.Contents|, last.Item?
    {
      ys := ys + [last.value];
      last := q.Dequeue();
    }
  }

  /** Draining a queue leaves `rear` on the old node; the next `enqueue`
      still starts a fresh chain and `peek` sees only the new item. */
  method DrainThenEnqueue<T(==)>(x: T, y: T) returns (staleRear: bool, first: Answer<T>, size: nat)
    ensures staleRear && first == Item(y) && size == 1
  {
    var q := new Queue<T>();
    q.Enqueue(x);
    var _ := q.Dequeue();
    staleRear := q.front == null && q.rear != null;
    q.Enqueue(y);
    first := q.Peek();
    size := q.Len();
  }

  /** The script's use of the sort: users ordered by age, as a permutation
      of the input in which users of equal age keep their order. */
  method SortUsersByAge(users: seq<User>) returns (sorted: seq<User>, ghost perm: seq<nat>)
    ensures Rearranged(users, sorted, perm) && multiset(sorted) == multiset(users)
    ensures Sorted(sorted, (u: User) => u.age, IntGreater)
    ensures Stable(sorted, perm, (u: User) => u.age, IntGreater)
  {
    var q := FromItems(users);
    PythonOrdersFit();
    var r;
    r, perm := q.SortByValue((u: User) => u.age, IntGreater);
    sorted := q.Iterate();
    AdjacentSortedIsSorted(sorted, (u: User) => u.age, IntGreater);
  }

  /** The script's second use of the sort: users ordered by name, by
      Python's string order, equal names keeping their order. */
  method SortUsersByName(users: seq<User>) returns (sorted: seq<User>, ghost perm: seq<nat>)
    ensures Rearranged(users, sorted, perm) && multiset(sorted) == multiset(users)
    ensures Sorted(sorted, (u: User) => u.name, StringGreater)
    ensures Stable(sorted, perm, (u: User) => u.name, StringGreater)
  {
    var q := FromItems(users);
    PythonOrdersFit();
    var r;
    r, perm := q.SortByValue((u: User) => u.name, StringGreater);
    sorted := q.Iterate();
    AdjacentSortedIsSorted(sorted, (u: User) => u.name, StringGreater);
  }
}
