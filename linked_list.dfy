/**
 * A singly linked list of integers rooted at `head`, with the operations of
 * the `SinglyLinkedList` class: length, indexing, iteration, append, the
 * digit-reversing concatenation, swapping the first nodes holding two
 * values, the n-th item from the end and the middle item.
 *
 * The list keeps a ghost view: `nodes`, the chain of nodes from `head`, and
 * `Contents`, the items in iteration order.
 */
module SinglyLinked {
  import opened Wrappers
  import opened Sequences

  class Node {
    var data: int
    var next: Node?

    constructor (data: int)
      ensures this.data == data && next == null
    {
      this.data := data;
      next := null;
    }
  }

  /** The right operand of `+`: another list, or any other Python object. */
  datatype Operand = ListOperand(list: SinglyLinkedList) | OtherObject

  class SinglyLinkedList {
    var head: Node?

    ghost var nodes: seq<Node>
    ghost var Contents: seq<int>
    ghost var Repr: set<object>

    /** `nodes` is the acyclic chain that starts at `head` and ends in null. */
    ghost predicate Valid()
      reads this, Repr
    {
      && this in Repr
      && (forall k | 0 <= k < |nodes| :: nodes[k] in Repr)
      && head == (if nodes == [] then null else nodes[0])
      && (forall k {:trigger nodes[k].next} | 0 <= k < |nodes| - 1 :: nodes[k].next == nodes[k + 1])
      && (nodes != [] ==> nodes[|nodes| - 1].next == null)
      && Distinct(nodes)
      && |Contents| == |nodes|
      && (forall k | 0 <= k < |nodes| :: Contents[k] == nodes[k].data)
    }

    constructor ()
      ensures Valid() && fresh(Repr)
      ensures Contents == [] && nodes == []
    {
      head := null;
      nodes := [];
      Contents := [];
      Repr := {this};
    }

    /** `__iter__`: the items met walking the chain from `head` to the end. */
    method Iterate() returns (items: seq<int>)
      requires Valid()
      ensures items == Contents
    {
      items := [];
      var current := head;
      while current != null
        invariant |items| <= |nodes|
        invariant items == Contents[..|items|]
        invariant current == if |items| < |nodes| then nodes[|items|] else null
        decreases |nodes| - |items|
      {
        items := items + [current.data];
        current := current.next;
      }
    }

    /** `__len__`: the number of nodes reachable from `head`. */
    method Len() returns (count: nat)
      requires Valid()
      ensures count == |Contents|
    {
      count := 0;
      var current := head;
      while current != null
        invariant count <= |nodes|
        invariant current == if count < |nodes| then nodes[count] else null
        decreases |nodes| - count
      {
        assert current.next == if count + 1 < |nodes| then nodes[count + 1] else null;
        count := count + 1;
        current := current.next;
      }
    }

    /** `__getitem__`: the item at `position`, or IndexError outside [0, len). */
    method GetItem(position: int) returns (r: Result<int>)
      requires Valid()
      ensures position < 0 || position >= |Contents| ==> r == Err(IndexError)
      ensures 0 <= position < |Contents| ==> r == Ok(Contents[position])
    {
      var n := Len();
      if position < 0 || position >= n {
        return Err(IndexError);
      }
      var current := head;
      var i := 0;
      while i < n && i != position
        invariant 0 <= i <= position
        invariant current == nodes[i]
      {
        current := current.next;
        i := i + 1;
      }
      r := Ok(current.data);
    }

    /** `__add__`: the sum of both reversed concatenations; TypeError unless
        the right operand is a list. The left operand is evaluated first. */
    method Add(other: Operand) returns (r: Result<int>)
      requires Valid()
      requires other.ListOperand? ==> other.list.Valid()
      ensures other.OtherObject? ==> r == Err(TypeError)
      ensures other.ListOperand? ==>
        var left, right := ReversedConcatenation(Contents), ReversedConcatenation(other.list.Contents);
        r == if left.Err? then left else if right.Err? then right else Ok(left.value + right.value)
    {
      if other.OtherObject? {
        return Err(TypeError);
      }
      var left := ConcatenateNumbersReversed();
      assert left == ReversedConcatenation(Contents);
      if left.Err? {
        return left;
      }
      var right := other.list.ConcatenateNumbersReversed();
      assert right == ReversedConcatenation(other.list.Contents);
      if right.Err? {
        return right;
      }
      r := Ok(left.value + right.value);
    }

    /** `append`: link a new node after the last one. */
    method Append(data: int)
      requires Valid()
      modifies Repr
      ensures Valid() && fresh(Repr - old(Repr))
      ensures Contents == old(Contents) + [data]
      ensures |nodes| == |old(nodes)| + 1 && nodes[..|old(nodes)|] == old(nodes)
      ensures fresh(nodes[|nodes| - 1])
      ensures forall k | 0 <= k < |old(nodes)| :: nodes[k].data == old(nodes[k].data)
    {
      var newNode := new Node(data);
      if head == null {
        head := newNode;
        nodes, Contents, Repr := [newNode], [data], Repr + {newNode};
        return;
      }
      var last := head;
      ghost var k := 0;
      while last.next != null
        invariant 0 <= k < |nodes| && last == nodes[k]
        invariant last.next == if k + 1 < |nodes| then nodes[k + 1] else null
        modifies {}
        decreases |nodes| - k
      {
        last := last.next;
        k := k + 1;
      }
      last.next := newNode;
      nodes, Contents, Repr := nodes + [newNode], Contents + [data], Repr + {newNode};
    }

    /** `concatenate_numbers_reversed`: Python's `int` applied to the items'
        `str` forms joined in reverse order. */
    method ConcatenateNumbersReversed() returns (r: Result<int>)
      requires Valid()
      ensures r == ReversedConcatenation(Contents)
      ensures r.Err? <==> |Contents| == 0 || exists k :: 0 <= k < |Contents| - 1 && Contents[k] < 0
      ensures |Contents| > 0 && (forall k | 0 <= k < |Contents| :: Contents[k] >= 0) ==>
        r == Ok(ReversedConcatValue(Contents))
    {
      var current := head;
      var values: seq<string> := [];
      while current != null
        invariant |values| <= |nodes|
        invariant values == Strs(Contents[..|values|])
        invariant current == if |values| < |nodes| then nodes[|values|] else null
        decreases |nodes| - |values|
      {
        values := values + [PyStr(current.data)];
        current := current.next;
      }
      assert Contents[..|values|] == Contents;
      r := PyInt(Join(Reverse(values)));
      JoinReversedStrs(Contents);
      ReversedConcatenationErrors(Contents);
      if |Contents| > 0 && forall k | 0 <= k < |Contents| :: Contents[k] >= 0 {
        ReversedConcatenationOfNaturals(Contents);
      }
    }

    /** `swap_by_value`: exchange the first node holding `val1` with the
        first node holding `val2` by relinking `next` pointers. */
    method SwapByValue(val1: int, val2: int)
      requires Valid()
      requires val1 in Contents && val2 in Contents
      modifies Repr
      ensures Valid() && Repr == old(Repr)
      ensures nodes == SwapAt(old(nodes), FirstIndex(old(Contents), val1), FirstIndex(old(Contents), val2))
      ensures Contents == SwapAt(old(Contents), FirstIndex(old(Contents), val1), FirstIndex(old(Contents), val2))
      ensures forall k | 0 <= k < |old(nodes)| :: old(nodes)[k].data == old(nodes[k].data)
    {
      var node1, node1Prev, i := FindFirst(val1);
      var node2, node2Prev, j := FindFirst(val2);
      Relink(node1, node1Prev, node2, node2Prev, i, j);
    }

    /** The pointer updates of `swap_by_value`, for the nodes at positions
        `i` and `j` and the nodes before them (null for the head). */
    method Relink(node1: Node, node1Prev: Node?, node2: Node, node2Prev: Node?, ghost i: nat, ghost j: nat)
      requires Valid()
      requires i < |nodes| && j < |nodes|
      requires node1 == nodes[i] && node1Prev == (if i == 0 then null else nodes[i - 1])
      requires node2 == nodes[j] && node2Prev == (if j == 0 then null else nodes[j - 1])
      modifies Repr
      ensures Valid() && Repr == old(Repr)
      ensures nodes == SwapAt(old(nodes), i, j) && Contents == SwapAt(old(Contents), i, j)
      ensures forall k | 0 <= k < |old(nodes)| :: old(nodes)[k].data == old(nodes[k].data)
    {
      ghost var ns, cs := nodes, Contents;
      if node1Prev == null {
        head := node2;
      } else {
        node1Prev.next := node2;
      }
      if node2Prev == null {
        head := node1;
      } else {
        node2Prev.next := node1;
      }
      // Python's tuple assignment: both right-hand sides first, then the
      // targets from left to right.
      var after1 := node2.next;
      var after2 := node1.next;
      node1.next := after1;
      node2.next := after2;
      SwapRelinks(ns, i, j);
      nodes := SwapAt(ns, i, j);
      Contents := SwapAt(cs, i, j);
      SwappedValid(ns, cs, i, j);
    }

    /** The list is valid again once its ghost view is the swapped chain. */
    lemma SwappedValid(ns: seq<Node>, cs: seq<int>, i: nat, j: nat)
      requires i < |ns| && j < |ns| && |cs| == |ns| && Distinct(ns)
      requires this in Repr && forall k | 0 <= k < |ns| :: ns[k] in Repr && ns[k].data == cs[k]
      requires nodes == SwapAt(ns, i, j) && Contents == SwapAt(cs, i, j)
      requires head == SwapAt(ns, i, j)[0]
      requires forall k {:trigger SwapAt(ns, i, j)[k].next} | 0 <= k < |ns| - 1 ::
        SwapAt(ns, i, j)[k].next == SwapAt(ns, i, j)[k + 1]
      requires SwapAt(ns, i, j)[|ns| - 1].next == null
      ensures Valid()
    {
      SwapKeepsDistinct(ns, i, j);
    }

    /** The search loop of `swap_by_value`: the first node holding `val`
        and the node before it (null for the head). */
    method FindFirst(val: int) returns (node: Node, prev: Node?, ghost i: nat)
      requires Valid()
      requires val in Contents
      ensures i == FirstIndex(Contents, val) && node == nodes[i]
      ensures prev == if i == 0 then null else nodes[i - 1]
    {
      var current := head;
      prev := null;
      i := 0;
      while current != null
        invariant i <= FirstIndex(Contents, val)
        invariant current == nodes[i]
        invariant prev == if i == 0 then null else nodes[i - 1]
        decreases |nodes| - i
      {
        if current.data == val {
          break;
        }
        prev := current;
        current := current.next;
        i := i + 1;
      }
      node := current;
    }

    /** `last_nth`: the n-th item from the end, through the bound check of
        `__getitem__`. */
    method LastNth(n: int) returns (r: Result<int>)
      requires Valid()
      ensures 1 <= n <= |Contents| ==> r == Ok(Contents[|Contents| - n])
      ensures n < 1 || n > |Contents| ==> r == Err(IndexError)
    {
      var end := Len();
      r := GetItem(end - n);
    }

    /** `get_middle`: the lower middle item, index `(len - 1) // 2`; on an
        empty list that index is -1 and the bound check raises IndexError. */
    method GetMiddle() returns (r: Result<int>)
      requires Valid()
      ensures |Contents| == 0 ==> r == Err(IndexError)
      ensures |Contents| > 0 ==> r == Ok(Contents[(|Contents| - 1) / 2])
      ensures |Contents| > 0 ==>
        exists m :: 0 <= m < |Contents| && r == Ok(Contents[m]) && m <= |Contents| - 1 - m <= m + 1
    {
      var n := Len();
      // Dafny's `/` rounds down for a positive divisor, as Python's `//` does.
      var index := (n as int - 1) / 2;
      r := GetItem(index);
    }
  }

  /** The index of the first occurrence of `v` in `s`. */
  function FirstIndex(s: seq<int>, v: int): (r: nat)
    requires v in s
    ensures r < |s| && s[r] == v
    ensures forall k | 0 <= k < r :: s[k] != v
  {
    if s[0] == v then 0 else 1 + FirstIndex(s[1..], v)
  }

  /** Swapping the first occurrences of two equal values changes nothing. */
  lemma SwapSameValue(s: seq<int>, v: int)
    requires v in s
    ensures SwapAt(s, FirstIndex(s, v), FirstIndex(s, v)) == s
  {
  }

  /** No node occurs twice in `ns`. */
  ghost predicate Distinct(ns: seq<Node>) {
    forall k, l | 0 <= k < l < |ns| :: ns[k] != ns[l]
  }

  lemma SwapKeepsDistinct(ns: seq<Node>, i: nat, j: nat)
    requires i < |ns| && j < |ns| && Distinct(ns)
    ensures Distinct(SwapAt(ns, i, j))
  {
    var ms := SwapAt(ns, i, j);
    forall k, l | 0 <= k < l < |ms| ensures ms[k] != ms[l] {
      var k' := if k == i then j else if k == j then i else k;
      var l' := if l == i then j else if l == j then i else l;
      assert ms[k] == ns[k'] && ms[l] == ns[l'] && k' != l';
    }
  }

  /** The pointers after the updates of `SwapByValue` chain the nodes of `ns`
      with positions `i` and `j` exchanged. */
  lemma SwapRelinks(ns: seq<Node>, i: nat, j: nat)
    requires i < |ns| && j < |ns| && Distinct(ns)
    requires forall k {:trigger ns[k].next} | 0 <= k < |ns| && k != i && k != j && k + 1 != i && k + 1 != j ::
      ns[k].next == if k + 1 < |ns| then ns[k + 1] else null
    requires i > 0 && i - 1 != j ==> ns[i - 1].next == ns[j]
    requires j > 0 && j - 1 != i ==> ns[j - 1].next == ns[i]
    requires i != j ==> ns[i].next == (if j + 1 == i then ns[j] else if j + 1 < |ns| then ns[j + 1] else null)
    requires i != j ==> ns[j].next == (if i + 1 == j then ns[i] else if i + 1 < |ns| then ns[i + 1] else null)
    requires i == j ==> ns[i].next == (if i + 1 < |ns| then ns[i + 1] else null) && (i > 0 ==> ns[i - 1].next == ns[i])
    ensures forall k {:trigger SwapAt(ns, i, j)[k].next} | 0 <= k < |ns| - 1 ::
      SwapAt(ns, i, j)[k].next == SwapAt(ns, i, j)[k + 1]
    ensures SwapAt(ns, i, j)[|ns| - 1].next == null
  {
  }

  // --- Python's str and int on the decimal text of integers -----------------

  predicate IsDigit(c: char) {
    '0' <= c <= '9'
  }

  predicate AllDigits(s: string) {
    forall k | 0 <= k < |s| :: IsDigit(s[k])
  }

  function DigitChar(d: nat): (c: char)
    requires d < 10
    ensures IsDigit(c) && c as int - '0' as int == d
  {
    ('0' as int + d) as char
  }

  /** Decimal digits of a natural number, without leading zeros. */
  function Digits(n: nat): (s: string)
    ensures |s| > 0 && AllDigits(s)
  {
    if n < 10 then [DigitChar(n)] else Digits(n / 10) + [DigitChar(n % 10)]
  }

  /** Python's `str` of an integer. */
  function PyStr(x: int): string {
    if x < 0 then "-" + Digits(-x) else Digits(x)
  }

  /** The number a string of decimal digits denotes (leading zeros allowed). */
  function DigitsValue(s: string): nat
    requires AllDigits(s)
  {
    if s == [] then 0 else DigitsValue(s[..|s| - 1]) * 10 + (s[|s| - 1] as int - '0' as int)
  }

  /** Python's `int` on a string: an optional minus sign followed by one or
      more decimal digits, and ValueError otherwise (the other forms it
      accepts, with '+', blanks or '_', never arise from joined `str`s). */
  function PyInt(s: string): Result<int> {
    if |s| > 0 && AllDigits(s) then Ok(DigitsValue(s))
    else if |s| > 1 && s[0] == '-' && AllDigits(s[1..]) then Ok(-(DigitsValue(s[1..]) as int))
    else Err(ValueError)
  }

  function Strs(xs: seq<int>): (r: seq<string>)
    ensures |r| == |xs| && forall k | 0 <= k < |xs| :: r[k] == PyStr(xs[k])
  {
    if xs == [] then [] else Strs(xs[..|xs| - 1]) + [PyStr(xs[|xs| - 1])]
  }

  function Reverse(ss: seq<string>): seq<string> {
    if ss == [] then [] else Reverse(ss[1..]) + [ss[0]]
  }

  /** `''.join(ss)` */
  function Join(ss: seq<string>): string {
    if ss == [] then "" else Join(ss[..|ss| - 1]) + ss[|ss| - 1]
  }

  /** The text `concatenate_numbers_reversed` hands to `int`: the `str`
      forms of the items, the last item's first. */
  function ReversedText(xs: seq<int>): string {
    if xs == [] then "" else ReversedText(xs[1..]) + PyStr(xs[0])
  }

  function ReversedConcatenation(xs: seq<int>): Result<int> {
    PyInt(ReversedText(xs))
  }

  // --- an arithmetic reference for the concatenation ------------------------

  function Pow10(n: nat): (r: nat)
    ensures r >= 1
  {
    if n == 0 then 1 else 10 * Pow10(n - 1)
  }

  /** The number of decimal digits of `n`. */
  function NumDigits(n: nat): (r: nat)
    ensures r >= 1
  {
    if n < 10 then 1 else 1 + NumDigits(n / 10)
  }

  function Abs(x: int): nat {
    if x < 0 then -x else x
  }

  /** The number written by the digits of |xs[n-1]|, then |xs[n-2]|, down to
      |xs[0]|, computed without any text. */
  function ReversedConcatValue(xs: seq<int>): nat {
    if xs == [] then 0
    else ReversedConcatValue(xs[1..]) * Pow10(NumDigits(Abs(xs[0]))) + Abs(xs[0])
  }

  lemma {:induction false} DigitsValueAppend(s: string, t: string)
    requires AllDigits(s) && AllDigits(t)
    ensures AllDigits(s + t)
    ensures DigitsValue(s + t) == DigitsValue(s) * Pow10(|t|) + DigitsValue(t)
    decreases |t|
  {
    if t == [] {
      assert s + t == s;
    } else {
      var t', d := t[..|t| - 1], t[|t| - 1] as int - '0' as int;
      assert (s + t)[..|s + t| - 1] == s + t';
      assert (s + t)[|s + t| - 1] == t[|t| - 1];
      DigitsValueAppend(s, t');
      assert DigitsValue(s + t) == DigitsValue(s + t') * 10 + d;
      assert DigitsValue(t) == DigitsValue(t') * 10 + d;
      assert Pow10(|t|) == 10 * Pow10(|t'|);
      ShiftDigit(DigitsValue(s), Pow10(|t'|), DigitsValue(t'), d);
    }
  }

  lemma ShiftDigit(a: int, p: int, b: int, d: int)
    ensures (a * p + b) * 10 + d == a * (10 * p) + (b * 10 + d)
  {
  }

  lemma {:induction false} DigitsDenote(n: nat)
    ensures DigitsValue(Digits(n)) == n && |Digits(n)| == NumDigits(n)
  {
    if n >= 10 {
      DigitsDenote(n / 10);
      var s := Digits(n / 10) + [DigitChar(n % 10)];
      assert s[..|s| - 1] == Digits(n / 10);
    }
  }

  /** Joining the reversed list of `str` forms, as the source does, gives
      that text. */
  lemma {:induction false} JoinReversedStrs(xs: seq<int>)
    ensures Join(Reverse(Strs(xs))) == ReversedText(xs)
  {
    if xs != [] {
      JoinReversedStrs(xs[1..]);
      assert Strs(xs)[1..] == Strs(xs[1..]);
      var r := Reverse(Strs(xs[1..]));
      assert (r + [PyStr(xs[0])])[..|r|] == r;
    }
  }

  lemma {:induction false} ReversedTextBack(xs: seq<int>)
    requires xs != []
    ensures ReversedText(xs) == PyStr(xs[|xs| - 1]) + ReversedText(xs[..|xs| - 1])
  {
    if |xs| > 1 {
      ReversedTextBack(xs[1..]);
      assert xs[1..][..|xs| - 2] == xs[..|xs| - 1][1..];
    }
  }

  /** For items that are all natural numbers the text is all digits and
      denotes the arithmetic reference. */
  lemma {:induction false} NaturalText(xs: seq<int>)
    requires forall k | 0 <= k < |xs| :: xs[k] >= 0
    ensures AllDigits(ReversedText(xs)) && |ReversedText(xs)| >= |xs|
    ensures DigitsValue(ReversedText(xs)) == ReversedConcatValue(xs)
  {
    if xs != [] {
      var t, d := ReversedText(xs[1..]), Digits(xs[0]);
      assert ReversedText(xs) == t + d;
      NaturalText(xs[1..]);
      DigitsDenote(xs[0]);
      DigitsValueAppend(t, d);
      assert ReversedConcatValue(xs) == ReversedConcatValue(xs[1..]) * Pow10(|d|) + xs[0];
    } else {
      assert ReversedText(xs) == "";
    }
  }

  lemma ReversedConcatenationOfNaturals(xs: seq<int>)
    requires |xs| > 0 && forall k | 0 <= k < |xs| :: xs[k] >= 0
    ensures ReversedConcatenation(xs) == Ok(ReversedConcatValue(xs))
  {
    NaturalText(xs);
  }

  /** A '-' after the first character of the text, from a negative item
      other than the last. */
  lemma {:induction false} InnerMinus(xs: seq<int>, i: nat) returns (p: nat)
    requires i < |xs| - 1 && xs[i] < 0
    ensures 1 <= p < |ReversedText(xs)| && ReversedText(xs)[p] == '-'
  {
    var t, u := ReversedText(xs[1..]), PyStr(xs[0]);
    if i == 0 {
      ReversedTextBack(xs[1..]);
      MinusAfter(t, xs[0], PyStr(xs[|xs| - 1]), ReversedText(xs[1..][..|xs| - 2]));
      p := |t|;
    } else {
      p := InnerMinus(xs[1..], i - 1);
      assert (t + u)[p] == t[p];
    }
  }

  /** The `str` of a negative number, after a nonempty text, puts a '-' right there. */
  lemma MinusAfter(t: string, x: int, head: string, rest: string)
    requires x < 0 && t == head + rest && |head| > 0
    ensures |t| >= 1 && (t + PyStr(x))[|t|] == '-'
  {
    assert PyStr(x) == "-" + Digits(-x);
  }

  /** A '-' inside the text makes `int` fail. */
  lemma InnerMinusFails(xs: seq<int>, k: nat)
    requires k < |xs| - 1 && xs[k] < 0
    ensures ReversedConcatenation(xs).Err?
  {
    var p := InnerMinus(xs, k);
    var s := ReversedText(xs);
    assert !IsDigit(s[p]) && !IsDigit(s[1..][p - 1]);
  }

  /** `int` accepts digits with at most a leading minus sign. */
  lemma PyIntAccepts(s: string)
    requires (|s| > 0 && AllDigits(s)) || (|s| > 1 && s[0] == '-' && AllDigits(s[1..]))
    ensures PyInt(s).Ok?
  {
  }

  /** With only the last item possibly negative, the text is its `str`
      followed by digits, which `int` accepts. */
  lemma LastSignAccepted(xs: seq<int>)
    requires |xs| > 0 && forall k | 0 <= k < |xs| - 1 :: xs[k] >= 0
    ensures ReversedConcatenation(xs).Ok?
  {
    var init := xs[..|xs| - 1];
    assert forall k | 0 <= k < |init| :: init[k] >= 0;
    NaturalText(init);
    ReversedTextBack(xs);
    SignedTextAccepted(xs[|xs| - 1], ReversedText(init));
  }

  lemma SignedTextAccepted(x: int, t: string)
    requires AllDigits(t)
    ensures PyInt(PyStr(x) + t).Ok?
  {
    var d := Digits(Abs(x));
    assert AllDigits(d + t) by {
      assert forall k | 0 <= k < |d + t| :: (d + t)[k] == if k < |d| then d[k] else t[k - |d|];
    }
    var s := PyStr(x) + t;
    if x >= 0 {
      assert s == d + t;
    } else {
      assert s == ("-" + d) + t;
      assert s[0] == '-' && s[1..] == d + t;
    }
    PyIntAccepts(s);
  }

  /** `int` fails exactly on an empty list or a negative item before the
      last one; otherwise the last item supplies the sign. */
  lemma ReversedConcatenationErrors(xs: seq<int>)
    ensures ReversedConcatenation(xs).Err? <==> |xs| == 0 || exists k :: 0 <= k < |xs| - 1 && xs[k] < 0
  {
    if |xs| == 0 {
      assert ReversedText(xs) == "";
    } else if k :| 0 <= k < |xs| - 1 && xs[k] < 0 {
      InnerMinusFails(xs, k);
    } else {
      LastSignAccepted(xs);
    }
  }
}
