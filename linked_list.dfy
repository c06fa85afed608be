/**
  The singly linked list of `Dsa/node.c`: `create` allocates one node per array
  element and links each to the next, and `display` walks the list from `first`
  until the null pointer. The global `first` becomes `Create`'s result, and what
  `display` prints becomes the sequence it returns.
*/
module LinkedList {

  /** `struct Node`. */
  class Node {
    var node: int
    var next: Node?

    /** `malloc` followed by setting the value and a null `next`. */
    constructor (value: int)
      ensures node == value && next == null
    {
      node := value;
      next := null;
    }
  }

  /**
    `nodes` is the list that starts at `first`: each node's `next` is the node after
    it, the last one's is null, and no node appears twice, so the list is acyclic.
  */
  ghost predicate IsList(first: Node?, nodes: seq<Node>)
    reads nodes
  {
    (if nodes == [] then first == null else first == nodes[0])
    && (forall i :: 0 <= i < |nodes| - 1 ==> nodes[i].next == nodes[i + 1])
    && (nodes != [] ==> nodes[|nodes| - 1].next == null)
    && (forall i, j :: 0 <= i < j < |nodes| ==> nodes[i] != nodes[j])
  }

  /** The values held by the nodes, in list order. */
  ghost function Values(nodes: seq<Node>): (r: seq<int>)
    reads nodes
    ensures |r| == |nodes|
    ensures forall i :: 0 <= i < |nodes| ==> r[i] == nodes[i].node
  {
    if nodes == [] then [] else [nodes[0].node] + Values(nodes[1..])
  }

  /**
    `create(a, n)`: a list of `n` new nodes holding `a[0]` to `a[n - 1]` in order.
    The first node is built from `a[0]` before the loop tests `n`, so `a` needs at
    least one element, and an `n` below 1 gives the one-node list of `a[0]`.
  */
  method Create(a: array<int>, n: int) returns (first: Node, ghost nodes: seq<Node>)
    requires 1 <= a.Length && n <= a.Length
    ensures IsList(first, nodes) && |nodes| == if n < 1 then 1 else n
    ensures Values(nodes) == a[..|nodes|]
    ensures forall i :: 0 <= i < |nodes| ==> fresh(nodes[i])
  {
    first := new Node(a[0]);
    var last := first;
    nodes := [first];
    var i := 1;
    while i < n
      invariant 1 <= i && (i <= n || i == 1) && |nodes| == i
      invariant nodes[0] == first && nodes[i - 1] == last
      invariant IsList(first, nodes)
      invariant forall k :: 0 <= k < i ==> nodes[k].node == a[k] && fresh(nodes[k])
    {
      var t := new Node(a[i]);
      last.next := t;
      last := t;
      nodes := nodes + [t];
      i := i + 1;
    }
  }

  /** `display(p)`: the values from `p` to the end of the list, in list order. */
  method Display(p: Node?, ghost nodes: seq<Node>) returns (shown: seq<int>)
    requires IsList(p, nodes)
    ensures shown == Values(nodes)
  {
    shown := [];
    var q := p;
    ghost var k := 0;
    while q != null
      invariant 0 <= k <= |nodes|
      invariant q == if k < |nodes| then nodes[k] else null
      invariant shown == Values(nodes)[..k]
      decreases |nodes| - k
    {
      shown := shown + [q.node];
      q := q.next;
      k := k + 1;
    }
    assert Values(nodes)[..k] == Values(nodes);
  }

  /** `main`: a list of the first six elements of `{1,4,6,8,3,2,5}`, displayed. */
  method SampleRun() returns (shown: seq<int>)
    ensures shown == [1, 4, 6, 8, 3, 2]
  {
    var a := new int[7][1, 4, 6, 8, 3, 2, 5];
    var first, nodes := Create(a, 6);
    shown := Display(first, nodes);
    assert a[..6] == [1, 4, 6, 8, 3, 2];
  }
}
