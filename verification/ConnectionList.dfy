/**
 The connection list of headers/conList.c: a singly linked list with a head and a tail pointer,
 changed in place.
 */
module ConnectionList {

  datatype Instruction = Process | Shared | Terminate

  /** What a node stores. */
  datatype Entry = Entry(conn: int, action: Instruction)

  class Connection {
    const entry: Entry
    var next: Connection?

    constructor (conn: int, action: Instruction)
      ensures entry == Entry(conn, action) && next == null
    {
      entry := Entry(conn, action);
      next := null;
    }
  }

  function Entries(spine: seq<Connection>): (r: seq<Entry>)
    ensures |r| == |spine|
  {
    seq(|spine|, i requires 0 <= i < |spine| => spine[i].entry)
  }

  function NodesOf(spine: seq<Connection>): set<Connection> {
    set n | n in spine
  }

  lemma NodesOfMore(spine: seq<Connection>, k: nat)
    requires k < |spine| && Distinct(spine)
    ensures NodesOf(spine[..k + 1]) == NodesOf(spine[..k]) + {spine[k]} && spine[k] !in NodesOf(spine[..k])
  {
    assert spine[..k + 1] == spine[..k] + [spine[k]];
  }

  /** The first entry for a connection, or the length when there is none. */
  function FirstIndex(list: seq<Entry>, conn: int): (k: nat)
    ensures k <= |list|
    ensures k < |list| ==> list[k].conn == conn
    ensures forall j :: 0 <= j < k ==> list[j].conn != conn
  {
    if list == [] || list[0].conn == conn then 0 else 1 + FirstIndex(list[1..], conn)
  }

  function Without(list: seq<Entry>, k: nat): seq<Entry>
    requires k < |list|
  {
    list[..k] + list[k + 1..]
  }

  class ConList {
    var head: Connection?
    var tail: Connection?
    var numNodes: int

    /** The nodes from head to tail. */
    ghost var spine: seq<Connection>
    /** The nodes given back to the allocator. */
    ghost var freed: set<Connection>

    /** Every pointer leads to the next node of the spine; no node occurs twice or is freed. */
    ghost predicate Valid()
      reads this, spine
    {
      && Linked(spine, null)
      && head == (if spine == [] then null else spine[0])
      && tail == (if spine == [] then null else spine[|spine| - 1])
      && forall n :: n in spine ==> n !in freed
    }

    /** The list that the nodes represent. */
    ghost function Contents(): seq<Entry>
      reads this
    {
      Entries(spine)
    }

    ghost function Nodes(): set<Connection>
      reads this
    {
      NodesOf(spine)
    }

    constructor ()
      ensures Valid() && fresh(this) && Contents() == [] && numNodes == 0 && freed == {} && spine == []
    {
      head, tail, numNodes := null, null, 0;
      spine, freed := [], {};
    }

    method IsEmpty() returns (r: bool)
      requires Valid()
      ensures r <==> Contents() == []
    {
      r := head == null;
    }

    method AddHead(conn: int, action: Instruction)
      requires Valid()
      modifies this
      ensures Valid() && Contents() == [Entry(conn, action)] + old(Contents())
      ensures numNodes == old(numNodes) + 1 && freed == old(freed)
      ensures spine != [] && spine[1..] == old(spine) && fresh(spine[0]) && fresh(Nodes() - old(Nodes()))
    {
      var newHead := new Connection(conn, action);
      newHead.next := head;
      head := newHead;
      if tail == null {
        tail := head;
      }
      numNodes := numNodes + 1;
      HeadIsLinked(newHead, spine);
      spine := [newHead] + spine;
    }

    method AddTail(conn: int, action: Instruction)
      requires Valid()
      modifies this, Nodes()
      ensures Valid() && Contents() == old(Contents()) + [Entry(conn, action)]
      ensures numNodes == old(numNodes) + 1 && freed == old(freed)
      ensures spine != [] && spine[..|spine| - 1] == old(spine) && fresh(spine[|spine| - 1])
      ensures fresh(Nodes() - old(Nodes()))
    {
      var newTail := new Connection(conn, action);
      Append(newTail);
      numNodes := numNodes + 1;
    }

    /** The pointers of `addTail`. */
    method Append(newTail: Connection)
      requires Valid() && newTail !in spine && newTail !in freed && newTail.next == null
      modifies this, Nodes()
      ensures Valid() && spine == old(spine) + [newTail] && Contents() == old(Contents()) + [newTail.entry]
      ensures numNodes == old(numNodes) && freed == old(freed)
    {
      if head == null {
        head := newTail;
      } else {
        PointLastTo(newTail);
      }
      tail := newTail;
      TailIsLinked(spine, newTail);
      spine := spine + [newTail];
    }

    /** The tail's pointer is set; the tail pointer still has to follow. */
    method PointLastTo(node: Connection)
      requires Valid() && spine != []
      modifies tail
      ensures forall i {:trigger spine[i]} :: 0 <= i < |spine| ==> spine[i].next == At(spine, i + 1, node)
    {
      tail.next := node;
      forall i | 0 <= i < |spine|
        ensures spine[i].next == At(spine, i + 1, node)
      {
        assert i < |spine| - 1 ==> spine[i] != tail;
      }
    }

    /** The node leaves the list, but `numNodes` is not told. */
    method RemoveHead() returns (r: Connection?)
      requires Valid()
      modifies this
      ensures Valid() && numNodes == old(numNodes) && freed == old(freed)
      ensures Nodes() <= old(Nodes())
      ensures r == null <==> old(Contents()) == []
      ensures r == null ==> spine == old(spine)
      ensures r != null ==> old(spine) == [r] + spine && r !in spine && r !in freed
      ensures r != null ==> old(Contents()) == [r.entry] + Contents()
    {
      r := head;
      if r == null {
        return;
      }
      if head == tail {
        head, tail := null, null;
      } else {
        head := head.next;
      }
      spine := spine[1..];
      assert forall i {:trigger spine[i]} :: 0 <= i < |spine| ==> spine[i] == old(spine)[i + 1];
      assert old(Contents()) == [r.entry] + Contents();
    }

    method FindCon(conn: int) returns (r: Connection?)
      requires Valid()
      ensures var k := FirstIndex(Contents(), conn);
        r == if k < |spine| then spine[k] else null
    {
      r := head;
      ghost var k := 0;
      while r != null
        invariant 0 <= k <= |spine| && r == (if k < |spine| then spine[k] else null)
        invariant forall j :: 0 <= j < k ==> Contents()[j].conn != conn
        decreases |spine| - k
      {
        if r.entry.conn == conn {
          FirstIndexIs(Contents(), conn, k);
          return;
        }
        assert r == spine[k];
        r := r.next;
        k := k + 1;
      }
      FirstIndexIs(Contents(), conn, k);
    }

    /**
     Unlinks and frees the first node for `conn`. The head pointer is never updated: when the node
     is the head, the list is left with a freed head.
     */
    method DestroyCon(conn: int)
      requires Valid()
      modifies this, Nodes()
      ensures Nodes() <= old(Nodes())
      ensures var k := FirstIndex(old(Contents()), conn);
        && (k == |old(spine)| ==>
              Valid() && spine == old(spine) && numNodes == old(numNodes) && freed == old(freed))
        && (0 < k < |old(spine)| ==>
              && Valid() && Contents() == Without(old(Contents()), k) && numNodes == old(numNodes) - 1
              && freed == old(freed) + {old(spine)[k]})
        && (k == 0 < |old(spine)| ==>
              && !Valid() && head == old(head) && head in freed && numNodes == old(numNodes) - 1
              && freed == old(freed) + {old(spine)[0]})
    {
      var node, prev: Connection? := head, null;
      ghost var k := 0;
      while node != null
        invariant Valid() && spine == old(spine) && numNodes == old(numNodes) && freed == old(freed)
        invariant 0 <= k <= |spine| && node == (if k < |spine| then spine[k] else null)
        invariant prev == (if k == 0 then null else spine[k - 1])
        invariant forall j :: 0 <= j < k ==> Contents()[j].conn != conn
        decreases |spine| - k
      {
        if node.entry.conn == conn {
          FirstIndexIs(Contents(), conn, k);
          Unlink(node, prev, k);
          return;
        }
        assert node == spine[k];
        prev, node := node, node.next;
        k := k + 1;
      }
      FirstIndexIs(Contents(), conn, k);
    }

    /** The body of the match in `destroyCon`. */
    method Unlink(node: Connection, prev: Connection?, ghost k: nat)
      requires Valid() && k < |spine| && node == spine[k]
      requires prev == if k == 0 then null else spine[k - 1]
      modifies this, Nodes()
      ensures numNodes == old(numNodes) - 1 && freed == old(freed) + {node}
      ensures Nodes() <= old(Nodes())
      ensures k > 0 ==> Valid() && Contents() == Without(old(Contents()), k)
      ensures k == 0 ==> !Valid() && head == old(head) && head == node
    {
      if prev != null {
        TakeOut(prev, node, k);
      } else if node == tail {
        tail := null;
      }
      freed := freed + {node};
      numNodes := numNodes - 1;
    }

    /** The pointers of the match, when the node is not the head. */
    method TakeOut(prev: Connection, node: Connection, ghost k: nat)
      requires Valid() && 0 < k < |spine| && node == spine[k] && prev == spine[k - 1]
      modifies this, prev
      ensures Valid() && node !in spine && Nodes() <= old(Nodes()) && Contents() == Without(old(Contents()), k)
      ensures numNodes == old(numNodes) && freed == old(freed) && head == old(head)
    {
      Skip(prev, node, k);
      if node == tail {
        tail := prev;
      }
      SpliceKeeps(spine, k);
      spine := Splice(spine, k);
    }

    /** The pointer past `node`. */
    method Skip(prev: Connection, node: Connection, ghost k: nat)
      requires Valid() && 0 < k < |spine| && node == spine[k] && prev == spine[k - 1]
      modifies prev
      ensures Linked(Splice(spine, k), null)
    {
      prev.next := node.next;
      forall i | 0 <= i < |spine| && i != k - 1
        ensures spine[i].next == At(spine, i + 1, null)
      {
        assert spine[i] != prev;
      }
      SkippedIsLinked(spine, k);
    }

    /** Frees each node of the list once. */
    method DestroyAll()
      requires Valid()
      modifies this`freed
      ensures freed == old(freed) + Nodes()
    {
      var node: Connection? := head;
      ghost var k := 0;
      while node != null
        invariant Linked(spine, null) && spine == old(spine)
        invariant 0 <= k <= |spine| && node == (if k < |spine| then spine[k] else null)
        invariant freed == old(freed) + NodesOf(spine[..k])
        decreases |spine| - k
      {
        var prev := node;
        assert node == spine[k];
        node := node.next;
        NodesOfMore(spine, k);
        assert prev !in freed;
        freed := freed + {prev};
        k := k + 1;
      }
      assert spine[..k] == spine;
    }
  }

  /** Each node points to the next one, and the last one to `last`; no node occurs twice. */
  ghost predicate Linked(spine: seq<Connection>, last: Connection?)
    reads spine
  {
    && Distinct(spine)
    && forall i {:trigger spine[i]} :: 0 <= i < |spine| ==> spine[i].next == At(spine, i + 1, last)
  }

  function At(spine: seq<Connection>, i: nat, last: Connection?): Connection? {
    if i < |spine| then spine[i] else last
  }

  /** A new node in front of a chain. */
  lemma HeadIsLinked(node: Connection, spine: seq<Connection>)
    requires Linked(spine, null) && node !in spine && node.next == At(spine, 0, null)
    ensures Linked([node] + spine, null) && Entries([node] + spine) == [node.entry] + Entries(spine)
  {
    var longer := [node] + spine;
    forall i | 0 <= i < |longer|
      ensures longer[i].next == At(longer, i + 1, null)
    {
      if i > 0 {
        assert longer[i] == spine[i - 1];
      }
    }
  }

  /** A new node behind a chain, once the last node points to it. */
  lemma TailIsLinked(spine: seq<Connection>, node: Connection)
    requires Distinct(spine) && node !in spine && node.next == null
    requires forall i {:trigger spine[i]} :: 0 <= i < |spine| ==> spine[i].next == At(spine, i + 1, node)
    ensures Linked(spine + [node], null) && Entries(spine + [node]) == Entries(spine) + [node.entry]
  {
    var longer := spine + [node];
    forall i | 0 <= i < |longer|
      ensures longer[i].next == At(longer, i + 1, null)
    {
      if i < |spine| {
        assert longer[i] == spine[i];
      }
    }
  }

  ghost predicate Distinct(spine: seq<Connection>) {
    forall i, j :: 0 <= i < j < |spine| ==> spine[i] != spine[j]
  }

  function Splice(spine: seq<Connection>, k: nat): seq<Connection>
    requires k < |spine|
  {
    spine[..k] + spine[k + 1..]
  }

  lemma SpliceKeeps(spine: seq<Connection>, k: nat)
    requires 0 < k < |spine| && Distinct(spine)
    ensures var rest := Splice(spine, k);
      && rest != [] && rest[0] == spine[0]
      && rest[|rest| - 1] == spine[if k == |spine| - 1 then k - 1 else |spine| - 1]
      && spine[k] !in rest && (forall n :: n in rest ==> n in spine)
      && Entries(rest) == Without(Entries(spine), k)
  {
  }

  /** Redirecting the link before node `k` takes that node out of the chain. */
  lemma SkippedIsLinked(spine: seq<Connection>, k: nat)
    requires 0 < k < |spine|
    requires Distinct(spine)
    requires forall i {:trigger spine[i]} :: 0 <= i < |spine| && i != k - 1 ==> spine[i].next == At(spine, i + 1, null)
    requires spine[k - 1].next == At(spine, k + 1, null)
    ensures Linked(Splice(spine, k), null)
  {
    var rest := Splice(spine, k);
    forall i | 0 <= i < |rest|
      ensures rest[i].next == At(rest, i + 1, null)
    {
      assert rest[i] == spine[if i < k then i else i + 1];
    }
  }

  lemma {:induction false} FirstIndexIs(list: seq<Entry>, conn: int, k: nat)
    requires k <= |list| && (k < |list| ==> list[k].conn == conn)
    requires forall j :: 0 <= j < k ==> list[j].conn != conn
    ensures FirstIndex(list, conn) == k
  {
    var f := FirstIndex(list, conn);
    assert !(f < k) && !(k < f);
  }

  // ---- Any sequence of operations ----

  datatype Operation =
    | PushFront(entry: Entry)
    | PushBack(entry: Entry)
    | PopFront
    | Find(conn: int)
    | Destroy(conn: int)

  /** The operation on the represented list. */
  function Apply(list: seq<Entry>, op: Operation): seq<Entry> {
    match op
    case PushFront(e) => [e] + list
    case PushBack(e) => list + [e]
    case PopFront => if list == [] then [] else list[1..]
    case Find(_) => list
    case Destroy(c) =>
      var k := FirstIndex(list, c);
      if k < |list| then Without(list, k) else list
  }

  function ApplyAll(list: seq<Entry>, ops: seq<Operation>): seq<Entry> {
    if ops == [] then list
    else Apply(ApplyAll(list, ops[..|ops| - 1]), ops[|ops| - 1])
  }

  /** No operation destroys the node at the head. */
  predicate SparesHead(list: seq<Entry>, ops: seq<Operation>) {
    forall i :: 0 <= i < |ops| && ops[i].Destroy? ==>
      var before := ApplyAll(list, ops[..i]);
      before == [] || before[0].conn != ops[i].conn
  }

  method RunOne(list: ConList, op: Operation)
    requires list.Valid()
    requires op.Destroy? ==> list.Contents() == [] || list.Contents()[0].conn != op.conn
    modifies list, list.Nodes()
    ensures list.Valid() && list.Contents() == Apply(old(list.Contents()), op)
    ensures fresh(list.Nodes() - old(list.Nodes()))
  {
    match op {
      case PushFront(e) => list.AddHead(e.conn, e.action);
      case PushBack(e) => list.AddTail(e.conn, e.action);
      case PopFront => RunPop(list);
      case Find(c) => var _ := list.FindCon(c);
      case Destroy(c) => RunDestroy(list, c);
    }
  }

  method RunPop(list: ConList)
    requires list.Valid()
    modifies list
    ensures list.Valid() && list.Contents() == Apply(old(list.Contents()), PopFront)
    ensures list.Nodes() <= old(list.Nodes())
  {
    var r := list.RemoveHead();
  }

  method RunDestroy(list: ConList, conn: int)
    requires list.Valid() && (list.Contents() == [] || list.Contents()[0].conn != conn)
    modifies list, list.Nodes()
    ensures list.Valid() && list.Contents() == Apply(old(list.Contents()), Destroy(conn))
    ensures list.Nodes() <= old(list.Nodes())
  {
    list.DestroyCon(conn);
  }

  /** Any sequence of operations that spares the head leaves a well-formed list with the right contents. */
  method RunAll(list: ConList, ops: seq<Operation>)
    requires list.Valid() && SparesHead(list.Contents(), ops)
    modifies list, list.Nodes()
    ensures list.Valid() && list.Contents() == ApplyAll(old(list.Contents()), ops)
    ensures fresh(list.Nodes() - old(list.Nodes()))
    decreases |ops|
  {
    if |ops| > 0 {
      var last := |ops| - 1;
      FirstOpsSpareHead(list.Contents(), ops);
      RunAll(list, ops[..last]);
      RunOne(list, ops[last]);
    }
  }

  lemma FirstOpsSpareHead(list: seq<Entry>, ops: seq<Operation>)
    requires SparesHead(list, ops) && |ops| > 0
    ensures SparesHead(list, ops[..|ops| - 1])
  {
    forall i | 0 <= i < |ops| - 1
      ensures ops[..|ops| - 1][..i] == ops[..i]
    {
    }
  }
}
