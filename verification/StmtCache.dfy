/**
 The prepared-statement cache: a doubly linked list rewired in place, proved to be the sequence of entries
 of module `Lru`.
*/
module StmtCache {
  import opened Common
  import opened Lru

  /** The database library that prepares and finalises statements; both are recorded. */
  class Library {
    var prepared: nat
    var finalised: seq<Handle>

    constructor ()
      ensures prepared == 0 && finalised == []
    {
      prepared, finalised := 0, [];
    }

    method Finalize(stmt: Handle)
      modifies this`finalised
      ensures finalised == old(finalised) + [stmt]
    {
      finalised := finalised + [stmt];
    }
  }

  class Node {
    const sql: string
    const stmt: Handle
    var prev: Node?
    var next: Node?

    constructor (sql: string, stmt: Handle)
      ensures this.sql == sql && this.stmt == stmt && prev == null && next == null
    {
      this.sql, this.stmt, prev, next := sql, stmt, null, null;
    }
  }

  /** `library` stands for `entry_destroy_fn`: null when no destroy function is set, and otherwise where the
      handles it is called with are finalised. */
  class StmtCache {
    const capacity: nat
    var size: nat
    var head: Node?
    var tail: Node?
    var library: Library?
    ghost var nodes: seq<Node>

    /** `prev` and `next` are inverse to each other along `nodes`, which begins at `head` and ends at `tail`. */
    ghost predicate Linked()
      reads this, nodes
    {
      && (forall i, j :: 0 <= i < j < |nodes| ==> nodes[i] != nodes[j])
      && head == (if |nodes| == 0 then null else nodes[0])
      && tail == (if |nodes| == 0 then null else nodes[|nodes| - 1])
      && (|nodes| > 0 ==> nodes[0].prev == null && nodes[|nodes| - 1].next == null)
      && (forall i {:trigger nodes[i].prev} :: 1 <= i < |nodes| ==> nodes[i].prev == nodes[i - 1])
      && (forall i {:trigger nodes[i].next} :: 0 <= i < |nodes| - 1 ==> nodes[i].next == nodes[i + 1])
    }

    ghost predicate Valid()
      reads this, nodes
    {
      && Linked()
      && size == |nodes| <= capacity && capacity > 0
      && Distinct(Entries())
    }

    ghost function Entries(): (es: seq<Entry>)
      reads this
      ensures |es| == |nodes|
    {
      seq(|nodes|, i requires 0 <= i < |nodes| reads this => Entry(nodes[i].sql, nodes[i].stmt))
    }

    constructor (capacity: nat)
      requires capacity > 0
      ensures Valid() && Entries() == [] && this.capacity == capacity && library == null && fresh(nodes)
    {
      this.capacity := capacity;
      size, head, tail, library, nodes := 0, null, null, null, [];
    }

    method SetDestroyFn(library: Library?)
      modifies this`library
      ensures this.library == library
    {
      this.library := library;
    }

    /** `corm_stmt_cache_get`: the handle cached for `sql`, which becomes the most recent. */
    method Get(sql: string) returns (stmt: Option<Handle>)
      requires Valid()
      modifies this, nodes
      ensures Valid() && library == old(library)
      ensures (forall n :: n in nodes <==> n in old(nodes)) && (stmt.None? ==> nodes == old(nodes))
      ensures stmt == Lookup(old(Entries()), sql)
      ensures Entries() == Touch(old(Entries()), sql)
    {
      ghost var k;
      var curr;
      curr, k := Search(sql);
      if curr == null {
        return None;
      }
      Promote(curr, k);
      return Some(curr.stmt);
    }

    /** The loop over the list, which ends at the node with the text. */
    method Search(sql: string) returns (curr: Node?, ghost k: nat)
      requires Valid()
      ensures k == Find(Entries(), sql) && curr == if k < |nodes| then nodes[k] else null
    {
      curr, k := head, 0;
      while curr != null && curr.sql != sql
        invariant 0 <= k <= |nodes| && curr == (if k < |nodes| then nodes[k] else null)
        invariant forall j :: 0 <= j < k ==> nodes[j].sql != sql
        decreases |nodes| - k
      {
        curr := curr.next;
        k := k + 1;
      }
      assert curr != null ==> Entries()[k].sql == sql;
    }

    method Promote(curr: Node, ghost k: nat)
      requires Valid() && k < |nodes| && nodes[k] == curr
      modifies this`head, this`tail, this`nodes, nodes
      ensures Valid() && forall n :: n in nodes <==> n in old(nodes)
      ensures Entries() == ToFront(old(Entries()), k)
    {
      ToFrontMembers(nodes, k);
      DistinctKept(Entries(), k);
      if curr != head {
        MoveToHead(curr, k);
      }
      assert Entries() == ToFront(old(Entries()), k);
    }

    /** The pointer updates that take `curr` out of its place and put it at the head. */
    method MoveToHead(curr: Node, ghost k: nat)
      requires Linked() && 0 < k < |nodes| && nodes[k] == curr
      modifies this`head, this`tail, this`nodes, nodes
      ensures Linked() && nodes == ToFront(old(nodes), k)
    {
      TakeOut(curr, k);
      curr.next := head;
      curr.prev := null;
      head.prev := curr;
      head := curr;
      nodes := [curr] + nodes;
    }

    /** The pointer updates that take `curr`, which is not the head, out of its place. */
    method TakeOut(curr: Node, ghost k: nat)
      requires Linked() && 0 < k < |nodes| && nodes[k] == curr
      modifies this`tail, this`nodes, nodes
      ensures Linked() && nodes == Without(old(nodes), k)
    {
      curr.prev.next := curr.next;
      if curr.next != null {
        curr.next.prev := curr.prev;
      }
      if curr == tail {
        tail := curr.prev;
      }
      nodes := Without(nodes, k);
    }

    /** `corm_stmt_cache_put`, with the memory for the new entry there. */
    method Put(sql: string, stmt: Handle)
      requires Valid()
      modifies this, nodes, library
      ensures Valid() && library == old(library)
      ensures forall n :: n in nodes ==> n in old(nodes) || fresh(n)
      ensures Entries() == Lru.Put(capacity, old(Entries()), sql, stmt)
      ensures library != null ==>
                && library.prepared == old(library.prepared)
                && library.finalised == old(library.finalised)
                   + if Evicts(capacity, old(Entries()), sql) then [old(Entries())[|old(Entries())| - 1].stmt] else []
    {
      var existing := Get(sql);
      if existing.Some? {
        return;
      }
      Insert(sql, stmt);
    }

    /** The rest of `corm_stmt_cache_put`, once `sql` is known not to be cached. */
    method Insert(sql: string, stmt: Handle)
      requires Valid() && Find(Entries(), sql) == |Entries()|
      modifies this, nodes, library
      ensures Valid() && library == old(library)
      ensures forall n :: n in nodes ==> n in old(nodes) || fresh(n)
      ensures Entries() == Lru.Put(capacity, old(Entries()), sql, stmt)
      ensures library != null ==>
                && library.prepared == old(library.prepared)
                && library.finalised == old(library.finalised)
                   + if Evicts(capacity, old(Entries()), sql) then [old(Entries())[|old(Entries())| - 1].stmt] else []
    {
      if size >= capacity && tail != null {
        EvictTail();
        DistinctKept(old(Entries()), 0);
        assert Entries() == old(Entries())[..|old(Entries())| - 1];
      }
      PushNew(sql, stmt);
    }

    method PushNew(sql: string, stmt: Handle)
      requires Valid() && size < capacity && Find(Entries(), sql) == |Entries()|
      modifies this, nodes
      ensures Valid() && library == old(library)
      ensures forall n :: n in nodes ==> n in old(nodes) || fresh(n)
      ensures Entries() == [Entry(sql, stmt)] + old(Entries())
    {
      DistinctExtended(Entries(), Entry(sql, stmt));
      var entry := new Node(sql, stmt);
      PushHead(entry);
      size := size + 1;
      assert Entries() == [Entry(sql, stmt)] + old(Entries());
    }

    method PushHead(entry: Node)
      requires Linked() && entry !in nodes && entry.prev == null && entry.next == null
      modifies this`head, this`tail, this`nodes, nodes, entry
      ensures Linked() && nodes == [entry] + old(nodes)
    {
      entry.next := head;
      if head != null {
        head.prev := entry;
      }
      head := entry;
      if tail == null {
        tail := entry;
      }
      nodes := [entry] + nodes;
    }

    /** Drops the least recently used entry and destroys its handle. */
    method EvictTail()
      requires Linked() && tail != null && size > 0
      modifies this`head, this`tail, this`size, this`nodes, nodes, library
      ensures Linked() && size == old(size) - 1 && (library != null ==> library.prepared == old(library.prepared))
      ensures nodes == old(nodes)[..|old(nodes)| - 1]
      ensures library != null ==> library.finalised == old(library.finalised) + [old(nodes)[|old(nodes)| - 1].stmt]
    {
      var evict := tail;
      if evict.prev != null {
        evict.prev.next := null;
      }
      tail := evict.prev;
      if head == evict {
        head := null;
      }
      if library != null {
        library.Finalize(evict.stmt);
      }
      size := size - 1;
      nodes := nodes[..|nodes| - 1];
    }

    /** `corm_stmt_cache_remove`: takes the entry out and hands its handle to the caller. */
    method Remove(sql: string) returns (stmt: Option<Handle>)
      requires Valid()
      modifies this, nodes
      ensures Valid() && library == old(library) && (forall n :: n in nodes ==> n in old(nodes))
      ensures stmt == Lookup(old(Entries()), sql)
      ensures Entries() == Lru.Remove(old(Entries()), sql)
    {
      ghost var k;
      var curr;
      curr, k := Search(sql);
      if curr == null {
        return None;
      }
      stmt := Some(curr.stmt);
      DistinctKept(Entries(), k);
      Unlink(curr, k);
      assert Entries() == Without(old(Entries()), k);
    }

    method Unlink(curr: Node, ghost k: nat)
      requires Linked() && k < |nodes| && nodes[k] == curr && size > 0
      modifies this`head, this`tail, this`size, this`nodes, nodes
      ensures Linked() && nodes == Without(old(nodes), k) && size == old(size) - 1
    {
      if curr.prev != null {
        curr.prev.next := curr.next;
      }
      if curr.next != null {
        curr.next.prev := curr.prev;
      }
      if curr == head {
        head := curr.next;
      }
      if curr == tail {
        tail := curr.prev;
      }
      size := size - 1;
      nodes := Without(nodes, k);
    }

    /** `corm_stmt_cache_destroy`: every cached handle is destroyed, in list order. */
    method Destroy()
      requires Valid()
      modifies library
      ensures library != null ==>
                && library.prepared == old(library.prepared)
                && library.finalised == old(library.finalised) + Handles(Entries())
    {
      var curr := head;
      ghost var k := 0;
      while curr != null
        invariant 0 <= k <= |nodes| && curr == (if k < |nodes| then nodes[k] else null)
        invariant library != null ==>
                    && library.prepared == old(library.prepared)
                    && library.finalised == old(library.finalised) + Handles(Entries()[..k])
        decreases |nodes| - k
      {
        var next := curr.next;
        if library != null {
          library.Finalize(curr.stmt);
        }
        assert Entries()[..k + 1] == Entries()[..k] + [Entries()[k]];
        HandlesAppend(Entries()[..k], Entries()[k]);
        curr := next;
        k := k + 1;
      }
      assert Entries()[..k] == Entries();
    }
  }
}
