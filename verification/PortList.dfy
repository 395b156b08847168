/**
  The doubly linked list of native/src/termios.c itself: `first_tl` and the `prev`/`next`
  links, updated in place by `add_port` and `serial_close`, searched by `port_opened`,
  `find_port` and `get_free_fd`.  Every method is tied to the sequence of entries in
  module PortTable.
 */
module PortList {
  import opened PortTable
  import opened Sequences

  class PortNode {
    var fd: int
    var filename: string
    var prev: PortNode?
    var next: PortNode?

    constructor (fd: int, filename: string)
      ensures this.fd == fd && this.filename == filename && prev == null && next == null
    {
      this.fd, this.filename, this.prev, this.next := fd, filename, null, null;
    }
  }

  /** What the nodes stand for. */
  ghost function EntriesOf(nodes: seq<PortNode>): (t: seq<Entry>)
    reads nodes
    ensures |t| == |nodes|
    ensures forall i :: 0 <= i < |t| ==> t[i] == Entry(nodes[i].fd, nodes[i].filename)
  {
    seq(|nodes|, i requires 0 <= i < |nodes| reads nodes => Entry(nodes[i].fd, nodes[i].filename))
  }

  twostate lemma EntriesUntouched(nodes: seq<PortNode>)
    requires forall i :: 0 <= i < |nodes| ==>
      nodes[i].fd == old(nodes[i].fd) && nodes[i].filename == old(nodes[i].filename)
    ensures EntriesOf(nodes) == old(EntriesOf(nodes))
  {
  }

  lemma EntriesSpliced(nodes: seq<PortNode>, x: PortNode)
    requires 0 < x.fd <= |nodes| + 1
    ensures EntriesOf(Spliced(nodes, x.fd - 1, x)) == Inserted(EntriesOf(nodes), Entry(x.fd, x.filename))
  {
  }

  lemma EntriesDropped(nodes: seq<PortNode>, k: nat)
    requires k < |nodes|
    ensures EntriesOf(Dropped(nodes, k)) == EntriesOf(nodes)[..k] + EntriesOf(nodes)[k + 1..]
  {
  }

  class PortList {
    var first: PortNode?
    ghost var nodes: seq<PortNode>
    ghost var footprint: set<PortNode>

    /** The links run through `nodes` in both directions, without a cycle. */
    ghost predicate Linked()
      reads this, nodes
    {
      && Distinct(nodes)
      && (forall i :: 0 <= i < |nodes| ==> nodes[i] in footprint)
      && first == At(nodes, 0)
      && (forall i {:trigger nodes[i].next} :: 0 <= i < |nodes| ==> nodes[i].next == At(nodes, i + 1))
      && (forall i {:trigger nodes[i].prev} :: 0 <= i < |nodes| ==> nodes[i].prev == At(nodes, i - 1))
    }

    ghost function Entries(): seq<Entry>
      reads this, nodes
    {
      EntriesOf(nodes)
    }

    ghost predicate Valid()
      reads this, nodes
    {
      Linked() && Ordered(Entries())
    }

    constructor ()
      ensures Valid() && Entries() == []
    {
      first := null;
      nodes, footprint := [], {};
    }

    /** The descriptor under which the file is open, or 0. */
    method PortOpened(filename: string) returns (fd: int)
      requires Valid()
      ensures fd == 0 <==> !IsOpen(Entries(), filename)
      ensures fd != 0 ==> Entry(fd, filename) in Entries()
    {
      var index := first;
      ghost var i := 0;
      while index != null
        invariant 0 <= i <= |nodes| && index == At(nodes, i)
        invariant forall j :: 0 <= j < i ==> nodes[j].filename != filename
        decreases |nodes| - i
      {
        assert Entries()[i].fd > 0;
        if index.filename == filename {
          assert Entries()[i] == Entry(index.fd, filename);
          return index.fd;
        }
        index := index.next;
        i := i + 1;
      }
      return 0;
    }

    /** The node with that descriptor, or null. */
    method FindPort(fd: int) returns (index: PortNode?)
      requires Valid()
      ensures index == null <==> !Used(Entries(), fd)
      ensures index != null ==> index in nodes && index.fd == fd
    {
      if fd <= 0 || first == null {
        assert forall i :: 0 <= i < |nodes| ==> Entries()[i].fd > 0;
        return null;
      }
      index := first;
      ghost var i := 0;
      while index.fd != 0
        invariant 0 <= i < |nodes| && index == nodes[i]
        invariant forall j :: 0 <= j < i ==> nodes[j].fd != fd
        decreases |nodes| - i
      {
        if index.fd == fd {
          assert Entries()[i].fd == fd;
          return;
        }
        if index.next == null {
          break;
        }
        index := index.next;
        i := i + 1;
      }
      assert Entries()[i].fd > 0;
      return null;
    }

    method GetFreeFd() returns (fd: int)
      requires Valid()
      ensures SmallestFree(Entries(), fd)
    {
      ghost var t := Entries();
      if first == null || first.fd > 1 {
        OneIsFree(t);
        return 1;
      }
      var index := first;
      ghost var i := 0;
      assert t[0].fd == 1;
      var last := index.fd;
      while index.next != null
        invariant 0 <= i < |nodes| && index == nodes[i] && last == index.fd == i + 1
        invariant forall j :: 0 <= j <= i ==> t[j].fd == j + 1
        decreases |nodes| - i
      {
        var next := index.next.fd;
        assert t[i + 1].fd == next;
        if next != last + 1 {
          GapIsFree(t, i);
          return last + 1;
        }
        index := index.next;
        i := i + 1;
        last := next;
      }
      GapIsFree(t, i);
      return index.fd + 1;
    }

    /** Links a new node in before `index`, which is not the head. */
    method LinkBefore(port: PortNode, index: PortNode, ghost k: nat)
      requires Linked() && 0 < k < |nodes| && nodes[k] == index && port !in footprint
      modifies this`nodes, this`footprint, port`prev, port`next, footprint`prev, footprint`next
      ensures Linked() && nodes == old(Spliced(nodes, k, port)) && first == old(first)
      ensures footprint == old(footprint) + {port}
    {
      port.prev := index.prev;
      port.next := index;
      index.prev.next := port;
      index.prev := port;
      ghost var was := nodes;
      SplicedDistinct(was, k, port);
      nodes, footprint := Spliced(was, k, port), footprint + {port};
      forall i | 0 <= i < |nodes|
        ensures nodes[i] in footprint
        ensures nodes[i].next == At(nodes, i + 1) && nodes[i].prev == At(nodes, i - 1)
      {
        if i != k {
          ghost var m := if i < k then i else i - 1;
          assert nodes[i] == was[m];
          assert was[m].next == if m == k - 1 then port else At(was, m + 1);
          assert was[m].prev == if m == k then port else At(was, m - 1);
        }
      }
    }

    /** Links a new node in behind the last one. */
    method LinkLast(port: PortNode, index: PortNode)
      requires Linked() && nodes != [] && nodes[|nodes| - 1] == index && port !in footprint
      modifies this`nodes, this`footprint, port`prev, port`next, footprint`next
      ensures Linked() && nodes == old(nodes) + [port] && first == old(first)
      ensures footprint == old(footprint) + {port}
    {
      port.prev := index;
      port.next := null;
      index.next := port;
      nodes, footprint := nodes + [port], footprint + {port};
    }

    /** Takes a node out of the list. */
    method Unlink(index: PortNode, ghost k: nat)
      requires Linked() && k < |nodes| && nodes[k] == index
      modifies this, footprint`prev, footprint`next
      ensures Linked() && nodes == old(Dropped(nodes, k)) && footprint == old(footprint)
    {
      if index.next != null && index.prev != null {
        index.next.prev := index.prev;
        index.prev.next := index.next;
      } else if index.prev != null {
        index.prev.next := null;
      } else if index.next != null {
        index.next.prev := null;
        first := index.next;
      } else {
        first := null;
      }
      ghost var was := nodes;
      DroppedDistinct(was, k);
      nodes := Dropped(was, k);
      forall i | 0 <= i < |nodes|
        ensures nodes[i] in footprint
        ensures nodes[i].next == At(nodes, i + 1) && nodes[i].prev == At(nodes, i - 1)
      {
        ghost var m := if i < k then i else i + 1;
        assert nodes[i] == was[m];
        assert was[m].next == if m == k - 1 then At(was, k + 1) else At(was, m + 1);
        assert was[m].prev == if m == k + 1 then At(was, k - 1) else At(was, m - 1);
      }
    }

    /** The node to insert at: the first larger one, or the last of all. */
    method Locate(fd: int) returns (index: PortNode, ghost i: nat)
      requires Linked() && nodes != [] && Fits(Entries(), fd)
      ensures i < |nodes| && nodes[i] == index
      ensures index.fd > fd ==> i == fd - 1
      ensures index.fd <= fd ==> i == |nodes| - 1 && fd == |nodes| + 1
    {
      ghost var t := Entries();
      index, i := first, 0;
      while index.fd < fd && index.next != null
        invariant 0 <= i < |nodes| && index == nodes[i]
        invariant i < fd
        decreases |nodes| - i
      {
        assert t[i].fd == index.fd;
        index, i := index.next, i + 1;
      }
      assert t[i].fd == index.fd;
    }

    /** Links the node in by its descriptor.  False when the program has died on the null
        `prev` of the head; the list is then as it was. */
    method Link(port: PortNode) returns (ok: bool)
      requires Linked() && port !in footprint && Fits(Entries(), port.fd)
      modifies this, footprint`prev, footprint`next, port`prev, port`next
      ensures Linked()
      ensures ok <==> !old(HeadInsert(Entries()))
      ensures nodes == if ok then Spliced(old(nodes), port.fd - 1, port) else old(nodes)
      ensures footprint <= old(footprint) + {port}
    {
      ok := true;
      ghost var t := Entries();
      if first == null {
        port.prev, port.next := null, null;
        first := port;
        nodes, footprint := [port], footprint + {port};
      } else {
        assert t[0].fd == first.fd;
        var index, i := Locate(port.fd);
        if index.fd > port.fd {
          if index.prev == null {
            return false;
          }
          LinkBefore(port, index, i);
        } else {
          LinkLast(port, index);
          assert nodes == Spliced(old(nodes), port.fd - 1, port);
        }
      }
    }

    /** The same, seen from the entries. */
    method Insert(port: PortNode) returns (ok: bool)
      requires Linked() && port !in footprint && Fits(Entries(), port.fd)
      modifies this, footprint`prev, footprint`next, port`prev, port`next
      ensures Linked()
      ensures ok <==> !old(HeadInsert(Entries()))
      ensures nodes == if ok then Spliced(old(nodes), port.fd - 1, port) else old(nodes)
      ensures footprint <= old(footprint) + {port}
      ensures Entries() == if ok then Inserted(old(Entries()), Entry(port.fd, port.filename)) else old(Entries())
    {
      ghost var was := nodes;
      ok := Link(port);
      EntriesUntouched(was);
      EntriesSpliced(was, port);
    }

    /** Allocates a node with the smallest free descriptor and inserts it. */
    method AddPort(filename: string) returns (ok: bool, port: PortNode)
      requires Valid() && !IsOpen(Entries(), filename)
      modifies this, footprint`prev, footprint`next
      ensures fresh(port) && Valid()
      ensures ok <==> !old(HeadInsert(Entries()))
      ensures !ok ==> nodes == old(nodes) && Entries() == old(Entries())
      ensures ok ==> SmallestFree(old(Entries()), port.fd) && port.fd <= |old(nodes)| + 1
      ensures ok ==> Entries() == Inserted(old(Entries()), Entry(port.fd, filename))
      ensures footprint <= old(footprint) + {port}
    {
      var fd := GetFreeFd();
      FreePosition(Entries(), fd);
      InsertKeepsOrder(Entries(), fd, filename);
      port := new PortNode(fd, filename);
      ok := Insert(port);
    }

    /** Takes the port out of the table; 0 on an empty table, -1 for an unknown descriptor. */
    method SerialClose(fd: int) returns (result: int)
      requires Valid()
      modifies this, footprint`prev, footprint`next
      ensures Valid() && Entries() == Without(old(Entries()), fd) && footprint == old(footprint)
      ensures result == if old(nodes) != [] && !old(Used(Entries(), fd)) then -1 else 0
    {
      ghost var t, was := Entries(), nodes;
      if first == null {
        return 0;
      }
      var index := FindPort(fd);
      if index == null {
        return -1;
      }
      ghost var k :| 0 <= k < |nodes| && nodes[k] == index;
      Unlink(index, k);
      RemoveKeepsOrder(t, k);
      EntriesUntouched(was);
      EntriesDropped(was, k);
      WithoutAt(t, k);
      return 0;
    }

    /** Takes a port that could not be opened out again. */
    method TakeBack(fd: int, ghost t: seq<Entry>, ghost filename: string)
      requires Valid() && 0 < fd <= |t| + 1 && Entries() == Inserted(t, Entry(fd, filename))
      modifies this, footprint`prev, footprint`next
      ensures Valid() && Entries() == t
    {
      RemoveUndoesInsert(t, Entry(fd, filename));
      var _ := SerialClose(fd);
    }

    /** `add_port`, with the descriptor it hands out. */
    method Admit(filename: string) returns (ok: bool, fd: int)
      requires Valid() && !IsOpen(Entries(), filename)
      modifies this, footprint`prev, footprint`next
      ensures Valid() && (ok <==> !old(HeadInsert(Entries())))
      ensures ok ==> fd == FreeFd(old(Entries())) <= |old(Entries())| + 1
      ensures ok ==> Entries() == Inserted(old(Entries()), Entry(fd, filename))
      ensures forall n <- footprint :: n in old(footprint) || fresh(n)
    {
      ghost var t := Entries();
      var port;
      ok, port := AddPort(filename);
      fd := port.fd;
      if ok {
        FreeIsUnique(t, fd, FreeFd(t));
      }
    }

    /** Opens a port; `device` says whether the device could be opened and queried. */
    method SerialOpen(filename: string, device: bool) returns (ok: bool, fd: int)
      requires Valid()
      modifies this, footprint`prev, footprint`next
      ensures Valid()
      ensures Step(Running(old(Entries())), Open(filename, device))
           == if ok then Running(Entries()) else Crashed
      ensures ok && fd != -1 ==> SmallestFree(old(Entries()), fd) && Entry(fd, filename) in Entries()
      ensures ok && fd == -1 ==> old(IsOpen(Entries(), filename)) || !device
    {
      ghost var t := Entries();
      OpenCases(t, filename, device);
      var open := PortOpened(filename);
      if open != 0 {
        return true, -1;
      }
      ok, fd := Admit(filename);
      if !ok {
        return false, -1;
      }
      if !device {
        TakeBack(fd, t, filename);
        return true, -1;
      }
      InsertedAt(t, Entry(fd, filename), fd - 1);
    }
  }
}
