/** The daemon's connections: a linked list with the messages each has asked for. */
module ClientList {

  datatype Wants = Wants(request: bool, error: bool, sensor: bool, movement: bool, button: bool)

  const NOTHING := Wants(false, false, false, false, false)
  const EVERYTHING := Wants(true, true, true, true, true)

  /** A connection: its descriptor, what it listens for, and the bytes in its read buffer. */
  datatype Connection = Connection(fd: int, wants: Wants, pending: seq<char>)

  /** One connection for each descriptor. */
  ghost predicate DistinctFds(clients: seq<Connection>) {
    forall i, j | 0 <= i < j < |clients| :: clients[i].fd != clients[j].fd
  }

  predicate NobodyOn(clients: seq<Connection>, fd: int) {
    forall i | 0 <= i < |clients| :: clients[i].fd != fd
  }

  class Client {
    const fd: int
    var requestListener: bool
    var errorListener: bool
    var sensorListener: bool
    var movementListener: bool
    var buttonListener: bool
    var pending: seq<char>
    var next: Client?

    constructor (fd: int)
      ensures Value() == Connection(fd, NOTHING, []) && next == null && this.fd == fd
    {
      this.fd := fd;
      requestListener, errorListener, sensorListener, movementListener, buttonListener := false, false, false, false, false;
      pending, next := [], null;
    }

    function Value(): Connection
      reads this
    {
      Connection(fd, Wants(requestListener, errorListener, sensorListener, movementListener, buttonListener), pending)
    }
  }

  /** The nodes of the list, each linked to the next, and what they hold. */
  ghost predicate Linked(first: Client?, nodes: seq<Client>)
    reads nodes
  {
    && (nodes == [] ==> first == null)
    && (nodes != [] ==> first == nodes[0] && nodes[|nodes| - 1].next == null)
    && (forall i {:trigger nodes[i].next} | 0 <= i < |nodes| - 1 :: nodes[i].next != null && nodes[i].next == nodes[i + 1])
    && Distinct(nodes)
  }

  ghost predicate Distinct(nodes: seq<Client>) {
    forall i, j | 0 <= i < j < |nodes| :: nodes[i] != nodes[j]
  }

  lemma DistinctWithout(nodes: seq<Client>, i: nat)
    requires i < |nodes| && Distinct(nodes)
    ensures Distinct(nodes[..i] + nodes[i + 1..])
    ensures nodes[i] !in nodes[..i] + nodes[i + 1..]
  {
  }

  lemma DistinctWith(nodes: seq<Client>, c: Client)
    requires Distinct(nodes) && c !in nodes
    ensures Distinct(nodes + [c])
  {
  }

  /** Linked as before, but for what follows node k. */
  ghost predicate LinkedBut(first: Client?, nodes: seq<Client>, k: nat)
    reads nodes
  {
    && k < |nodes| && first == nodes[0] && Distinct(nodes)
    && (k < |nodes| - 1 ==> nodes[|nodes| - 1].next == null)
    && (forall i {:trigger nodes[i].next} | 0 <= i < |nodes| - 1 && i != k :: nodes[i].next != null && nodes[i].next == nodes[i + 1])
  }

  /** Skipping a node keeps the others linked. */
  lemma {:induction false} SkipsNode(first: Client?, nodes: seq<Client>, i: nat)
    requires 1 <= i < |nodes| && LinkedBut(first, nodes, i - 1) && nodes[i - 1].next == nodes[i].next
    ensures Linked(first, nodes[..i] + nodes[i + 1..])
  {
    DistinctWithout(nodes, i);
  }

  /** Linking a new node behind the last one. */
  lemma {:induction false} LinksNode(first: Client?, nodes: seq<Client>, c: Client)
    requires nodes != [] && LinkedBut(first, nodes, |nodes| - 1) && c !in nodes
    requires nodes[|nodes| - 1].next == c && c.next == null
    ensures Linked(first, nodes + [c])
  {
    DistinctWith(nodes, c);
  }

  ghost predicate Holds(nodes: seq<Client>, contents: seq<Connection>)
    reads nodes
  {
    |contents| == |nodes| && forall i {:trigger nodes[i].Value()} {:trigger contents[i]} | 0 <= i < |nodes| :: nodes[i].Value() == contents[i]
  }

  lemma HoldsWithout(nodes: seq<Client>, contents: seq<Connection>, i: nat)
    requires i < |nodes| && Holds(nodes, contents)
    ensures Holds(nodes[..i] + nodes[i + 1..], contents[..i] + contents[i + 1..])
  {
  }

  lemma HoldsWith(nodes: seq<Client>, contents: seq<Connection>, c: Client)
    requires Holds(nodes, contents)
    ensures Holds(nodes + [c], contents + [c.Value()])
  {
  }

  /** The position of the first connection on fd, or the length. */
  function Position(s: seq<Connection>, fd: int): (i: nat)
    ensures i <= |s|
    decreases s
  {
    if s == [] || s[0].fd == fd then 0 else 1 + Position(s[1..], fd)
  }

  /** The list without its first connection on fd. */
  function Without(s: seq<Connection>, fd: int): seq<Connection> {
    var i := Position(s, fd);
    if i == |s| then s else s[..i] + s[i + 1..]
  }

  lemma {:induction false} PositionIs(s: seq<Connection>, fd: int, i: nat)
    requires i <= |s| && (i < |s| ==> s[i].fd == fd) && forall k | 0 <= k < i :: s[k].fd != fd
    ensures Position(s, fd) == i
    decreases s
  {
    if s != [] && s[0].fd != fd { PositionIs(s[1..], fd, i - 1); }
  }

  lemma {:induction false} PositionAtMost(s: seq<Connection>, fd: int, i: nat)
    requires i < |s| && s[i].fd == fd
    ensures Position(s, fd) <= i
    decreases s
  {
    if s[0].fd != fd { PositionAtMost(s[1..], fd, i - 1); }
  }

  class List {
    var first: Client?
    ghost var nodes: seq<Client>
    ghost var contents: seq<Connection>
    ghost var repr: set<Client>

    constructor ()
      ensures Valid() && contents == [] && repr == {}
    {
      first, nodes, contents, repr := null, [], [], {};
    }

    ghost predicate Valid()
      reads this, repr
    {
      (forall c | c in nodes :: c in repr) && Linked(first, nodes) && Holds(nodes, contents)
    }

    /** client_get_last. */
    method GetLast() returns (last: Client?)
      requires Valid()
      ensures nodes == [] ==> last == null
      ensures nodes != [] ==> last == nodes[|nodes| - 1]
    {
      last := first;
      if last != null {
        ghost var i: nat := 0;
        while last.next != null
          invariant i < |nodes| && last == nodes[i]
          decreases |nodes| - i
        {
          last := last.next;
          i := i + 1;
        }
      }
    }

    /** Links a new node behind the last one. */
    method Append(last: Client, newClient: Client)
      requires Valid() && nodes != [] && last == nodes[|nodes| - 1]
      requires newClient !in nodes && newClient.next == null
      modifies `nodes, `contents, `repr, last`next
      ensures Valid() && repr == old(repr) + {newClient} && nodes == old(nodes) + [newClient] && contents == old(contents) + [newClient.Value()]
    {
      last.next := newClient;
      assert Holds(nodes, contents);
      LinksNode(first, nodes, newClient);
      HoldsWith(nodes, contents, newClient);
      nodes := nodes + [newClient];
      contents := contents + [newClient.Value()];
      repr := repr + {newClient};
    }

    method Add(fd: int)
      requires Valid()
      modifies this, repr
      ensures Valid() && contents == old(contents) + [Connection(fd, NOTHING, [])]
      ensures fresh(repr - old(repr)) && old(repr) <= repr
    {
      var newClient := new Client(fd);
      if first == null {
        first := newClient;
        nodes, contents, repr := [newClient], [newClient.Value()], repr + {newClient};
      } else {
        var last := GetLast();
        Append(last, newClient);
      }
    }

    /** The loop of client_remove: the node on fd past the first one, and the node before it. */
    method Locate(fd: int) returns (prev: Client, deletee: Client?, ghost i: nat)
      requires Valid() && nodes != [] && nodes[0].fd != fd
      ensures 1 <= i <= |nodes| && prev == nodes[i - 1]
      ensures i < |nodes| ==> deletee == nodes[i]
      ensures i == |nodes| ==> deletee == null
      ensures i == Position(contents, fd)
    {
      prev := first;
      deletee := first.next;
      i := 1;
      while deletee != null && deletee.fd != fd
        invariant 1 <= i <= |nodes| && prev == nodes[i - 1]
        invariant i < |nodes| ==> deletee == nodes[i]
        invariant i == |nodes| ==> deletee == null
        invariant forall k | 0 <= k < i :: nodes[k].fd != fd
        decreases |nodes| - i
      {
        prev := deletee;
        deletee := deletee.next;
        i := i + 1;
      }
      assert forall k | 0 <= k < i :: nodes[k].Value() == contents[k];
      PositionIs(contents, fd, i);
    }

    /** Takes the node after prev out of the list. */
    method Unlink(prev: Client, deletee: Client, ghost i: nat)
      requires Valid() && 1 <= i < |nodes| && prev == nodes[i - 1] && deletee == nodes[i]
      modifies `nodes, `contents, prev`next
      ensures Valid() && nodes == old(nodes)[..i] + old(nodes)[i + 1..]
      ensures contents == old(contents)[..i] + old(contents)[i + 1..]
    {
      prev.next := deletee.next;
      assert Holds(nodes, contents);
      SkipsNode(first, nodes, i);
      HoldsWithout(nodes, contents, i);
      nodes := nodes[..i] + nodes[i + 1..];
      contents := contents[..i] + contents[i + 1..];
    }

    method UnlinkFirst()
      requires Valid() && nodes != []
      modifies `first, `nodes, `contents
      ensures Valid() && nodes == old(nodes)[1..] && contents == old(contents)[1..]
    {
      first := first.next;
      nodes := nodes[1..];
      contents := contents[1..];
    }

    method Remove(fd: int) returns (ghost p: nat)
      requires Valid()
      modifies this, repr
      ensures Valid() && contents == Without(old(contents), fd) && repr == old(repr)
      ensures p == Position(old(contents), fd)
      ensures nodes == if p == |old(nodes)| then old(nodes) else old(nodes)[..p] + old(nodes)[p + 1..]
    {
      p := 0;
      if first == null {
        return;
      }
      assert nodes[0].Value() == contents[0];
      if first.fd == fd {
        UnlinkFirst();
        return;
      }
      var prev, deletee;
      prev, deletee, p := Locate(fd);
      if deletee != null {
        Unlink(prev, deletee, p);
      }
    }

    /** There is a connection on fd; it is the i-th or one before, so what comes after the i-th stays. */
    method RemoveUpTo(fd: int, ghost i: nat)
      requires Valid() && i < |contents| && contents[i].fd == fd
      modifies this, repr
      ensures Valid() && contents == Without(old(contents), fd) && repr == old(repr)
      ensures |nodes| == |old(nodes)| - 1 && nodes[i..] == old(nodes)[i + 1..]
    {
      ghost var before := nodes;
      PositionAtMost(contents, fd, i);
      ghost var p := Remove(fd);
      WithoutTail(before, nodes, p, i);
    }

    static lemma WithoutTail(before: seq<Client>, rest: seq<Client>, p: nat, i: nat)
      requires p <= i < |before| && rest == before[..p] + before[p + 1..]
      ensures |rest| == |before| - 1 && rest[i..] == before[i + 1..]
    {
    }

    method Find(fd: int) returns (c: Client?)
      requires Valid()
      ensures var i := Position(contents, fd);
              && (i == |nodes| ==> c == null)
              && (i < |nodes| ==> c == nodes[i])
    {
      c := first;
      ghost var i: nat := 0;
      while c != null && c.fd != fd
        invariant i <= |nodes|
        invariant i < |nodes| ==> c == nodes[i]
        invariant i == |nodes| ==> c == null
        invariant forall k | 0 <= k < i :: nodes[k].fd != fd
        decreases |nodes| - i
      {
        c := c.next;
        i := i + 1;
      }
      assert forall k | 0 <= k < |nodes| :: nodes[k].Value() == contents[k];
      PositionIs(contents, fd, i);
    }

    /** After the i-th node's fields have been assigned. */
    ghost method Refresh(i: nat)
      requires i < |nodes| == |contents| && Linked(first, nodes) && forall c | c in nodes :: c in repr
      requires forall k | 0 <= k < |nodes| && k != i :: nodes[k].Value() == contents[k]
      modifies `contents
      ensures Valid() && contents == old(contents)[i := nodes[i].Value()]
    {
      contents := contents[i := nodes[i].Value()];
    }
  }
}
