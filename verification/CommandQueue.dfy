/** The daemon's queue of commands for the firmware: a linked list, appended at its end, popped at its head. */
module CommandQueue {
  import opened Wrappers

  datatype CmdId = PowerOn | PowerOff | Sample | Log | Listen

  /** struct timeval. */
  datatype TimeVal = TimeVal(sec: int, usec: int)

  const CLEARED := TimeVal(0, 0)

  /** timercmp(a, b, <). */
  predicate Before(a: TimeVal, b: TimeVal) {
    if a.sec == b.sec then a.usec < b.usec else a.sec < b.sec
  }

  datatype Command = Command(fd: int, cmd: CmdId, param: Option<string>, sent: bool, start: TimeVal)

  predicate Expired(c: Command, now: TimeVal) {
    Before(TimeVal(c.start.sec + 2, c.start.usec), now)
  }

  function Micros(t: TimeVal): int {
    1000000 * t.sec + t.usec
  }

  predicate Normal(t: TimeVal) {
    0 <= t.usec < 1000000
  }

  /** Expired: more than two seconds since it was sent. */
  lemma ExpiredAfterTwoSeconds(c: Command, now: TimeVal)
    requires Normal(c.start) && Normal(now)
    ensures Expired(c, now) <==> Micros(now) - Micros(c.start) > 2000000
  {
  }

  class Cmd {
    const fd: int
    const cmd: CmdId
    const param: Option<string>
    var sent: bool
    var tvStart: TimeVal
    var next: Cmd?

    constructor (fd: int, cmd: CmdId, param: Option<string>)
      ensures Value() == Command(fd, cmd, param, false, CLEARED) && next == null
    {
      this.fd, this.cmd, this.param := fd, cmd, param;
      sent, tvStart, next := false, CLEARED, null;
    }

    function Value(): Command
      reads this
    {
      Command(fd, cmd, param, sent, tvStart)
    }

    method HasExpired(now: TimeVal) returns (b: bool)
      ensures b == Expired(Value(), now)
    {
      var start := tvStart.(sec := tvStart.sec + 2);
      b := Before(start, now);
    }
  }

  /** The nodes of the list, each linked to the next. */
  ghost predicate Linked(first: Cmd?, nodes: seq<Cmd>)
    reads nodes
  {
    && (nodes == [] ==> first == null)
    && (nodes != [] ==> first == nodes[0] && nodes[|nodes| - 1].next == null)
    && (forall i {:trigger nodes[i].next} | 0 <= i < |nodes| - 1 :: nodes[i].next != null && nodes[i].next == nodes[i + 1])
    && (forall i, j | 0 <= i < j < |nodes| :: nodes[i] != nodes[j])
  }

  ghost predicate Holds(nodes: seq<Cmd>, contents: seq<Command>)
    reads nodes
  {
    |contents| == |nodes| && forall i {:trigger nodes[i].Value()} {:trigger contents[i]} | 0 <= i < |nodes| :: nodes[i].Value() == contents[i]
  }

  class Queue {
    var first: Cmd?
    ghost var nodes: seq<Cmd>
    ghost var contents: seq<Command>
    ghost var repr: set<Cmd>

    constructor ()
      ensures Valid() && contents == [] && repr == {}
    {
      first, nodes, contents, repr := null, [], [], {};
    }

    ghost predicate Valid()
      reads this, repr
    {
      (forall c | c in nodes :: c in repr) && Linked(first, nodes) && Holds(nodes, contents)
    }

    /** cmd_get_last. */
    method GetLast() returns (last: Cmd?)
      requires Valid()
      ensures nodes == [] ==> last == null
      ensures nodes != [] ==> last == nodes[|nodes| - 1]
    {
      last := first;
      if last != null {
        ghost var i: nat := 0;
        while last.next != null
          invariant i < |nodes| && last == nodes[i]
          decreases |nodes| - i
        {
          last := last.next;
          i := i + 1;
        }
      }
    }

    /** Links a new node behind the last one. */
    method Append(last: Cmd, newCmd: Cmd)
      requires Valid() && nodes != [] && last == nodes[|nodes| - 1]
      requires newCmd !in nodes && newCmd.next == null
      modifies `nodes, `contents, `repr, last`next
      ensures Valid() && repr == old(repr) + {newCmd} && nodes == old(nodes) + [newCmd] && contents == old(contents) + [newCmd.Value()]
    {
      last.next := newCmd;
      assert Holds(nodes, contents);
      nodes := nodes + [newCmd];
      contents := contents + [newCmd.Value()];
      repr := repr + {newCmd};
    }

    method Push(fd: int, cmd: CmdId, param: Option<string>)
      requires Valid()
      modifies this, repr
      ensures Valid() && fresh(repr - old(repr)) && old(repr) <= repr
      ensures contents == old(contents) + [Command(fd, cmd, param, false, CLEARED)]
    {
      var newCmd := new Cmd(fd, cmd, param);
      if first == null {
        first := newCmd;
        nodes, contents, repr := [newCmd], [newCmd.Value()], repr + {newCmd};
      } else {
        var last := GetLast();
        Append(last, newCmd);
      }
    }

    method Pop()
      requires Valid()
      modifies this
      ensures Valid() && repr == old(repr)
      ensures contents == if old(contents) == [] then [] else old(contents)[1..]
    {
      if first == null {
        return;
      }
      first := first.next;
      nodes := nodes[1..];
      contents := contents[1..];
    }

    /** cmd_sent on the head, the only command ever passed to it. */
    method Sent(now: TimeVal)
      requires Valid()
      modifies this, repr
      ensures Valid() && repr == old(repr)
      ensures contents == if old(contents) == [] then []
                            else [old(contents)[0].(sent := true, start := now)] + old(contents)[1..]
    {
      if first == null {
        return;
      }
      first.sent := true;
      first.tvStart := now;
      contents := [contents[0].(sent := true, start := now)] + contents[1..];
    }

    method Clear()
      requires Valid()
      modifies this
      ensures Valid() && contents == []
    {
      while first != null
        invariant Valid()
        decreases |nodes|
      {
        first := first.next;
        nodes := nodes[1..];
        contents := contents[1..];
      }
    }
  }
}
