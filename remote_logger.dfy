/** The remote logger's server handler and the `Logger` facade over it.
    Sends on a connection are not performed: each one is recorded as a
    delivery appended to the handler's send log. Each method is one atomic step
    (the handler's mutex is not modelled). */
module RemoteLogger {
  import opened Registry
  import opened PortSelection

  /** The frame opcodes a message is sent with. */
  datatype Opcode = Text | Binary

  /** One `send(msg, opcode)` issued on connection `to`. */
  datatype Delivery = Delivery(to: Conn, payload: string, opcode: Opcode)

  /** The sends one broadcast of `msg` issues over the traversal `conns`. */
  function BroadcastSends(conns: seq<Conn>, msg: string): (r: seq<Delivery>)
    ensures |r| == |conns|
  {
    if conns == [] then []
    else BroadcastSends(conns[..|conns| - 1], msg) + [Delivery(conns[|conns| - 1], msg, Text)]
  }

  /** The number of sends in `log` addressed to `x`. */
  function SendsTo(log: seq<Delivery>, x: Conn): nat
  {
    if log == [] then 0
    else SendsTo(log[..|log| - 1], x) + (if log[|log| - 1].to == x then 1 else 0)
  }

  /** The `k`-th send of a broadcast goes to the `k`-th member, with the
      message as a text frame, and there is one send per member. */
  lemma {:induction false} BroadcastSendAt(conns: seq<Conn>, msg: string, k: int)
    requires 0 <= k < |conns|
    ensures |BroadcastSends(conns, msg)| == |conns|
    ensures BroadcastSends(conns, msg)[k] == Delivery(conns[k], msg, Text)
    decreases |conns|
  {
    var n := |conns| - 1;
    if k < n {
      BroadcastSendAt(conns[..n], msg, k);
    }
  }

  /** A broadcast over the set sends to every member exactly once and to no
      other connection, and issues as many sends as the set has members. */
  lemma {:induction false} BroadcastReachesEachOnce(conns: seq<Conn>, msg: string, x: Conn)
    requires StrictlyAscending(conns)
    ensures SendsTo(BroadcastSends(conns, msg), x) == if x in conns then 1 else 0
    ensures |BroadcastSends(conns, msg)| == |Elements(conns)|
    decreases |conns|
  {
    SizeIsLength(conns);
    if conns != [] {
      var n := |conns| - 1;
      var prefix := conns[..n];
      assert StrictlyAscending(prefix);
      BroadcastReachesEachOnce(prefix, msg, x);
      var log := BroadcastSends(conns, msg);
      assert log[..|log| - 1] == BroadcastSends(prefix, msg);
      assert conns == prefix + [conns[n]];
      if x == conns[n] {
        forall k | 0 <= k < n
          ensures prefix[k] != x
        {
          assert conns[k] < conns[n];
        }
      }
    }
  }

  /** The sends of one broadcast go out in strictly ascending key order, all
      carrying the message as a text frame. */
  lemma BroadcastInKeyOrder(conns: seq<Conn>, msg: string)
    requires StrictlyAscending(conns)
    ensures forall i, j :: 0 <= i < j < |BroadcastSends(conns, msg)| ==>
              BroadcastSends(conns, msg)[i].to < BroadcastSends(conns, msg)[j].to
    ensures forall i :: 0 <= i < |BroadcastSends(conns, msg)| ==>
              BroadcastSends(conns, msg)[i].payload == msg &&
              BroadcastSends(conns, msg)[i].opcode == Text
  {
    forall k | 0 <= k < |conns| ensures BroadcastSends(conns, msg)[k] == Delivery(conns[k], msg, Text) {
      BroadcastSendAt(conns, msg, k);
    }
  }

  /** `logger_server_handler`: the set of open connections and the log of the
      sends it has issued. */
  class LoggerServerHandler {
    /** `m_connections`, in key order. */
    var connections: seq<Conn>
    /** Every send issued so far, oldest first. */
    var sent: seq<Delivery>

    ghost predicate Valid()
      reads this
    {
      StrictlyAscending(connections)
    }

    /** The members, as a mathematical set. */
    ghost function Members(): set<Conn>
      reads this
    {
      Elements(connections)
    }

    constructor ()
      ensures Valid()
      ensures connections == [] && sent == []
    {
      connections := [];
      sent := [];
    }

    /** Registers `con`; every earlier member stays, and nothing is sent. */
    method OnOpen(con: Conn)
      requires Valid()
      modifies this
      ensures Valid()
      ensures connections == SetInsert(old(connections), con)
      ensures Members() == old(Members()) + {con}
      ensures con in old(connections) ==> connections == old(connections)
      ensures sent == old(sent)
    {
      connections := SetInsert(connections, con);
    }

    /** Deregisters `con`; the other members stay, and nothing is sent. */
    method OnClose(con: Conn)
      requires Valid()
      modifies this
      ensures Valid()
      ensures connections == SetErase(old(connections), con)
      ensures Members() == old(Members()) - {con}
      ensures con !in old(connections) ==> connections == old(connections)
      ensures sent == old(sent)
    {
      connections := SetErase(connections, con);
    }

    /** Sends `msg` as a text frame to every member in key order; the set is
        not changed. */
    method Broadcast(msg: string)
      requires Valid()
      modifies this
      ensures Valid()
      ensures connections == old(connections)
      ensures sent == old(sent) + BroadcastSends(connections, msg)
    {
      var i := 0;
      while i < |connections|
        invariant 0 <= i <= |connections|
        invariant connections == old(connections)
        invariant sent == old(sent) + BroadcastSends(connections[..i], msg)
      {
        assert connections[..i + 1][..i] == connections[..i];
        sent := sent + [Delivery(connections[i], msg, Text)];
        i := i + 1;
      }
      assert connections[..i] == connections;
    }
  }

  /** `Logger`: owns a port and, once the service is started, a handler. */
  class Logger {
    const port: Port
    var handler: LoggerServerHandler?

    constructor (port: Port)
      ensures this.port == port && handler == null
    {
      this.port := port;
      handler := null;
    }

    /** Creates a fresh handler with no connections; the listening thread it
        starts is not modelled. */
    method StartService()
      modifies this
      ensures fresh(handler)
      ensures handler != null && handler.Valid()
      ensures handler.connections == [] && handler.sent == []
    {
      handler := new LoggerServerHandler();
    }

    /** Has exactly the effect of `broadcast(msg)` on the handler. */
    method Log(msg: string)
      requires handler != null && handler.Valid()
      modifies handler
      ensures handler.Valid()
      ensures handler.connections == old(handler.connections)
      ensures handler.sent == old(handler.sent) + BroadcastSends(handler.connections, msg)
    {
      handler.Broadcast(msg);
    }
  }

  /** Part of the usage example below: closing the middle one of three
      connections. */
  lemma EraseMiddle(a: Conn, b: Conn, c: Conn)
    requires a < b < c
    ensures SetErase([a, b, c], b) == [a, c]
  {
    assert [a, b, c][1..] == [b, c];
    assert [b, c][1..] == [c];
  }

  /** Part of the usage example below: three clients connect, one of them
      twice, and a broadcast reaches each of them once. */
  method OpenThreeAndBroadcast(a: Conn, b: Conn, c: Conn, ping: string)
    returns (h: LoggerServerHandler)
    requires a < b < c
    ensures fresh(h) && h.Valid()
    ensures h.connections == [a, b, c]
    ensures h.sent == BroadcastSends([a, b, c], ping)
  {
    h := new LoggerServerHandler();
    h.OnOpen(a);
    assert h.connections == [a];
    h.OnOpen(b);
    assert h.connections == [a] + SetInsert([], b) == [a, b];
    h.OnOpen(c);
    assert h.connections == [a] + SetInsert([b], c) == [a, b, c];
    h.OnOpen(b);
    h.Broadcast(ping);
  }

  /** A usage example, not part of the source: three clients connect, one of
      them leaves between two broadcasts; the first broadcast reaches all
      three once each, the second only those that stayed. */
  method ChurnBetweenBroadcasts(a: Conn, b: Conn, c: Conn, ping: string, ping2: string)
    requires a < b < c
  {
    var h := OpenThreeAndBroadcast(a, b, c, ping);
    var first := h.sent;
    BroadcastReachesEachOnce([a, b, c], ping, b);
    assert SendsTo(first, b) == 1;
    h.OnClose(b);
    EraseMiddle(a, b, c);
    assert h.connections == [a, c];
    h.OnClose(b);
    h.Broadcast(ping2);
    var second := BroadcastSends([a, c], ping2);
    assert h.sent == first + second;
    BroadcastReachesEachOnce([a, c], ping2, b);
    assert SendsTo(second, b) == 0;
  }
}
