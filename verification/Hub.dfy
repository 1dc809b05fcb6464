/**
 The hub and its clients as the objects they are: a set that connections join and leave, and a
 channel per client that broadcasts fill and the writer drains.  Each method is what one
 goroutine does when no other runs in between; `HubProtocol` is about the interleavings, and
 both are stated with the same channel operations.
 */
module Realtime {
  import opened Wiring
  import opened HubProtocol

  /** How a writer's loop is left, or that it waits for another frame. */
  datatype Outcome = WriteFailed | Ended | Waits

  class Client {
    var send: Channel
    var written: seq<Frame>

    constructor ()
      ensures send == FRESH_CHANNEL && written == []
    {
      send := FRESH_CHANNEL;
      written := [];
    }

    /** A non-blocking send; the caller knows that the channel is open. */
    method TrySend(f: Frame, from: Source)
      requires !send.closed
      modifies `send
      ensures send == Offer(old(send), f, from)
      ensures send.buf == if |old(send.buf)| < 256 then old(send.buf) + [f] else old(send.buf)
    {
      if |send.buf| < CAPACITY {
        send := send.(buf := send.buf + [f], tries := send.tries + [Try(f, from, |send.buf|, true)]);
      } else {
        send := send.(tries := send.tries + [Try(f, from, |send.buf|, false)]);
      }
    }

    /**
     Write frames until there is none.  `works(i)` says whether the write of frame `i` succeeds;
     the first that does not ends the loop with that frame lost and the rest still buffered.
     With the buffer empty the loop ends if the channel is closed, and else waits.
     */
    method WritePump(works: nat -> bool) returns (n: nat, outcome: Outcome)
      modifies this
      ensures n <= |old(send.buf)| && (outcome == WriteFailed <==> n < |old(send.buf)|)
      ensures outcome != WriteFailed ==> (outcome == Ended <==> send.closed)
      ensures forall i :: 0 <= i < n ==> works(i)
      ensures outcome == WriteFailed ==> !works(n)
      ensures written == old(written) + old(send.buf)[..n]
      ensures send == old(send).(buf := if outcome == WriteFailed then old(send.buf)[n + 1..] else [])
    {
      n := 0;
      while send.buf != []
        invariant n <= |old(send.buf)| && send == old(send).(buf := old(send.buf)[n..])
        invariant written == old(written) + old(send.buf)[..n]
        invariant forall i :: 0 <= i < n ==> works(i)
        decreases |send.buf|
      {
        var msg := send.buf[0];
        send := send.(buf := send.buf[1..]);
        if !works(n) {
          outcome := WriteFailed;
          return;
        }
        written := written + [msg];
        n := n + 1;
      }
      outcome := if send.closed then Ended else Waits;
    }
  }

  class Hub {
    var clients: set<Client>

    // Membership implies an open channel.
    ghost predicate Valid()
      reads this, clients
    {
      forall c :: c in clients ==> !c.send.closed
    }

    constructor ()
      ensures Valid() && clients == {}
    {
      clients := {};
    }

    method Register(c: Client)
      requires Valid() && !c.send.closed
      modifies this
      ensures Valid() && clients == old(clients) + {c}
    {
      clients := clients + {c};
    }

    /** Leave the set, then close the channel. */
    method Unregister(c: Client)
      requires Valid() && !c.send.closed
      modifies this, c`send
      ensures Valid() && clients == old(clients) - {c}
      ensures c.send == old(c.send).(closed := true)
    {
      clients := clients - {c};
      c.send := c.send.(closed := true);
    }

    /** A new connection: join the set, then be greeted. */
    method Serve() returns (c: Client)
      requires Valid()
      modifies this
      ensures Valid() && fresh(c) && clients == old(clients) + {c}
      ensures c.send == Offer(FRESH_CHANNEL, Hello, Greeting) && c.written == []
      ensures c.send.buf == [Hello] && !c.send.closed
    {
      c := new Client();
      Register(c);
      c.TrySend(Hello, Greeting);
    }

    /** Offer a frame to every client, in any order; to none twice and to no one else. */
    method Broadcast(f: Frame, from: Source)
      requires Valid()
      modifies clients`send
      ensures Valid() && clients == old(clients)
      ensures forall c :: c in clients ==> c.send == Offer(old(c.send), f, from)
      ensures forall c :: c in clients ==> c.send.buf == if |old(c.send.buf)| < 256 then old(c.send.buf) + [f] else old(c.send.buf)
    {
      var todo := clients;
      while todo != {}
        invariant todo <= clients && Valid()
        invariant forall c :: c in todo ==> c.send == old(c.send)
        invariant forall c :: c in clients - todo ==> c.send == Offer(old(c.send), f, from)
        decreases |todo|
      {
        var c :| c in todo;
        c.TrySend(f, from);
        todo := todo - {c};
      }
    }
  }
}
