/**
 The order in which the server registers its listeners matters: with the queue's listener
 before the hub's, some run sends a client the job of a user before that user's registration.
 */
module HubOrder {
  import opened Wrappers
  import opened Wiring
  import opened HubProtocol
  import opened HubDelivery

  /** Nothing but connection 0, whose handler stands at `serve`. */
  function Alone(serve: Serve, clients: set<Cid>, writer: Option<Cid>): State {
    INIT.(conns := map[0 := Conn(serve, NotReading, NotWriting, FRESH_CHANNEL, [])], clients := clients, writer := writer)
  }

  lemma Upgrading(ls: Listeners)
    ensures Reachable(ls, Alone(Upgraded, {}, None))
  {
    ReachableInit(ls);
    ReachableStep(ls, INIT, Connect(0));
    assert Apply(ls, INIT, Connect(0)) == Alone(Upgraded, {}, None);
  }

  lemma Joining(ls: Listeners)
    ensures Reachable(ls, Alone(Inserted, {0}, Some(0)))
  {
    Upgrading(ls);
    var s := Alone(Upgraded, {}, None);
    ReachableStep(ls, s, Move(0, LockToRegister));
    var s1 := Alone(Registering, {}, Some(0));
    assert Apply(ls, s, Move(0, LockToRegister)) == s1;
    ReachableStep(ls, s1, Move(0, Insert));
    assert Apply(ls, s1, Move(0, Insert)) == Alone(Inserted, {0}, Some(0));
  }

  /** Client 0 is in the set and its handler is done with the lock. */
  lemma OneClient(ls: Listeners) returns (s: State)
    ensures Reachable(ls, s) && s == Alone(Registered, {0}, None)
  {
    Joining(ls);
    var s1 := Alone(Inserted, {0}, Some(0));
    ReachableStep(ls, s1, Move(0, UnlockRegistered));
    s := Alone(Registered, {0}, None);
    assert Apply(ls, s1, Move(0, UnlockRegistered)) == s;
  }

  /** A request at a broadcast, with client 0 alone in the set, sends its frame and is ready again. */
  lemma Sent(ls: Listeners, s: State, u: Uid, frame: Frame, rest: seq<Effect>) returns (s': State)
    requires Reachable(ls, s) && s.writer == INIT.writer && s.clients == {0} && 0 in s.conns && |s.conns[0].ch.buf| < CAPACITY
    requires u in s.requests && s.requests[u].now == Ready && s.requests[u].todo == [Broadcast(frame)] + rest
    ensures Reachable(ls, s') && s'.writer == INIT.writer && s'.clients == {0} && 0 in s'.conns
    ensures s'.conns[0].ch.buf == s.conns[0].ch.buf + [frame]
    ensures Accepted(s'.conns[0].ch.tries) == Accepted(s.conns[0].ch.tries) + [frame]
    ensures u in s'.requests && s'.requests[u].now == Ready && s'.requests[u].todo == rest
  {
    var s1 := Apply(ls, s, Run(u, LockToSend));
    ReachableStep(ls, s, Run(u, LockToSend));
    assert s1.requests[u].todo == rest;
    var s2 := Apply(ls, s1, Send(u, 0));
    ReachableStep(ls, s1, Send(u, 0));
    var tries := s2.conns[0].ch.tries;
    assert tries[..|tries| - 1] == s.conns[0].ch.tries;
    s' := Apply(ls, s2, Run(u, UnlockSent));
    ReachableStep(ls, s2, Run(u, UnlockSent));
  }

  /** Client 0 is connected, and the broker has taken the job of `u`. */
  lemma Enqueued(u: Uid) returns (s: State)
    ensures Reachable(Swapped(), s) && s.writer == INIT.writer && s.clients == {0}
    ensures s.conns == map[0 := Conn(Registered, NotReading, NotWriting, FRESH_CHANNEL, [])]
    ensures u in s.requests && s.requests[u].now == Ready
    ensures s.requests[u].todo == [Broadcast(JobEnqueuedFrame(u))] + [Broadcast(UserRegisteredFrame(u)), WriteAudit(u)]
  {
    var ls := Swapped();
    SwappedProgram(u);
    var s0 := OneClient(ls);
    ReachableStep(ls, s0, Begin(u));
    var s1 := Apply(ls, s0, Begin(u));
    ReachableStep(ls, s1, Run(u, PublishTaken));
    s := Apply(ls, s1, Run(u, PublishTaken));
  }

  /** A run of the swapped server that breaks the order for client 0. */
  lemma SwappedBreaksOrder(u: Uid) returns (s: State)
    ensures Reachable(Swapped(), s) && 0 in s.conns
    ensures !JobAfterUser(Accepted(s.conns[0].ch.tries), u)
  {
    var user := [Broadcast(UserRegisteredFrame(u)), WriteAudit(u)];
    s := Enqueued(u);
    s := Sent(Swapped(), s, u, JobEnqueuedFrame(u), user);
    assert user == [Broadcast(UserRegisteredFrame(u))] + [WriteAudit(u)];
    s := Sent(Swapped(), s, u, UserRegisteredFrame(u), [WriteAudit(u)]);
    var fs := Accepted(s.conns[0].ch.tries);
    assert fs == [JobEnqueuedFrame(u), UserRegisteredFrame(u)];
    assert fs[0] == JobEnqueuedFrame(u) && fs[1] == UserRegisteredFrame(u);
  }
}
