/**
 Which frame each offer carries, and how far each registration request has got, in every run of
 the protocol as the server wires it.
 */
module HubFrames {
  import opened Wrappers
  import opened Wiring
  import opened HubProtocol
  import HubDelivery
  import Runs

  /** Request `u` is before, at or past each of its effects; `r.begun` counts its broadcasts so far. */
  ghost predicate Placed(ws: bool, queue: bool, u: Uid, r: Request, published: bool) {
    var job, mail, audit := JobPart(ws, u), MailPart(ws, queue, u), [WriteAudit(u)];
    var told := if ws then 1 else 0;
    match r.now
    case Ready =>
      || (r.todo == UserPart(ws, u) + mail + audit && r.begun == 0 && !published)
      || (r.todo == mail + audit && r.begun == told && !published)
      || (r.todo == job + audit && r.begun == told && published && queue)
      || ((r.todo == audit || r.todo == []) && r.begun == told + (if published then told else 0) && (published ==> queue))
    case Sending(frame, nth, _) =>
      && ws && r.begun == nth + 1
      && ((frame == UserRegisteredFrame(u) && nth == 0 && r.todo == mail + audit && !published)
          || (frame == JobEnqueuedFrame(u) && nth == 1 && r.todo == audit && published && queue))
  }

  /** An offer carries the frame that its origin sends. */
  predicate Genuine(ws: bool, queue: bool, requests: set<Uid>, published: set<Uid>, t: Try) {
    match t.from
    case Greeting => t.frame == Hello
    case Sender(u, n) =>
      && ws && u in requests
      && ((n == 0 && t.frame == UserRegisteredFrame(u))
          || (n == 1 && t.frame == JobEnqueuedFrame(u) && queue && u in published))
  }

  ghost predicate AllGenuine(ws: bool, queue: bool, s: State) {
    forall c, t :: c in s.conns && t in s.conns[c].ch.tries ==> Genuine(ws, queue, s.requests.Keys, s.published, t)
  }

  ghost predicate AllPlaced(ws: bool, queue: bool, s: State) {
    && (forall u :: u in s.requests ==> Placed(ws, queue, u, s.requests[u], u in s.published))
    && s.published <= s.requests.Keys
    && (forall u, n: nat :: u in s.requests ==> (n < s.requests[u].begun <==> (u, n) in s.audiences))
  }

  lemma RanPlaced(ws: bool, queue: bool, u: Uid, r: Request, published: bool, a: RequestAction)
    requires Placed(ws, queue, u, r, published) && CanRun(r, a)
    ensures Placed(ws, queue, u, Ran(r, a), published || a == PublishTaken)
    ensures a == PublishTaken ==> r.todo[0].uid == u
    ensures Ran(r, a).begun == r.begun + if a == LockToSend then 1 else 0
  {
    var job, mail, audit := JobPart(ws, u), MailPart(ws, queue, u), [WriteAudit(u)];
    if r.now == Ready {
      assert ws ==> (UserPart(ws, u) + mail + audit)[1..] == mail + audit;
      assert !ws ==> UserPart(ws, u) + mail + audit == mail + audit;
      assert queue ==> (mail + audit)[1..] == audit && (mail + audit)[0].onOk == job;
      assert !queue ==> mail + audit == audit;
      assert ws ==> (job + audit)[1..] == audit;
      assert !ws ==> job + audit == audit;
    }
  }

  lemma RunPlaced(ws: bool, queue: bool, s: State, u: Uid, a: RequestAction)
    requires Safe(s) && AllPlaced(ws, queue, s) && Enabled(s, Run(u, a))
    ensures AllPlaced(ws, queue, Apply(Wired(ws, queue), s, Run(u, a)))
  {
    var s' := Apply(Wired(ws, queue), s, Run(u, a));
    RanPlaced(ws, queue, u, s.requests[u], u in s.published, a);
    forall v | v in s'.requests ensures Placed(ws, queue, v, s'.requests[v], v in s'.published) {
      assert Placed(ws, queue, v, s.requests[v], v in s.published);
    }
  }

  lemma BeginPlaced(ws: bool, queue: bool, s: State, u: Uid)
    requires Safe(s) && AllPlaced(ws, queue, s) && Enabled(s, Begin(u))
    ensures AllPlaced(ws, queue, Apply(Wired(ws, queue), s, Begin(u)))
  {
    WiredProgram(ws, queue, u);
  }

  lemma SendPlaced(ws: bool, queue: bool, s: State, u: Uid, c: Cid)
    requires AllPlaced(ws, queue, s) && Enabled(s, Send(u, c))
    ensures AllPlaced(ws, queue, Apply(Wired(ws, queue), s, Send(u, c)))
  {
    var s' := Apply(Wired(ws, queue), s, Send(u, c));
    forall v | v in s'.requests ensures Placed(ws, queue, v, s'.requests[v], v in s'.published) {
      assert Placed(ws, queue, v, s.requests[v], v in s.published);
    }
  }

  lemma StepPlaced(ws: bool, queue: bool, s: State, step: Step)
    requires Safe(s) && AllPlaced(ws, queue, s) && Enabled(s, step)
    ensures AllPlaced(ws, queue, Apply(Wired(ws, queue), s, step))
  {
    match step
    case Run(u, a) => RunPlaced(ws, queue, s, u, a);
    case Begin(u) => BeginPlaced(ws, queue, s, u);
    case Send(u, c) => SendPlaced(ws, queue, s, u, c);
    case _ =>
  }

  lemma StepGenuine(ws: bool, queue: bool, s: State, step: Step)
    requires AllPlaced(ws, queue, s) && AllGenuine(ws, queue, s) && Enabled(s, step)
    ensures AllGenuine(ws, queue, Apply(Wired(ws, queue), s, step))
  {
    var s' := Apply(Wired(ws, queue), s, step);
    if step.Send? {
      assert Placed(ws, queue, step.u, s.requests[step.u], step.u in s.published);
    }
    forall c, t | c in s'.conns && t in s'.conns[c].ch.tries
      ensures Genuine(ws, queue, s'.requests.Keys, s'.published, t)
    {
      if c in s.conns && t in s.conns[c].ch.tries {
        assert Genuine(ws, queue, s.requests.Keys, s.published, t);
      }
    }
  }

  ghost predicate Invariant(ws: bool, queue: bool, s: State) {
    Safe(s) && AllPlaced(ws, queue, s) && AllGenuine(ws, queue, s)
  }

  lemma InvariantStep(ws: bool, queue: bool, s: State, step: Step)
    requires Invariant(ws, queue, s) && Enabled(s, step)
    ensures Invariant(ws, queue, Apply(Wired(ws, queue), s, step))
  {
    SafeStep(Wired(ws, queue), s, step);
    StepPlaced(ws, queue, s, step);
    StepGenuine(ws, queue, s, step);
  }

  lemma FollowsKeeps(ws: bool, queue: bool, s: State, s': State)
    requires Invariant(ws, queue, s) && Follows(Wired(ws, queue), s, s')
    ensures Invariant(ws, queue, s')
  {
    var step :| Enabled(s, step) && s' == Apply(Wired(ws, queue), s, step);
    InvariantStep(ws, queue, s, step);
  }

  lemma AlwaysInvariant(ws: bool, queue: bool, s: State)
    requires Reachable(Wired(ws, queue), s)
    ensures Invariant(ws, queue, s)
  {
    forall x, y | Invariant(ws, queue, x) && Follows(Wired(ws, queue), x, y) ensures Invariant(ws, queue, y) {
      FollowsKeeps(ws, queue, x, y);
    }
    assert Invariant(ws, queue, INIT);
    Runs.Kept(Next(Wired(ws, queue)), x => Invariant(ws, queue, x), INIT, s);
  }

  /**
   What a connection is offered: by its own handler the greeting, by the first broadcast of a
   registration that user's registration, by the second the job, and nothing by anyone else.
   */
  lemma FramesGenuine(ws: bool, queue: bool, s: State, c: Cid, t: Try)
    requires Reachable(Wired(ws, queue), s) && c in s.conns && t in s.conns[c].ch.tries
    ensures t.from == Greeting ==> t.frame == Hello
    ensures t.from.Sender? ==> ws && t.from.nth < 2 && t.from.uid in s.requests
    ensures t.from.Sender? && t.from.nth == 0 ==> t.frame == UserRegisteredFrame(t.from.uid)
    ensures t.from.Sender? && t.from.nth == 1 ==> t.frame == JobEnqueuedFrame(t.from.uid) && queue && t.from.uid in s.published
  {
    AlwaysInvariant(ws, queue, s);
    assert Genuine(ws, queue, s.requests.Keys, s.published, t);
  }

  /**
   A registration request that has nothing left to do has broadcast the user's registration if
   there is a hub, and the job exactly if the broker took it, and nothing else.
   */
  lemma RegistrationBroadcast(ws: bool, queue: bool, s: State, u: Uid)
    requires Reachable(Wired(ws, queue), s) && u in s.requests
    requires s.requests[u].now == Ready && s.requests[u].todo == []
    ensures (u, 0) in s.audiences <==> ws
    ensures (u, 1) in s.audiences <==> ws && u in s.published
    ensures forall n: nat :: (u, n) in s.audiences ==> n < 2
    ensures u in s.published ==> queue
  {
    AlwaysInvariant(ws, queue, s);
    assert Placed(ws, queue, u, s.requests[u], u in s.published);
  }

  lemma {:induction false} AttemptMade(tries: seq<Try>, from: Source) returns (t: Try)
    requires Attempts(tries, from) > 0
    ensures t in tries && t.from == from
  {
    var init, last := tries[..|tries| - 1], tries[|tries| - 1];
    if last.from == from {
      t := last;
    } else {
      t := AttemptMade(init, from);
    }
  }

  /**
   With a hub, every client in the set when a registration got the read lock has been offered
   that user's registration by the time the request is done: once, and taken unless the client
   held 256 frames.
   */
  lemma RegistrationReaches(queue: bool, s: State, u: Uid, c: Cid) returns (t: Try)
    requires Reachable(Wired(true, queue), s) && u in s.requests && c in s.conns
    requires s.requests[u].now == Ready && s.requests[u].todo == []
    requires (u, 0) in s.audiences ==> c in s.audiences[(u, 0)]
    ensures t in s.conns[c].ch.tries && t.from == Sender(u, 0) && t.frame == UserRegisteredFrame(u)
    ensures t.taken <==> t.held < 256
    ensures Attempts(s.conns[c].ch.tries, Sender(u, 0)) == 1
  {
    RegistrationBroadcast(true, queue, s, u);
    HubDelivery.EachClientOnce(true, queue, s, u, 0, c);
    t := AttemptMade(s.conns[c].ch.tries, Sender(u, 0));
    FramesGenuine(true, queue, s, c, t);
    HubDelivery.FramesConserved(true, queue, s, c);
  }
}
