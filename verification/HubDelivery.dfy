/**
 What the clients of the hub receive, in every run of the protocol: nothing accepted is lost
 or reordered, each broadcast is offered exactly once to exactly the clients of its locked
 read, and no client sees a user's job before that user's registration.
 */
module HubDelivery {
  import opened Wiring
  import opened HubProtocol
  import Runs

  // ---------- Frames are conserved, in order ----------

  function InHand(w: Writer): seq<Frame> {
    match w
    case Writing(f) => [f]
    case WriteError(f) => [f]
    case _ => []
  }

  /** Accepted frames are those written, then the one in the writer's hand, then the buffered ones. */
  ghost predicate Conserved(k: Conn) {
    && |k.ch.buf| <= CAPACITY
    && Accepted(k.ch.tries) == k.written + InHand(k.writer) + k.ch.buf
    && (forall t :: t in k.ch.tries ==> t.held <= CAPACITY && (t.taken <==> t.held != CAPACITY))
    && (k.writer == Drained ==> k.ch.closed && k.ch.buf == [])
  }

  lemma OfferConserves(k: Conn, f: Frame, from: Source)
    requires Conserved(k) && !k.ch.closed
    ensures Conserved(k.(ch := Offer(k.ch, f, from)))
  {
    var ch := Offer(k.ch, f, from);
    assert ch.tries[..|ch.tries| - 1] == k.ch.tries;
  }

  lemma TakeConserves(k: Conn)
    requires Conserved(k) && CanMove(k, Take)
    ensures Conserved(Moved(k, Take))
  {
    var taken := Moved(k, Take);
    assert k.written + InHand(k.writer) == k.written;
    assert InHand(taken.writer) + taken.ch.buf == k.ch.buf;
    assert k.written + InHand(taken.writer) + taken.ch.buf == k.written + k.ch.buf;
  }

  lemma MoveConserves(k: Conn, a: ConnAction)
    requires Conserved(k) && Orderly(k) && CanMove(k, a)
    ensures Conserved(Moved(k, a))
  {
    if a == Greet {
      OfferConserves(k, Hello, Greeting);
    } else if a == Take {
      TakeConserves(k);
    } else if a == Written {
      assert k.written + InHand(k.writer) == k.written + [k.writer.frame] + [];
    }
  }

  // ---------- Each broadcast once to each client ----------

  predicate StillSending(s: State, u: Uid, n: nat) {
    u in s.requests && s.requests[u].now.Sending? && s.requests[u].now.nth == n
  }

  /** How often broadcast `n` of request `u` should have been offered to `c` by now. */
  function Due(s: State, c: Cid, u: Uid, n: nat): nat {
    if (u, n) !in s.audiences || c !in s.audiences[(u, n)] then 0
    else if StillSending(s, u, n) && c !in s.requests[u].now.visited then 0
    else 1
  }

  ghost predicate CoveredAt(s: State, c: Cid, u: Uid, n: nat)
    requires c in s.conns
  {
    Attempts(s.conns[c].ch.tries, Sender(u, n)) == Due(s, c, u, n)
  }

  /** The greeting is offered once, after the client joined the set. */
  predicate GreetedOnce(k: Conn) {
    Attempts(k.ch.tries, Greeting) ==
    if k.serve == Greeted || k.serve == WriterStarted || k.serve == Served then 1 else 0
  }

  ghost predicate Covered(s: State) {
    && (forall c, u, n :: c in s.conns ==> CoveredAt(s, c, u, n))
    && (forall c :: c in s.conns ==> GreetedOnce(s.conns[c]))
    && (forall u, n :: (u, n) in s.audiences ==> s.audiences[(u, n)] <= s.conns.Keys)
  }

  lemma OfferCounts(ch: Channel, f: Frame, from: Source, other: Source)
    ensures Attempts(Offer(ch, f, from).tries, other) == Attempts(ch.tries, other) + if from == other then 1 else 0
  {
    var tries := Offer(ch, f, from).tries;
    assert tries[..|tries| - 1] == ch.tries;
  }

  lemma MoveCounts(k: Conn, a: ConnAction, from: Source)
    requires CanMove(k, a)
    ensures Attempts(Moved(k, a).ch.tries, from) == Attempts(k.ch.tries, from) + if a == Greet && from == Greeting then 1 else 0
  {
    if a == Greet {
      OfferCounts(k.ch, Hello, Greeting, from);
    }
  }

  lemma MoveGreets(k: Conn, a: ConnAction)
    requires CanMove(k, a) && GreetedOnce(k)
    ensures GreetedOnce(Moved(k, a))
  {
    MoveCounts(k, a, Greeting);
  }

  lemma CoveredAtMove(ls: Listeners, s: State, c: Cid, a: ConnAction, d: Cid, u: Uid, n: nat)
    requires Enabled(s, Move(c, a)) && d in s.conns && CoveredAt(s, d, u, n)
    ensures CoveredAt(Apply(ls, s, Move(c, a)), d, u, n)
  {
    MoveCounts(s.conns[c], a, Sender(u, n));
  }

  lemma CoveredMove(ls: Listeners, s: State, c: Cid, a: ConnAction)
    requires Safe(s) && Covered(s) && Enabled(s, Move(c, a))
    ensures Covered(Apply(ls, s, Move(c, a)))
  {
    var s' := Apply(ls, s, Move(c, a));
    MoveGreets(s.conns[c], a);
    forall d, u, n | d in s'.conns ensures CoveredAt(s', d, u, n) {
      assert CoveredAt(s, d, u, n);
      CoveredAtMove(ls, s, c, a, d, u, n);
    }
  }

  lemma CoveredRun(ls: Listeners, s: State, v: Uid, a: RequestAction)
    requires Safe(s) && Covered(s) && Enabled(s, Run(v, a))
    ensures Covered(Apply(ls, s, Run(v, a)))
  {
    assert RequestSafe(s, v);
    var s' := Apply(ls, s, Run(v, a));
    forall c, u, n | c in s'.conns ensures CoveredAt(s', c, u, n) {
      assert CoveredAt(s, c, u, n);
    }
  }

  lemma CoveredAtSend(ls: Listeners, s: State, v: Uid, d: Cid, c: Cid, u: Uid, n: nat)
    requires Safe(s) && Enabled(s, Send(v, d)) && c in s.conns && CoveredAt(s, c, u, n)
    ensures CoveredAt(Apply(ls, s, Send(v, d)), c, u, n)
  {
    assert RequestSafe(s, v);
    var r := s.requests[v];
    OfferCounts(s.conns[d].ch, r.now.frame, Sender(v, r.now.nth), Sender(u, n));
  }

  lemma CoveredSend(ls: Listeners, s: State, v: Uid, d: Cid)
    requires Safe(s) && Covered(s) && Enabled(s, Send(v, d))
    ensures Covered(Apply(ls, s, Send(v, d)))
  {
    var s', r := Apply(ls, s, Send(v, d)), s.requests[v];
    OfferCounts(s.conns[d].ch, r.now.frame, Sender(v, r.now.nth), Greeting);
    forall c, u, n | c in s'.conns ensures CoveredAt(s', c, u, n) {
      assert CoveredAt(s, c, u, n);
      CoveredAtSend(ls, s, v, d, c, u, n);
    }
  }

  lemma CoveredArrival(ls: Listeners, s: State, step: Step)
    requires Safe(s) && Covered(s) && Enabled(s, step) && (step.Connect? || step.Begin?)
    ensures Covered(Apply(ls, s, step))
  {
    var s' := Apply(ls, s, step);
    forall c, u, n | c in s'.conns ensures CoveredAt(s', c, u, n) {
      assert c in s.conns ==> CoveredAt(s, c, u, n);
    }
  }

  // ---------- Registration before job ----------

  lemma {:induction false} NoUserAppend(p: seq<Effect>, q: seq<Effect>)
    requires NoUserFrame(p) && NoUserFrame(q)
    ensures NoUserFrame(p + q)
  {
    if p == [] {
      assert p + q == q;
    } else {
      assert (p + q)[1..] == p[1..] + q;
      NoUserAppend(p[1..], q);
    }
  }

  /** The request will not broadcast its user-registered frame any more. */
  predicate PastRegistration(r: Request) {
    NoUserFrame(r.todo) && !(r.now.Sending? && r.now.frame.UserRegisteredFrame?)
  }

  /** What is left of the request of `u` respects the order of effects. */
  predicate RequestOrdered(r: Request, u: Uid, published: bool) {
    && WellOrdered(r.todo, u, published)
    && (r.now.Sending? ==>
        || r.now.frame == UserRegisteredFrame(u)
        || (r.now.frame == JobEnqueuedFrame(u) && published && NoUserFrame(r.todo)))
  }

  lemma RanOrdered(r: Request, a: RequestAction, u: Uid, published: bool)
    requires RequestOrdered(r, u, published) && CanRun(r, a)
    ensures RequestOrdered(Ran(r, a), u, published || a == PublishTaken)
    ensures a == PublishTaken ==> r.todo[0].uid == u
    ensures PastRegistration(r) ==> PastRegistration(Ran(r, a))
  {
    if r.todo != [] && r.todo[0].Publish? && NoUserFrame(r.todo) {
      NoUserAppend(r.todo[0].onOk, r.todo[1..]);
    }
  }

  /** No user-registered frame of `u` comes after a job-enqueued frame of `u`. */
  ghost predicate JobAfterUser(fs: seq<Frame>, u: Uid) {
    forall i, j :: 0 <= i < j < |fs| && fs[i] == JobEnqueuedFrame(u) ==> fs[j] != UserRegisteredFrame(u)
  }

  function Offered(tries: seq<Try>): seq<Frame> {
    if tries == [] then [] else Offered(tries[..|tries| - 1]) + [tries[|tries| - 1].frame]
  }

  /** What the frames in a log say about the request of `u`. */
  ghost predicate LogOrdered(s: State, fs: seq<Frame>, u: Uid) {
    && JobAfterUser(fs, u)
    && (UserRegisteredFrame(u) in fs ==> u in s.requests)
    && (JobEnqueuedFrame(u) in fs ==> u in s.requests && u in s.published && PastRegistration(s.requests[u]))
  }

  ghost predicate Ordered(s: State) {
    && (forall u :: u in s.requests ==> RequestOrdered(s.requests[u], u, u in s.published))
    && s.published <= s.requests.Keys
    && forall c, u :: c in s.conns ==> LogOrdered(s, Offered(s.conns[c].ch.tries), u)
  }

  lemma OfferedAppend(ch: Channel, f: Frame, from: Source)
    ensures Offered(Offer(ch, f, from).tries) == Offered(ch.tries) + [f]
  {
    var tries := Offer(ch, f, from).tries;
    assert tries[..|tries| - 1] == ch.tries;
  }

  /** A frame that is about no one leaves a log ordered. */
  lemma GreetingOrdered(s: State, fs: seq<Frame>, u: Uid)
    requires LogOrdered(s, fs, u)
    ensures LogOrdered(s, fs + [Hello], u)
  {
  }

  lemma MoveOrdered(s: State, k: Conn, a: ConnAction, u: Uid)
    requires CanMove(k, a) && LogOrdered(s, Offered(k.ch.tries), u)
    ensures LogOrdered(s, Offered(Moved(k, a).ch.tries), u)
  {
    if a == Greet {
      OfferedAppend(k.ch, Hello, Greeting);
      GreetingOrdered(s, Offered(k.ch.tries), u);
    }
  }

  lemma OrderedMove(ls: Listeners, s: State, c: Cid, a: ConnAction)
    requires Ordered(s) && Enabled(s, Move(c, a))
    ensures Ordered(Apply(ls, s, Move(c, a)))
  {
    var s' := Apply(ls, s, Move(c, a));
    forall d, u | d in s'.conns ensures LogOrdered(s', Offered(s'.conns[d].ch.tries), u) {
      assert LogOrdered(s, Offered(s.conns[d].ch.tries), u);
      MoveOrdered(s, s.conns[c], a, u);
    }
  }

  lemma OrderedRun(ls: Listeners, s: State, v: Uid, a: RequestAction)
    requires Ordered(s) && Enabled(s, Run(v, a))
    ensures Ordered(Apply(ls, s, Run(v, a)))
  {
    var s' := Apply(ls, s, Run(v, a));
    RanOrdered(s.requests[v], a, v, v in s.published);
    forall c, u | c in s'.conns ensures LogOrdered(s', Offered(s'.conns[c].ch.tries), u) {
      assert LogOrdered(s, Offered(s.conns[c].ch.tries), u);
    }
  }

  /** A broadcast of request `v` extends a log as its order allows. */
  lemma SentOrdered(s: State, fs: seq<Frame>, f: Frame, v: Uid, u: Uid)
    requires v in s.requests && s.requests[v].now.Sending? && s.requests[v].now.frame == f
    requires RequestOrdered(s.requests[v], v, v in s.published)
    requires LogOrdered(s, fs, u)
    ensures LogOrdered(s, fs + [f], u)
  {
  }

  lemma OrderedSend(ls: Listeners, s: State, v: Uid, d: Cid)
    requires Ordered(s) && Enabled(s, Send(v, d))
    ensures Ordered(Apply(ls, s, Send(v, d)))
  {
    var s', r := Apply(ls, s, Send(v, d)), s.requests[v];
    OfferedAppend(s.conns[d].ch, r.now.frame, Sender(v, r.now.nth));
    forall c, u | c in s'.conns ensures LogOrdered(s', Offered(s'.conns[c].ch.tries), u) {
      assert LogOrdered(s, Offered(s.conns[c].ch.tries), u);
      SentOrdered(s, Offered(s.conns[d].ch.tries), r.now.frame, v, u);
    }
  }

  lemma OrderedArrival(ws: bool, queue: bool, s: State, step: Step)
    requires Ordered(s) && Enabled(s, step) && (step.Connect? || step.Begin?)
    ensures Ordered(Apply(Wired(ws, queue), s, step))
  {
    var s' := Apply(Wired(ws, queue), s, step);
    if step.Begin? {
      ProgramWellOrdered(ws, queue, step.u);
    }
    forall c, u | c in s'.conns ensures LogOrdered(s', Offered(s'.conns[c].ch.tries), u) {
      assert c in s.conns ==> LogOrdered(s, Offered(s.conns[c].ch.tries), u);
    }
  }

  lemma {:induction false} AcceptedOrdered(tries: seq<Try>, u: Uid)
    requires JobAfterUser(Offered(tries), u)
    ensures JobAfterUser(Accepted(tries), u)
    ensures forall f :: f in Accepted(tries) ==> f in Offered(tries)
  {
    if tries != [] {
      var init, fs, gs := tries[..|tries| - 1], Offered(tries), Accepted(tries);
      assert fs[..|fs| - 1] == Offered(init);
      assert forall i :: 0 <= i < |fs| - 1 ==> fs[i] == Offered(init)[i];
      AcceptedOrdered(init, u);
      forall i, j | 0 <= i < j < |gs| && gs[i] == JobEnqueuedFrame(u) ensures gs[j] != UserRegisteredFrame(u) {
        if j == |Accepted(init)| {
          assert gs[i] in Offered(init);
        }
      }
    }
  }

  // ---------- Every run ----------

  ghost predicate Invariant(s: State) {
    && Safe(s) && Covered(s) && Ordered(s)
    && forall c :: c in s.conns ==> Conserved(s.conns[c])
  }

  lemma ConservedStep(ls: Listeners, s: State, step: Step, c: Cid)
    requires Safe(s) && Enabled(s, step)
    requires c in s.conns ==> Conserved(s.conns[c])
    ensures c in Apply(ls, s, step).conns ==> Conserved(Apply(ls, s, step).conns[c])
  {
    if c in s.conns {
      assert ConnSafe(s, c);
      match step
      case Move(d, a) =>
        if d == c {
          MoveConserves(s.conns[c], a);
        }
      case Send(u, d) =>
        if d == c {
          OfferConserves(s.conns[c], s.requests[u].now.frame, Sender(u, s.requests[u].now.nth));
        }
      case _ =>
    }
  }

  lemma InvariantStep(ws: bool, queue: bool, s: State, step: Step)
    requires Invariant(s) && Enabled(s, step)
    ensures Invariant(Apply(Wired(ws, queue), s, step))
  {
    var ls := Wired(ws, queue);
    SafeStep(ls, s, step);
    forall c | c in Apply(ls, s, step).conns ensures Conserved(Apply(ls, s, step).conns[c]) {
      ConservedStep(ls, s, step, c);
    }
    match step
    case Move(c, a) => CoveredMove(ls, s, c, a); OrderedMove(ls, s, c, a);
    case Run(u, a) => CoveredRun(ls, s, u, a); OrderedRun(ls, s, u, a);
    case Send(u, c) => CoveredSend(ls, s, u, c); OrderedSend(ls, s, u, c);
    case _ => CoveredArrival(ls, s, step); OrderedArrival(ws, queue, s, step);
  }

  lemma AlwaysInvariant(ws: bool, queue: bool, s: State)
    requires Reachable(Wired(ws, queue), s)
    ensures Invariant(s)
  {
    var ls := Wired(ws, queue);
    forall x, y | Invariant(x) && Follows(ls, x, y) ensures Invariant(y) {
      var step :| Enabled(x, step) && y == Apply(ls, x, step);
      InvariantStep(ws, queue, x, step);
    }
    Runs.Kept(Next(ls), x => Invariant(x), INIT, s);
  }

  /**
   Per connection, in every run: the buffer is bounded, accepted frames come out in order and
   none is lost, a frame is dropped only at a full buffer, and a writer that ends because its
   channel was closed has written all of them.
   */
  lemma FramesConserved(ws: bool, queue: bool, s: State, c: Cid)
    requires Reachable(Wired(ws, queue), s) && c in s.conns
    ensures var k := s.conns[c];
            && |k.ch.buf| <= 256
            && Accepted(k.ch.tries) == k.written + InHand(k.writer) + k.ch.buf
            && (forall t :: t in k.ch.tries ==> (t.taken <==> t.held < 256) && t.held <= 256)
            && (k.writer == Drained ==> k.ch.closed && k.written == Accepted(k.ch.tries))
  {
    AlwaysInvariant(ws, queue, s);
    assert Conserved(s.conns[c]);
  }

  /**
   A finished broadcast was offered exactly once to every client of the set it read under the
   lock, and never to any other connection.
   */
  lemma EachClientOnce(ws: bool, queue: bool, s: State, u: Uid, n: nat, c: Cid)
    requires Reachable(Wired(ws, queue), s) && c in s.conns
    requires (u, n) in s.audiences && !StillSending(s, u, n)
    ensures Attempts(s.conns[c].ch.tries, Sender(u, n)) == if c in s.audiences[(u, n)] then 1 else 0
  {
    AlwaysInvariant(ws, queue, s);
    assert CoveredAt(s, c, u, n);
  }

  /** While a broadcast runs, the set it read under the lock is still the client set. */
  lemma AudienceFixed(ls: Listeners, s: State, u: Uid, n: nat)
    requires Reachable(ls, s) && StillSending(s, u, n)
    ensures (u, n) in s.audiences && s.audiences[(u, n)] == s.clients
    ensures s.requests[u].now.visited <= s.clients
  {
    AlwaysSafe(ls, s);
    assert RequestSafe(s, u);
  }

  /** No client is sent a user's job-enqueued frame before that user's user-registered frame. */
  lemma RegistrationBeforeJob(ws: bool, queue: bool, s: State, c: Cid, u: Uid)
    requires Reachable(Wired(ws, queue), s) && c in s.conns
    ensures JobAfterUser(Accepted(s.conns[c].ch.tries), u)
    ensures JobAfterUser(s.conns[c].written, u)
    ensures JobEnqueuedFrame(u) in Accepted(s.conns[c].ch.tries) ==> u in s.published
  {
    AlwaysInvariant(ws, queue, s);
    var k := s.conns[c];
    assert Conserved(k) && LogOrdered(s, Offered(k.ch.tries), u);
    AcceptedOrdered(k.ch.tries, u);
    assert forall i :: 0 <= i < |k.written| ==> Accepted(k.ch.tries)[i] == k.written[i];
  }
}
