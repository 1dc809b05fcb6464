/**
 The WebSocket hub as a transition system: any number of connections, each with the goroutine
 of its HTTP handler and its two pumps, and any number of registration requests that run their
 effects, broadcasts among them.  Taking a lock, changing the client set, releasing the lock,
 closing a channel and offering one frame to one channel are steps of their own, and the steps
 of different goroutines interleave freely.
 */
module HubProtocol {
  import opened Wrappers
  import opened Wiring
  import Runs

  type Cid = nat

  // ---------- Channels ----------

  const CAPACITY := 256

  /** Who offered a frame: the connection's own handler, or a request's broadcast number `nth`. */
  datatype Source = Greeting | Sender(uid: Uid, nth: nat)

  /** One non-blocking send: `held` frames were buffered, and the frame was taken or dropped. */
  datatype Try = Try(frame: Frame, from: Source, held: nat, taken: bool)

  /** A buffered channel, with the log of what was offered to it. */
  datatype Channel = Channel(buf: seq<Frame>, closed: bool, tries: seq<Try>)

  const FRESH_CHANNEL := Channel([], false, [])

  /** A select with a send case and a default case, on an open channel. */
  function Offer(ch: Channel, f: Frame, from: Source): Channel {
    var taken := |ch.buf| < CAPACITY;
    ch.(buf := if taken then ch.buf + [f] else ch.buf,
        tries := ch.tries + [Try(f, from, |ch.buf|, taken)])
  }

  function Accepted(tries: seq<Try>): seq<Frame> {
    if tries == [] then []
    else
      var last := tries[|tries| - 1];
      if last.taken then Accepted(tries[..|tries| - 1]) + [last.frame] else Accepted(tries[..|tries| - 1])
  }

  /** How many of the tries are due to `from`. */
  function Attempts(tries: seq<Try>, from: Source): nat {
    if tries == [] then 0
    else Attempts(tries[..|tries| - 1], from) + if tries[|tries| - 1].from == from then 1 else 0
  }

  // ---------- State ----------

  /** Where ServeHTTP stands for a connection. */
  datatype Serve = Upgraded | Registering | Inserted | Registered | Greeted | WriterStarted | Served

  /** The reader: a read error makes it unregister the client and close its channel. */
  datatype Reader = NotReading | Reading | ReadError | Unregistering | Deleted | Unregistered | Closed

  /** The writer, with the frame in its hand or the one whose write failed. */
  datatype Writer = NotWriting | Waiting | Writing(frame: Frame) | WriteError(frame: Frame) | Drained

  datatype Conn = Conn(serve: Serve, reader: Reader, writer: Writer, ch: Channel, written: seq<Frame>)

  /** What a request is doing: between effects, or visiting the clients under the read lock. */
  datatype Activity = Ready | Sending(frame: Frame, nth: nat, visited: set<Cid>)

  datatype Request = Request(todo: seq<Effect>, begun: nat, now: Activity) {
    predicate AtBroadcast() {
      now == Ready && todo != [] && todo[0].Broadcast?
    }

    predicate AtPublish() {
      now == Ready && todo != [] && todo[0].Publish?
    }

    predicate AtAudit() {
      now == Ready && todo != [] && todo[0].WriteAudit?
    }
  }

  datatype State = State(
    clients: set<Cid>,
    conns: map<Cid, Conn>,
    readers: set<Uid>,                       // the read lock's holders
    writer: Option<Cid>,                     // the write lock's holder
    requests: map<Uid, Request>,
    published: set<Uid>,                     // the users whose job the broker took
    audiences: map<(Uid, nat), set<Cid>>,    // the clients when a broadcast got the read lock
    panicked: bool)                          // a send on, or close of, a closed channel

  const INIT := State({}, map[], {}, None, map[], {}, map[], false)

  // ---------- Steps ----------

  /** What the goroutines of one connection do: its handler, its reader and its writer. */
  datatype ConnAction =
    | LockToRegister | Insert | UnlockRegistered | Greet | StartWriter | StartReader
    | ReadFails | LockToUnregister | Delete | UnlockUnregistered | Close
    | Take | Written | WriteFails | Drain

  /** What a request does on its own. */
  datatype RequestAction = LockToSend | UnlockSent | PublishTaken | PublishFails | Audit

  datatype Step =
    | Connect(c: Cid)
    | Move(c: Cid, move: ConnAction)
    | Begin(u: Uid)
    | Run(u: Uid, run: RequestAction)
    | Send(u: Uid, c: Cid)

  predicate CanMove(k: Conn, a: ConnAction) {
    match a
    case LockToRegister => k.serve == Upgraded
    case Insert => k.serve == Registering
    case UnlockRegistered => k.serve == Inserted
    case Greet => k.serve == Registered
    case StartWriter => k.serve == Greeted
    case StartReader => k.serve == WriterStarted
    case ReadFails => k.reader == Reading
    case LockToUnregister => k.reader == ReadError
    case Delete => k.reader == Unregistering
    case UnlockUnregistered => k.reader == Deleted
    case Close => k.reader == Unregistered
    case Take => k.writer == Waiting && k.ch.buf != []
    case Written => k.writer.Writing?
    case WriteFails => k.writer.Writing?
    case Drain => k.writer == Waiting && k.ch.buf == [] && k.ch.closed
  }

  function Moved(k: Conn, a: ConnAction): Conn
    requires CanMove(k, a)
  {
    match a
    case LockToRegister => k.(serve := Registering)
    case Insert => k.(serve := Inserted)
    case UnlockRegistered => k.(serve := Registered)
    case Greet => k.(serve := Greeted, ch := Offer(k.ch, Hello, Greeting))
    case StartWriter => k.(serve := WriterStarted, writer := Waiting)
    case StartReader => k.(serve := Served, reader := Reading)
    case ReadFails => k.(reader := ReadError)
    case LockToUnregister => k.(reader := Unregistering)
    case Delete => k.(reader := Deleted)
    case UnlockUnregistered => k.(reader := Unregistered)
    case Close => k.(reader := Closed, ch := k.ch.(closed := true))
    case Take => k.(writer := Writing(k.ch.buf[0]), ch := k.ch.(buf := k.ch.buf[1..]))
    case Written => k.(writer := Waiting, written := k.written + [k.writer.frame])
    case WriteFails => k.(writer := WriteError(k.writer.frame))
    case Drain => k.(writer := Drained)
  }

  predicate Locks(a: ConnAction) {
    a == LockToRegister || a == LockToUnregister
  }

  predicate Unlocks(a: ConnAction) {
    a == UnlockRegistered || a == UnlockUnregistered
  }

  /** A send on a closed channel panics, and so does closing it again. */
  predicate Panics(k: Conn, a: ConnAction) {
    k.ch.closed && (a == Greet || a == Close)
  }

  predicate CanRun(r: Request, a: RequestAction) {
    match a
    case LockToSend => r.AtBroadcast()
    case UnlockSent => r.now.Sending?
    case PublishTaken => r.AtPublish()
    case PublishFails => r.AtPublish()
    case Audit => r.AtAudit()
  }

  function Ran(r: Request, a: RequestAction): Request
    requires CanRun(r, a)
  {
    match a
    case LockToSend => Request(r.todo[1..], r.begun + 1, Sending(r.todo[0].frame, r.begun, {}))
    case UnlockSent => r.(now := Ready)
    case PublishTaken => r.(todo := r.todo[0].onOk + r.todo[1..])
    case PublishFails => r.(todo := r.todo[1..])
    case Audit => r.(todo := r.todo[1..])
  }

  predicate Enabled(s: State, step: Step) {
    match step
    case Connect(c) => c !in s.conns
    case Move(c, a) =>
      c in s.conns && CanMove(s.conns[c], a) && (Locks(a) ==> s.writer == None && s.readers == {})
    case Begin(u) => u !in s.requests
    case Run(u, a) =>
      && u in s.requests && CanRun(s.requests[u], a)
      && (a == LockToSend ==> s.writer == None)
      && (a == UnlockSent ==> s.clients <= s.requests[u].now.visited)
    case Send(u, c) =>
      && u in s.requests && s.requests[u].now.Sending?
      && c in s.clients && c in s.conns && c !in s.requests[u].now.visited
  }

  function Apply(ls: Listeners, s: State, step: Step): State
    requires Enabled(s, step)
  {
    match step
    case Connect(c) => s.(conns := s.conns[c := Conn(Upgraded, NotReading, NotWriting, FRESH_CHANNEL, [])])
    case Move(c, a) =>
      s.(conns := s.conns[c := Moved(s.conns[c], a)],
         clients := if a == Insert then s.clients + {c} else if a == Delete then s.clients - {c} else s.clients,
         writer := if Locks(a) then Some(c) else if Unlocks(a) then None else s.writer,
         panicked := s.panicked || Panics(s.conns[c], a))
    case Begin(u) => s.(requests := s.requests[u := Request(Program(ls, u), 0, Ready)])
    case Run(u, a) =>
      var r := s.requests[u];
      s.(requests := s.requests[u := Ran(r, a)],
         readers := if a == LockToSend then s.readers + {u} else if a == UnlockSent then s.readers - {u} else s.readers,
         audiences := if a == LockToSend then s.audiences[(u, r.begun) := s.clients] else s.audiences,
         published := if a == PublishTaken then s.published + {r.todo[0].uid} else s.published)
    case Send(u, c) =>
      var k, r := s.conns[c], s.requests[u];
      s.(conns := s.conns[c := k.(ch := Offer(k.ch, r.now.frame, Sender(u, r.now.nth)))],
         requests := s.requests[u := r.(now := r.now.(visited := r.now.visited + {c}))],
         panicked := s.panicked || k.ch.closed)
  }

  ghost predicate Follows(ls: Listeners, s: State, s': State) {
    exists step :: Enabled(s, step) && s' == Apply(ls, s, step)
  }

  ghost function Next(ls: Listeners): (State, State) -> bool {
    (s, s') => Follows(ls, s, s')
  }

  ghost predicate Reachable(ls: Listeners, s: State) {
    Runs.Leads(Next(ls), INIT, s)
  }

  // ---------- Locks, membership and open channels ----------

  /** The connection is in a critical section of the write lock. */
  predicate InWriteSection(k: Conn) {
    k.serve == Registering || k.serve == Inserted || k.reader == Unregistering || k.reader == Deleted
  }

  predicate Member(k: Conn) {
    && k.serve != Upgraded && k.serve != Registering
    && k.reader != Deleted && k.reader != Unregistered && k.reader != Closed
  }

  /** The goroutines of a connection start in order, and only its reader closes its channel. */
  predicate Orderly(k: Conn) {
    && (k.ch.closed <==> k.reader == Closed)
    && (k.reader == NotReading <==> k.serve != Served)
    && (k.writer == NotWriting <==> k.serve != WriterStarted && k.serve != Served)
  }

  lemma MovedOrderly(k: Conn, a: ConnAction)
    requires Orderly(k) && CanMove(k, a)
    ensures Orderly(Moved(k, a)) && !Panics(k, a)
    ensures InWriteSection(Moved(k, a)) <==> Locks(a) || (InWriteSection(k) && !Unlocks(a))
    ensures Member(Moved(k, a)) <==> a == Insert || (Member(k) && a != Delete)
    ensures Locks(a) ==> !InWriteSection(k)
    ensures Unlocks(a) || a == Insert || a == Delete ==> InWriteSection(k)
  {
  }

  ghost predicate ConnSafe(s: State, c: Cid)
    requires c in s.conns
  {
    && Orderly(s.conns[c])
    && (s.writer == Some(c) <==> InWriteSection(s.conns[c]))
    && (c in s.clients <==> Member(s.conns[c]))
  }

  ghost predicate RequestSafe(s: State, u: Uid)
    requires u in s.requests
  {
    var r := s.requests[u];
    && (u in s.readers <==> r.now.Sending?)
    && (r.now.Sending? ==>
        && r.begun == r.now.nth + 1
        && (u, r.now.nth) in s.audiences && s.audiences[(u, r.now.nth)] == s.clients
        && r.now.visited <= s.clients)
  }

  /** The read lock excludes the write lock, and the client set holds only open channels. */
  ghost predicate Safe(s: State) {
    && !s.panicked
    && (s.writer.Some? ==> s.readers == {} && s.writer.value in s.conns)
    && s.clients <= s.conns.Keys
    && s.readers <= s.requests.Keys
    && (forall c :: c in s.conns ==> ConnSafe(s, c))
    && (forall u :: u in s.requests ==> RequestSafe(s, u))
    && (forall u, n :: (u, n) in s.audiences ==> u in s.requests && n < s.requests[u].begun)
  }

  lemma SafeMove(ls: Listeners, s: State, c: Cid, a: ConnAction)
    requires Safe(s) && Enabled(s, Move(c, a))
    ensures Safe(Apply(ls, s, Move(c, a)))
  {
    var s' := Apply(ls, s, Move(c, a));
    assert ConnSafe(s, c);
    MovedOrderly(s.conns[c], a);
    forall d | d in s'.conns ensures ConnSafe(s', d) {
      assert ConnSafe(s, d);
    }
    forall u | u in s'.requests ensures RequestSafe(s', u) {
      assert RequestSafe(s, u);
    }
  }

  lemma SafeRun(ls: Listeners, s: State, u: Uid, a: RequestAction)
    requires Safe(s) && Enabled(s, Run(u, a))
    ensures Safe(Apply(ls, s, Run(u, a)))
  {
    var s' := Apply(ls, s, Run(u, a));
    forall c | c in s'.conns ensures ConnSafe(s', c) {
      assert ConnSafe(s, c);
    }
    forall v | v in s'.requests ensures RequestSafe(s', v) {
      assert RequestSafe(s, v);
    }
  }

  lemma SafeSend(ls: Listeners, s: State, u: Uid, c: Cid)
    requires Safe(s) && Enabled(s, Send(u, c))
    ensures Safe(Apply(ls, s, Send(u, c)))
  {
    var s' := Apply(ls, s, Send(u, c));
    forall d | d in s'.conns ensures ConnSafe(s', d) {
      assert ConnSafe(s, d);
    }
    forall v | v in s'.requests ensures RequestSafe(s', v) {
      assert RequestSafe(s, v);
    }
  }

  lemma SafeArrival(ls: Listeners, s: State, step: Step)
    requires Safe(s) && Enabled(s, step) && (step.Connect? || step.Begin?)
    ensures Safe(Apply(ls, s, step))
  {
    var s' := Apply(ls, s, step);
    forall c | c in s'.conns ensures ConnSafe(s', c) {
      assert c in s.conns ==> ConnSafe(s, c);
    }
    forall u | u in s'.requests ensures RequestSafe(s', u) {
      assert u in s.requests ==> RequestSafe(s, u);
    }
  }

  lemma SafeStep(ls: Listeners, s: State, step: Step)
    requires Safe(s) && Enabled(s, step)
    ensures Safe(Apply(ls, s, step))
  {
    match step
    case Move(c, a) => SafeMove(ls, s, c, a);
    case Run(u, a) => SafeRun(ls, s, u, a);
    case Send(u, c) => SafeSend(ls, s, u, c);
    case _ => SafeArrival(ls, s, step);
  }

  /** In every interleaving: no send on a closed channel, no second close, the lock discipline holds. */
  lemma AlwaysSafe(ls: Listeners, s: State)
    requires Reachable(ls, s)
    ensures Safe(s) && !s.panicked
  {
    forall x, y | Safe(x) && Follows(ls, x, y) ensures Safe(y) {
      var step :| Enabled(x, step) && y == Apply(ls, x, step);
      SafeStep(ls, x, step);
    }
    Runs.Kept(Next(ls), x => Safe(x), INIT, s);
  }

  /** Whoever holds a lock can move on: no critical section waits for a slow client. */
  lemma HolderCanMove(s: State)
    requires Safe(s)
    ensures s.writer.Some? ==>
              exists a :: a in {Insert, UnlockRegistered, Delete, UnlockUnregistered} && Enabled(s, Move(s.writer.value, a))
    ensures forall u :: u in s.readers ==> Enabled(s, Run(u, UnlockSent)) || exists c :: Enabled(s, Send(u, c))
  {
    if s.writer.Some? {
      var c := s.writer.value;
      assert ConnSafe(s, c);
      assert Enabled(s, Move(c, Insert)) || Enabled(s, Move(c, UnlockRegistered))
          || Enabled(s, Move(c, Delete)) || Enabled(s, Move(c, UnlockUnregistered));
    }
    forall u | u in s.readers ensures Enabled(s, Run(u, UnlockSent)) || exists c :: Enabled(s, Send(u, c)) {
      assert RequestSafe(s, u);
      if !Enabled(s, Run(u, UnlockSent)) {
        var c :| c in s.clients && c !in s.requests[u].now.visited;
        assert Enabled(s, Send(u, c));
      }
    }
  }

  /** A request with something left to do can go on, unless someone holds the write lock. */
  lemma RequestCanMove(s: State, u: Uid)
    requires Safe(s) && u in s.requests && (s.requests[u].todo != [] || s.requests[u].now.Sending?)
    ensures s.writer.Some? || exists step :: Enabled(s, step) && OfRequest(step, u)
  {
    var r := s.requests[u];
    if r.now.Sending? {
      assert RequestSafe(s, u);
      if s.clients <= r.now.visited {
        assert Enabled(s, Run(u, UnlockSent)) && OfRequest(Run(u, UnlockSent), u);
      } else {
        var c :| c in s.clients && c !in r.now.visited;
        assert Enabled(s, Send(u, c)) && OfRequest(Send(u, c), u);
      }
    } else {
      var a := if r.todo[0].Broadcast? then LockToSend else if r.todo[0].Publish? then PublishTaken else Audit;
      assert s.writer == None ==> Enabled(s, Run(u, a)) && OfRequest(Run(u, a), u);
    }
  }

  predicate OfRequest(step: Step, u: Uid) {
    (step.Run? && step.u == u) || (step.Send? && step.u == u)
  }

  // ---------- Extending a run ----------

  lemma ReachableInit(ls: Listeners)
    ensures Reachable(ls, INIT)
  {
    Runs.Stays(Next(ls), INIT);
  }

  lemma ReachableStep(ls: Listeners, s: State, step: Step)
    requires Reachable(ls, s) && Enabled(s, step)
    ensures Reachable(ls, Apply(ls, s, step))
  {
    assert Follows(ls, s, Apply(ls, s, step));
    Runs.Extends(Next(ls), INIT, s, Apply(ls, s, step));
  }
}
