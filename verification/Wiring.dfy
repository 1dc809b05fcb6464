/**
 Which listeners the server registers, what each of them does, and the sequence of effects a
 registration request therefore runs through.  Dispatch is synchronous: an emit returns after
 its listeners have returned, so nested emits are spliced into the caller's effects.
 */
module Wiring {

  type Uid = nat

  const USER_REGISTERED := "auth.user.registered"
  const JOB_ENQUEUED := "queue.job.enqueued"
  const AUDIT_LOG := "audit.log"

  datatype Listener = HubUserRegistered | HubJobEnqueued | AuditWriter | WelcomeEmailQueuer

  datatype Event = UserRegistered(uid: Uid) | JobEnqueued(uid: Uid) | AuditLog(uid: Uid) {
    function Name(): string {
      match this
      case UserRegistered(_) => USER_REGISTERED
      case JobEnqueued(_) => JOB_ENQUEUED
      case AuditLog(_) => AUDIT_LOG
    }

    // Nested emits go to events of lower rank.
    function Rank(): nat {
      match this
      case UserRegistered(_) => 1
      case JobEnqueued(_) => 0
      case AuditLog(_) => 0
    }
  }

  /** What a WebSocket client is sent; the payload is represented by the user it is about. */
  datatype Frame = Hello | UserRegisteredFrame(uid: Uid) | JobEnqueuedFrame(uid: Uid)

  /** A step of the goroutine that emits; `onOk` is what follows if the broker takes the job. */
  datatype Effect = Broadcast(frame: Frame) | Publish(uid: Uid, onOk: seq<Effect>) | WriteAudit(uid: Uid)

  type Listeners = map<string, seq<Listener>>

  function Lookup(ls: Listeners, name: string): seq<Listener> {
    if name in ls then ls[name] else []
  }

  datatype Registration = Registration(name: string, fn: Listener)

  /** What the registrations of `rs` under `name` add to its list. */
  function Added(rs: seq<Registration>, name: string): seq<Listener> {
    if rs == [] then []
    else if rs[0].name == name then [rs[0].fn] + Added(rs[1..], name)
    else Added(rs[1..], name)
  }

  /** The registrations of the hub's constructor. */
  function HubRegistrations(): seq<Registration> {
    [Registration(USER_REGISTERED, HubUserRegistered), Registration(JOB_ENQUEUED, HubJobEnqueued)]
  }

  /** The registrations of the server's event handlers. */
  function HandlerRegistrations(queue: bool): seq<Registration> {
    [Registration(AUDIT_LOG, AuditWriter)] +
    if queue then [Registration(USER_REGISTERED, WelcomeEmailQueuer)] else []
  }

  /** Set-up creates the hub before it registers the event handlers. */
  function Registrations(ws: bool, queue: bool): seq<Registration> {
    (if ws then HubRegistrations() else []) + HandlerRegistrations(queue)
  }

  function Wired(ws: bool, queue: bool): Listeners {
    map name | name in {USER_REGISTERED, JOB_ENQUEUED, AUDIT_LOG} :: Added(Registrations(ws, queue), name)
  }

  /** The effects of calling one listener. */
  function Call(ls: Listeners, fn: Listener, e: Event): seq<Effect>
    decreases e.Rank(), 0
  {
    match (fn, e)
    case (HubUserRegistered, UserRegistered(u)) => [Broadcast(UserRegisteredFrame(u))]
    case (HubJobEnqueued, JobEnqueued(u)) => [Broadcast(JobEnqueuedFrame(u))]
    case (AuditWriter, AuditLog(u)) => [WriteAudit(u)]
    case (WelcomeEmailQueuer, UserRegistered(u)) => [Publish(u, Emit(ls, JobEnqueued(u)))]
    case _ => []  // typed registration rules these out
  }

  function CallAll(ls: Listeners, fns: seq<Listener>, e: Event): seq<Effect>
    decreases e.Rank(), 1, |fns|
  {
    if fns == [] then [] else Call(ls, fns[0], e) + CallAll(ls, fns[1..], e)
  }

  function Emit(ls: Listeners, e: Event): seq<Effect>
    decreases e.Rank(), 2
  {
    CallAll(ls, Lookup(ls, e.Name()), e)
  }

  /** What a registration request does after its row is inserted. */
  function Program(ls: Listeners, u: Uid): seq<Effect> {
    Emit(ls, UserRegistered(u)) + Emit(ls, AuditLog(u))
  }

  // ---------- Order of effects ----------

  function Size(p: seq<Effect>): nat {
    if p == [] then 0
    else 1 + Size(p[1..]) + if p[0].Publish? then Size(p[0].onOk) else 0
  }

  lemma {:induction false} SizeAppend(p: seq<Effect>, q: seq<Effect>)
    ensures Size(p + q) == Size(p) + Size(q)
  {
    if p == [] {
      assert p + q == q;
    } else {
      SizeAppend(p[1..], q);
      assert (p + q)[1..] == p[1..] + q;
    }
  }

  predicate NoUserFrame(p: seq<Effect>) {
    p == [] || (
      && (match p[0]
          case Broadcast(f) => !f.UserRegisteredFrame?
          case Publish(_, onOk) => NoUserFrame(onOk)
          case WriteAudit(_) => true)
      && NoUserFrame(p[1..]))
  }

  /**
   Every effect of `p` is about `u`; a job-enqueued frame comes only when the job is
   published, and no user-registered frame comes after it.
   */
  predicate WellOrdered(p: seq<Effect>, u: Uid, published: bool)
    decreases Size(p)
  {
    p == [] ||
    match p[0]
    case Broadcast(UserRegisteredFrame(v)) => v == u && WellOrdered(p[1..], u, published)
    case Broadcast(JobEnqueuedFrame(v)) => v == u && published && NoUserFrame(p[1..]) && WellOrdered(p[1..], u, published)
    case Broadcast(Hello) => false
    case Publish(v, onOk) =>
      SizeAppend(onOk, p[1..]);
      v == u && WellOrdered(onOk + p[1..], u, true) && WellOrdered(p[1..], u, published)
    case WriteAudit(v) => v == u && WellOrdered(p[1..], u, published)
  }

  lemma NamesDiffer()
    ensures USER_REGISTERED != JOB_ENQUEUED && USER_REGISTERED != AUDIT_LOG && JOB_ENQUEUED != AUDIT_LOG
  {
    assert |USER_REGISTERED| == 20 && |JOB_ENQUEUED| == 18 && |AUDIT_LOG| == 9;
  }

  lemma EmitOne(ls: Listeners, fn: Listener, e: Event)
    ensures Lookup(ls, e.Name()) == [fn] ==> Emit(ls, e) == Call(ls, fn, e)
    ensures Lookup(ls, e.Name()) == [] ==> Emit(ls, e) == []
  {
    assert CallAll(ls, [], e) == [];
    assert CallAll(ls, [fn], e) == Call(ls, fn, e) + [];
  }

  lemma EmitTwo(ls: Listeners, fn: Listener, gn: Listener, e: Event)
    requires Lookup(ls, e.Name()) == [fn, gn]
    ensures Emit(ls, e) == Call(ls, fn, e) + Call(ls, gn, e)
  {
    assert [fn, gn][1..] == [gn];
    assert CallAll(ls, [gn], e) == Call(ls, gn, e) + CallAll(ls, [], e);
    assert CallAll(ls, [fn, gn], e) == Call(ls, fn, e) + CallAll(ls, [gn], e);
  }

  lemma {:induction false} AddedAppend(rs: seq<Registration>, ss: seq<Registration>, name: string)
    ensures Added(rs + ss, name) == Added(rs, name) + Added(ss, name)
  {
    if rs == [] {
      assert rs + ss == ss;
    } else {
      AddedAppend(rs[1..], ss, name);
      assert (rs + ss)[1..] == rs[1..] + ss;
    }
  }

  lemma RegisteredAt(ws: bool, queue: bool, name: string)
    ensures Added(Registrations(ws, queue), name) ==
            (if ws then Single(USER_REGISTERED, HubUserRegistered, name) + Single(JOB_ENQUEUED, HubJobEnqueued, name) else []) +
            (Single(AUDIT_LOG, AuditWriter, name) +
             if queue then Single(USER_REGISTERED, WelcomeEmailQueuer, name) else [])
  {
    AddedAppend(if ws then HubRegistrations() else [], HandlerRegistrations(queue), name);
    AddedAppend([Registration(USER_REGISTERED, HubUserRegistered)], [Registration(JOB_ENQUEUED, HubJobEnqueued)], name);
    AddedAppend([Registration(AUDIT_LOG, AuditWriter)],
                if queue then [Registration(USER_REGISTERED, WelcomeEmailQueuer)] else [], name);
  }

  lemma SingleAt(at: string, fn: Listener, name: string)
    ensures Single(at, fn, name) == if at == name then [fn] else []
  {
    var rs := [Registration(at, fn)];
    assert Added(rs[1..], name) == [];
    assert Added(rs, name) == if at == name then [fn] else [];
  }

  lemma ListAt(ws: bool, queue: bool, name: string)
    ensures Added(Registrations(ws, queue), name) ==
            (if ws && name == USER_REGISTERED then [HubUserRegistered] else []) +
            (if ws && name == JOB_ENQUEUED then [HubJobEnqueued] else []) +
            (if name == AUDIT_LOG then [AuditWriter] else []) +
            (if queue && name == USER_REGISTERED then [WelcomeEmailQueuer] else [])
  {
    RegisteredAt(ws, queue, name);
    SingleAt(USER_REGISTERED, HubUserRegistered, name);
    SingleAt(JOB_ENQUEUED, HubJobEnqueued, name);
    SingleAt(AUDIT_LOG, AuditWriter, name);
    SingleAt(USER_REGISTERED, WelcomeEmailQueuer, name);
  }

  lemma WiredLists(ws: bool, queue: bool)
    ensures var ls := Wired(ws, queue);
            && Lookup(ls, USER_REGISTERED) == (if ws then [HubUserRegistered] else []) + (if queue then [WelcomeEmailQueuer] else [])
            && Lookup(ls, JOB_ENQUEUED) == (if ws then [HubJobEnqueued] else [])
            && Lookup(ls, AUDIT_LOG) == [AuditWriter]
  {
    NamesDiffer();
    ListAt(ws, queue, USER_REGISTERED);
    ListAt(ws, queue, JOB_ENQUEUED);
    ListAt(ws, queue, AUDIT_LOG);
  }

  function Single(at: string, fn: Listener, name: string): seq<Listener> {
    Added([Registration(at, fn)], name)
  }

  // The parts of a registration's effects.

  function UserPart(ws: bool, u: Uid): seq<Effect> {
    if ws then [Broadcast(UserRegisteredFrame(u))] else []
  }

  function JobPart(ws: bool, u: Uid): seq<Effect> {
    if ws then [Broadcast(JobEnqueuedFrame(u))] else []
  }

  function MailPart(ws: bool, queue: bool, u: Uid): seq<Effect> {
    if queue then [Publish(u, JobPart(ws, u))] else []
  }

  /**
   With a hub the user's frame is broadcast first; with a queue the job is published next and,
   if the broker takes it, its frame is broadcast; the audit log is written last.
   */
  lemma WiredProgram(ws: bool, queue: bool, u: Uid)
    ensures Program(Wired(ws, queue), u) == UserPart(ws, u) + MailPart(ws, queue, u) + [WriteAudit(u)]
  {
    var ls := Wired(ws, queue);
    WiredLists(ws, queue);
    EmitOne(ls, HubJobEnqueued, JobEnqueued(u));
    EmitOne(ls, AuditWriter, AuditLog(u));
    if ws && queue {
      EmitTwo(ls, HubUserRegistered, WelcomeEmailQueuer, UserRegistered(u));
    } else {
      EmitOne(ls, if ws then HubUserRegistered else WelcomeEmailQueuer, UserRegistered(u));
    }
    assert Emit(ls, UserRegistered(u)) == UserPart(ws, u) + MailPart(ws, queue, u);
  }

  /** With the hub's listeners registered first, every registration runs a well-ordered program. */
  lemma ProgramWellOrdered(ws: bool, queue: bool, u: Uid)
    ensures WellOrdered(Program(Wired(ws, queue), u), u, false)
  {
    var p, job, mail, audit := Program(Wired(ws, queue), u), JobPart(ws, u), MailPart(ws, queue, u), [WriteAudit(u)];
    WiredProgram(ws, queue, u);
    assert WellOrdered(audit, u, false) && WellOrdered(audit, u, true);
    assert WellOrdered(job + audit, u, true) by {
      assert ws ==> (job + audit)[1..] == audit;
    }
    assert WellOrdered(mail + audit, u, false) by {
      assert queue ==> (mail + audit)[1..] == audit;
    }
    assert ws ==> p[1..] == mail + audit;
    assert !ws ==> p == mail + audit;
  }

  /** The same listeners, with the queue's registered before the hub's. */
  function Swapped(): Listeners {
    Wired(true, true)[USER_REGISTERED := [WelcomeEmailQueuer, HubUserRegistered]]
  }

  lemma SwappedProgram(u: Uid)
    ensures Program(Swapped(), u) ==
            [Publish(u, [Broadcast(JobEnqueuedFrame(u))]), Broadcast(UserRegisteredFrame(u)), WriteAudit(u)]
  {
    NamesDiffer();
    WiredLists(true, true);
    EmitOne(Swapped(), HubJobEnqueued, JobEnqueued(u));
    EmitOne(Swapped(), AuditWriter, AuditLog(u));
    EmitTwo(Swapped(), WelcomeEmailQueuer, HubUserRegistered, UserRegistered(u));
  }
}
