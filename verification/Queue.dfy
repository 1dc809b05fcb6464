/**
 The job queue: publishing, deliveries to any number of workers on any number of channels, and
 the acknowledgement that each worker sends, against an abstract AMQP 0-9-1 broker.

 Messages are numbered in the order of publication.  Each delivery has a tag of its own; a
 message that goes back to the queue is delivered again under a new tag.
 */
module Queue {
  import opened Wrappers
  import Runs

  datatype Job = Job(userId: string, email: string)

  /** The JSON encoding of jobs; decoding fails on other texts. */
  datatype Codec = Codec(encode: Job -> string, decode: string -> Option<Job>)

  ghost predicate Lawful(codec: Codec) {
    forall job :: codec.decode(codec.encode(job)) == Some(job)
  }

  type Id = nat

  datatype Tag = Tag(channel: nat, number: nat)

  /** How far the worker is with a delivery. */
  datatype Stage = Waiting | Working | Succeeded | Failed | Garbled

  datatype Delivery = Delivery(id: Id, stage: Stage)

  datatype State = State(
    bodies: seq<string>,               // every message ever published
    ready: seq<Id>,
    deliveries: map<Tag, Delivery>,    // every delivery ever made
    unacked: set<Tag>,
    acked: set<Tag>,
    discarded: set<Tag>,
    closed: set<nat>)                  // the channels that are gone

  const INIT := State([], [], map[], {}, {}, {}, {})

  datatype Step =
    | Publish(body: string)
    | Deliver(tag: Tag)
    | TakeUp(tag: Tag)
    | Handle(tag: Tag, ok: bool)
    | Settle(tag: Tag, at: nat)
    | Close(channel: nat, back: seq<Id>)

  function OfChannel(tags: set<Tag>, channel: nat): set<Tag> {
    set t | t in tags && t.channel == channel
  }

  function IdsOf(deliveries: map<Tag, Delivery>, tags: set<Tag>): set<Id> {
    set t | t in tags && t in deliveries :: deliveries[t].id
  }

  /** `at` is where a requeued message goes, `back` the order in which a closed channel's messages return. */
  ghost predicate Enabled(s: State, step: Step) {
    match step
    case Publish(_) => true
    case Deliver(tag) => s.ready != [] && tag !in s.deliveries && tag.channel !in s.closed
    case TakeUp(tag) => tag in s.deliveries && s.deliveries[tag].stage == Waiting && s.deliveries[tag].id < |s.bodies|
    case Handle(tag, _) => tag in s.deliveries && s.deliveries[tag].stage == Working
    case Settle(tag, at) =>
      && tag in s.deliveries && tag in s.unacked && at <= |s.ready|
      && s.deliveries[tag].stage != Waiting && s.deliveries[tag].stage != Working
    case Close(channel, back) =>
      channel !in s.closed && multiset(back) == multiset(IdsOf(s.deliveries, OfChannel(s.unacked, channel)))
  }

  function AtStage(s: State, tag: Tag, stage: Stage): State
    requires tag in s.deliveries
  {
    s.(deliveries := s.deliveries[tag := s.deliveries[tag].(stage := stage)])
  }

  ghost function Apply(codec: Codec, s: State, step: Step): State
    requires Enabled(s, step)
  {
    match step
    case Publish(body) => s.(bodies := s.bodies + [body], ready := s.ready + [|s.bodies|])
    case Deliver(tag) =>
      s.(ready := s.ready[1..], deliveries := s.deliveries[tag := Delivery(s.ready[0], Waiting)], unacked := s.unacked + {tag})
    case TakeUp(tag) =>
      AtStage(s, tag, if codec.decode(s.bodies[s.deliveries[tag].id]) == None then Garbled else Working)
    case Handle(tag, ok) => AtStage(s, tag, if ok then Succeeded else Failed)
    case Settle(tag, at) =>
      if s.deliveries[tag].stage == Succeeded then s.(unacked := s.unacked - {tag}, acked := s.acked + {tag})
      else if s.deliveries[tag].stage == Garbled then s.(unacked := s.unacked - {tag}, discarded := s.discarded + {tag})
      else s.(unacked := s.unacked - {tag}, ready := s.ready[..at] + [s.deliveries[tag].id] + s.ready[at..])
    case Close(channel, back) =>
      s.(unacked := s.unacked - OfChannel(s.unacked, channel), ready := back + s.ready, closed := s.closed + {channel})
  }

  ghost predicate Follows(codec: Codec, s: State, s': State) {
    exists step :: Enabled(s, step) && s' == Apply(codec, s, step)
  }

  ghost function Next(codec: Codec): (State, State) -> bool {
    (s, s') => Follows(codec, s, s')
  }

  ghost predicate Reachable(codec: Codec, s: State) {
    Runs.Leads(Next(codec), INIT, s)
  }

  // ---------- Conservation ----------

  /** The deliveries that hold a message: it is with a worker, done, or thrown away. */
  function Holding(s: State): set<Tag> {
    s.unacked + s.acked + s.discarded
  }

  ghost predicate Distinct(deliveries: map<Tag, Delivery>, tags: set<Tag>) {
    && tags <= deliveries.Keys
    && forall t, u :: t in tags && u in tags && deliveries[t].id == deliveries[u].id ==> t == u
  }

  /** Every published message is in exactly one place. */
  ghost predicate Placed(n: nat, ready: seq<Id>, held: set<Id>) {
    forall id: Id :: multiset(ready)[id] + (if id in held then 1 else 0) == if id < n then 1 else 0
  }

  ghost predicate Conserved(s: State) {
    && s.unacked !! s.acked !! s.discarded
    && Distinct(s.deliveries, Holding(s))
    && Placed(|s.bodies|, s.ready, IdsOf(s.deliveries, Holding(s)))
  }

  /** The worker has not failed on the delivery, so far. */
  predicate Open(stage: Stage) {
    stage == Waiting || stage == Working || stage == Succeeded
  }

  predicate Decodable(codec: Codec, s: State, tag: Tag) {
    tag in s.deliveries && s.deliveries[tag].id < |s.bodies| && codec.decode(s.bodies[s.deliveries[tag].id]) != None
  }

  /** What a worker's stage says about the message and about the answer the broker got. */
  ghost predicate StagesOk(codec: Codec, s: State) {
    && (forall t :: t in s.deliveries ==> s.deliveries[t].id < |s.bodies|)
    && (forall t :: t in s.deliveries && s.deliveries[t].stage != Waiting ==>
                      (s.deliveries[t].stage == Garbled <==> !Decodable(codec, s, t)))
    && (forall t :: t in s.acked ==> t in s.deliveries && s.deliveries[t].stage == Succeeded)
    && (forall t :: t in s.discarded ==> t in s.deliveries && s.deliveries[t].stage == Garbled)
    && (forall t :: t in s.deliveries && Open(s.deliveries[t].stage) ==> t in s.unacked || t in s.acked || t.channel in s.closed)
    && (forall t :: t in s.deliveries && s.deliveries[t].stage == Garbled ==> t in s.unacked || t in s.discarded || t.channel in s.closed)
  }

  ghost predicate Invariant(codec: Codec, s: State) {
    Conserved(s) && StagesOk(codec, s)
  }

  lemma PublishKeeps(codec: Codec, s: State, body: string)
    requires Invariant(codec, s)
    ensures Invariant(codec, Apply(codec, s, Publish(body)))
  {
  }

  lemma DeliverConserves(codec: Codec, s: State, tag: Tag)
    requires Invariant(codec, s) && Enabled(s, Deliver(tag))
    ensures Conserved(Apply(codec, s, Deliver(tag)))
  {
    var s' := Apply(codec, s, Deliver(tag));
    var id := s.ready[0];
    assert s.ready == [id] + s'.ready;
    assert id in multiset(s.ready);
    assert IdsOf(s'.deliveries, Holding(s')) == IdsOf(s.deliveries, Holding(s)) + {id};
  }

  lemma DeliverStages(codec: Codec, s: State, tag: Tag)
    requires Invariant(codec, s) && Enabled(s, Deliver(tag))
    ensures StagesOk(codec, Apply(codec, s, Deliver(tag)))
  {
    assert s.ready[0] in multiset(s.ready);
  }

  lemma DeliverKeeps(codec: Codec, s: State, tag: Tag)
    requires Invariant(codec, s) && Enabled(s, Deliver(tag))
    ensures Invariant(codec, Apply(codec, s, Deliver(tag)))
  {
    DeliverConserves(codec, s, tag);
    DeliverStages(codec, s, tag);
  }

  lemma StageKeeps(codec: Codec, s: State, tag: Tag, stage: Stage)
    requires Invariant(codec, s) && tag in s.deliveries
    requires s.deliveries[tag].stage == Waiting || s.deliveries[tag].stage == Working
    requires stage != Waiting && (stage == Garbled <==> !Decodable(codec, s, tag))
    ensures Invariant(codec, AtStage(s, tag, stage))
  {
    var s' := AtStage(s, tag, stage);
    assert forall t :: Decodable(codec, s', t) <==> Decodable(codec, s, t);
    assert IdsOf(s'.deliveries, Holding(s')) == IdsOf(s.deliveries, Holding(s));
  }

  /** A delivery stops holding its message, which goes back to the queue. */
  lemma Requeued(n: nat, deliveries: map<Tag, Delivery>, ready: seq<Id>, tags: set<Tag>, tag: Tag, at: nat)
    requires Distinct(deliveries, tags) && tag in tags && at <= |ready|
    requires Placed(n, ready, IdsOf(deliveries, tags))
    ensures Placed(n, ready[..at] + [deliveries[tag].id] + ready[at..], IdsOf(deliveries, tags - {tag}))
  {
    var id := deliveries[tag].id;
    var ready' := ready[..at] + [id] + ready[at..];
    assert ready == ready[..at] + ready[at..];
    assert multiset(ready') == multiset(ready) + multiset{id};
    assert id in IdsOf(deliveries, tags);
    assert IdsOf(deliveries, tags - {tag}) == IdsOf(deliveries, tags) - {id} by {
      forall t | t in tags && deliveries[t].id == id ensures t == tag {
      }
    }
  }

  /** An acknowledgement, or a rejection without requeue: the delivery keeps its message. */
  lemma KeptKeeps(codec: Codec, s: State, tag: Tag, at: nat)
    requires Invariant(codec, s) && Enabled(s, Settle(tag, at)) && s.deliveries[tag].stage != Failed
    ensures Invariant(codec, Apply(codec, s, Settle(tag, at)))
  {
    assert Holding(Apply(codec, s, Settle(tag, at))) == Holding(s);
  }

  lemma RequeueKeeps(codec: Codec, s: State, tag: Tag, at: nat)
    requires Invariant(codec, s) && Enabled(s, Settle(tag, at)) && s.deliveries[tag].stage == Failed
    ensures Invariant(codec, Apply(codec, s, Settle(tag, at)))
  {
    Requeued(|s.bodies|, s.deliveries, s.ready, Holding(s), tag, at);
    assert Holding(Apply(codec, s, Settle(tag, at))) == Holding(s) - {tag};
  }

  lemma SettleKeeps(codec: Codec, s: State, tag: Tag, at: nat)
    requires Invariant(codec, s) && Enabled(s, Settle(tag, at))
    ensures Invariant(codec, Apply(codec, s, Settle(tag, at)))
  {
    if s.deliveries[tag].stage == Failed {
      RequeueKeeps(codec, s, tag, at);
    } else {
      KeptKeeps(codec, s, tag, at);
    }
  }

  lemma CloseKeeps(codec: Codec, s: State, channel: nat, back: seq<Id>)
    requires Invariant(codec, s) && Enabled(s, Close(channel, back))
    ensures Invariant(codec, Apply(codec, s, Close(channel, back)))
  {
    var s' := Apply(codec, s, Close(channel, back));
    var gone := OfChannel(s.unacked, channel);
    assert Holding(s') == Holding(s) - gone;
    assert multiset(s'.ready) == multiset(back) + multiset(s.ready);
    assert IdsOf(s.deliveries, Holding(s)) == IdsOf(s.deliveries, Holding(s')) + IdsOf(s.deliveries, gone);
    assert IdsOf(s.deliveries, Holding(s')) !! IdsOf(s.deliveries, gone);
  }

  lemma StepKeeps(codec: Codec, s: State, step: Step)
    requires Invariant(codec, s) && Enabled(s, step)
    ensures Invariant(codec, Apply(codec, s, step))
  {
    match step
    case Publish(body) => PublishKeeps(codec, s, body);
    case Deliver(tag) => DeliverKeeps(codec, s, tag);
    case TakeUp(tag) => StageKeeps(codec, s, tag, Apply(codec, s, step).deliveries[tag].stage);
    case Handle(tag, ok) => StageKeeps(codec, s, tag, if ok then Succeeded else Failed);
    case Settle(tag, at) => SettleKeeps(codec, s, tag, at);
    case Close(channel, back) => CloseKeeps(codec, s, channel, back);
  }

  lemma AlwaysInvariant(codec: Codec, s: State)
    requires Reachable(codec, s)
    ensures Invariant(codec, s)
  {
    forall x, y | Invariant(codec, x) && Follows(codec, x, y) ensures Invariant(codec, y) {
      var step :| Enabled(x, step) && y == Apply(codec, x, step);
      StepKeeps(codec, x, step);
    }
    Runs.Kept(Next(codec), x => Invariant(codec, x), INIT, s);
  }

  // ---------- What every run keeps ----------

  /**
   Every published message is ready, with a worker, acknowledged or discarded: exactly one of
   these, and through exactly one delivery.
   */
  lemma ExactlyOnePlace(codec: Codec, s: State, id: Id)
    requires Reachable(codec, s) && id < |s.bodies|
    ensures id in s.ready <==> id !in IdsOf(s.deliveries, Holding(s))
    ensures multiset(s.ready)[id] <= 1
    ensures Distinct(s.deliveries, Holding(s)) && s.unacked !! s.acked !! s.discarded
  {
    AlwaysInvariant(codec, s);
    assert id in s.ready <==> multiset(s.ready)[id] > 0;
  }

  lemma {:induction false} IdsSize(deliveries: map<Tag, Delivery>, tags: set<Tag>)
    requires Distinct(deliveries, tags)
    ensures |IdsOf(deliveries, tags)| == |tags|
  {
    if tags != {} {
      var t :| t in tags;
      IdsSize(deliveries, tags - {t});
      assert IdsOf(deliveries, tags) == IdsOf(deliveries, tags - {t}) + {deliveries[t].id};
    }
  }

  lemma RemoveOne(ready: seq<Id>, id: Id) returns (rest: seq<Id>)
    requires id in ready
    ensures |rest| == |ready| - 1 && multiset(ready) == multiset(rest) + multiset{id}
  {
    var i :| 0 <= i < |ready| && ready[i] == id;
    rest := ready[..i] + ready[i + 1..];
    assert ready == ready[..i] + [ready[i]] + ready[i + 1..];
  }

  lemma PlacedNone(ready: seq<Id>, held: set<Id>)
    requires Placed(0, ready, held)
    ensures ready == [] && held == {}
  {
    forall id: Id ensures id !in multiset(ready) && id !in held {
      assert multiset(ready)[id] + (if id in held then 1 else 0) == 0;
    }
    assert multiset(ready) == multiset{};
    assert |multiset(ready)| == |ready|;
  }

  lemma {:induction false} PlacedSize(n: nat, ready: seq<Id>, held: set<Id>)
    requires Placed(n, ready, held)
    ensures n == |ready| + |held|
    decreases n
  {
    if n == 0 {
      PlacedNone(ready, held);
    } else if n - 1 in held {
      PlacedSize(n - 1, ready, held - {n - 1});
    } else {
      assert multiset(ready)[n - 1] == 1;
      var rest := RemoveOne(ready, n - 1);
      PlacedSize(n - 1, rest, held);
    }
  }

  /** Nothing is lost and nothing appears: the counts add up. */
  lemma CountsAddUp(codec: Codec, s: State)
    requires Reachable(codec, s)
    ensures |s.bodies| == |s.ready| + |s.unacked| + |s.acked| + |s.discarded|
  {
    AlwaysInvariant(codec, s);
    IdsSize(s.deliveries, Holding(s));
    PlacedSize(|s.bodies|, s.ready, IdsOf(s.deliveries, Holding(s)));
  }

  /** An acknowledgement means that the handler succeeded on that very delivery. */
  lemma AckedSucceeded(codec: Codec, s: State, tag: Tag)
    requires Reachable(codec, s) && tag in s.acked
    ensures tag in s.deliveries && s.deliveries[tag].stage == Succeeded
  {
    AlwaysInvariant(codec, s);
  }

  /** Only undecodable messages are discarded, so no published job is. */
  lemma JobsNeverDiscarded(codec: Codec, s: State, tag: Tag)
    requires Lawful(codec) && Reachable(codec, s) && tag in s.discarded
    ensures tag in s.deliveries && s.deliveries[tag].id < |s.bodies|
    ensures codec.decode(s.bodies[s.deliveries[tag].id]) == None
    ensures forall job :: s.bodies[s.deliveries[tag].id] != codec.encode(job)
  {
    AlwaysInvariant(codec, s);
  }

  /**
   The answer the broker has had on an open channel is the worker's result: acknowledged exactly
   after a success, thrown away exactly when the message cannot be decoded, else queued again.
   */
  lemma AnsweredByResult(codec: Codec, s: State, tag: Tag)
    requires Reachable(codec, s) && tag in s.deliveries && tag !in s.unacked && tag.channel !in s.closed
    ensures s.deliveries[tag].id < |s.bodies|
    ensures tag in s.acked <==> s.deliveries[tag].stage == Succeeded
    ensures tag in s.discarded <==> codec.decode(s.bodies[s.deliveries[tag].id]) == None
    ensures tag !in s.acked && tag !in s.discarded <==> s.deliveries[tag].stage == Failed
  {
    AlwaysInvariant(codec, s);
    assert Decodable(codec, s, tag) <==> codec.decode(s.bodies[s.deliveries[tag].id]) != None;
  }

  /** Nothing was put back: no channel has closed and no handler has failed. */
  ghost predicate NothingBack(s: State) {
    s.closed == {} && forall t :: t in s.deliveries ==> s.deliveries[t].stage != Failed
  }

  /** The messages in the queue are the last ones published, in that order. */
  ghost predicate InOrder(s: State) {
    |s.ready| <= |s.bodies| && forall i :: 0 <= i < |s.ready| ==> s.ready[i] == |s.bodies| - |s.ready| + i
  }

  lemma StepInOrder(codec: Codec, s: State, step: Step)
    requires Enabled(s, step) && (NothingBack(s) ==> InOrder(s)) && NothingBack(Apply(codec, s, step))
    ensures InOrder(Apply(codec, s, step))
  {
    var s' := Apply(codec, s, step);
    assert NothingBack(s) by {
      forall t | t in s.deliveries ensures s.deliveries[t].stage != Failed {
        assert t in s'.deliveries;
      }
    }
  }

  /** As long as nothing is put back, messages are delivered in the order of publication. */
  lemma FirstInFirstOut(codec: Codec, s: State)
    requires Reachable(codec, s) && NothingBack(s)
    ensures InOrder(s)
  {
    forall x, y | (NothingBack(x) ==> InOrder(x)) && Follows(codec, x, y) ensures NothingBack(y) ==> InOrder(y) {
      var step :| Enabled(x, step) && y == Apply(codec, x, step);
      if NothingBack(y) {
        StepInOrder(codec, x, step);
      }
    }
    Runs.Kept(Next(codec), x => NothingBack(x) ==> InOrder(x), INIT, s);
  }

  // ---------- How often the handler succeeds ----------

  /** The worker may yet succeed on the delivery, or has. */
  predicate Able(codec: Codec, s: State, tag: Tag) {
    Decodable(codec, s, tag) && Open(s.deliveries[tag].stage)
  }

  /** Such a delivery whose message the broker has taken back. */
  predicate Stranded(codec: Codec, s: State, tag: Tag) {
    Able(codec, s, tag) && tag !in s.unacked && tag !in s.acked
  }

  ghost predicate NoneStranded(codec: Codec, s: State) {
    forall t :: !Stranded(codec, s, t)
  }

  /** The handler succeeded on two deliveries of one message. */
  ghost predicate Repeats(s: State, t: Tag, u: Tag) {
    && t != u && t in s.deliveries && u in s.deliveries && s.deliveries[t].id == s.deliveries[u].id
    && s.deliveries[t].stage == Succeeded && s.deliveries[u].stage == Succeeded
  }

  /** The handler succeeded at most once per message. */
  ghost predicate SuccessUnique(s: State) {
    forall t, u :: !Repeats(s, t, u)
  }

  ghost predicate FollowsOpen(codec: Codec, s: State, s': State) {
    exists step: Step :: !step.Close? && Enabled(s, step) && s' == Apply(codec, s, step)
  }

  ghost function OpenNext(codec: Codec): (State, State) -> bool {
    (s, s') => FollowsOpen(codec, s, s')
  }

  /** Some run without a further close goes from `s` to `t`. */
  ghost predicate Continues(codec: Codec, s: State, t: State) {
    Runs.Leads(OpenNext(codec), s, t)
  }

  lemma ContinuesStep(codec: Codec, from: State, s: State, step: Step)
    requires Continues(codec, from, s) && Enabled(s, step) && !step.Close?
    ensures Continues(codec, from, Apply(codec, s, step))
  {
    assert FollowsOpen(codec, s, Apply(codec, s, step));
    Runs.Extends(OpenNext(codec), from, s, Apply(codec, s, step));
  }

  /** Only the close of its channel strands a delivery. */
  lemma StrandedByClose(codec: Codec, s: State, tag: Tag)
    requires Reachable(codec, s) && Stranded(codec, s, tag)
    ensures tag.channel in s.closed
  {
    AlwaysInvariant(codec, s);
  }

  lemma OnceWhenNoneStranded(codec: Codec, s: State)
    requires Invariant(codec, s) && NoneStranded(codec, s)
    ensures SuccessUnique(s)
  {
    forall t | t in s.deliveries && s.deliveries[t].stage == Succeeded ensures t in Holding(s) {
      assert !Stranded(codec, s, t);
    }
  }

  /** Where nothing is stranded, the handler has succeeded at most once per message. */
  lemma SucceedsOnce(codec: Codec, s: State)
    requires Reachable(codec, s) && NoneStranded(codec, s)
    ensures SuccessUnique(s)
  {
    AlwaysInvariant(codec, s);
    OnceWhenNoneStranded(codec, s);
  }

  lemma OpenStrandsNone(codec: Codec, s: State, step: Step)
    requires Invariant(codec, s) && NoneStranded(codec, s) && Enabled(s, step) && !step.Close?
    ensures NoneStranded(codec, Apply(codec, s, step))
  {
    var s' := Apply(codec, s, step);
    forall t ensures !Stranded(codec, s', t) {
      assert !Stranded(codec, s, t);
    }
  }

  lemma AtStageTwice(s: State, tag: Tag, x: Stage, y: Stage)
    requires tag in s.deliveries
    ensures AtStage(AtStage(s, tag, x), tag, y) == AtStage(s, tag, y)
  {
    assert AtStage(AtStage(s, tag, x), tag, y).deliveries == AtStage(s, tag, y).deliveries;
  }

  lemma Handled(codec: Codec, from: State, s: State, tag: Tag) returns (s': State)
    requires Continues(codec, from, s) && Invariant(codec, s) && tag in s.deliveries && s.deliveries[tag].stage == Working
    ensures Continues(codec, from, s') && Invariant(codec, s') && s' == AtStage(s, tag, Succeeded)
  {
    ContinuesStep(codec, from, s, Handle(tag, true));
    StepKeeps(codec, s, Handle(tag, true));
    s' := Apply(codec, s, Handle(tag, true));
  }

  /** A worker goes on to succeed, whether or not its channel is closed. */
  lemma Finishes(codec: Codec, from: State, s: State, tag: Tag) returns (s': State)
    requires Continues(codec, from, s) && Invariant(codec, s) && Able(codec, s, tag)
    ensures Continues(codec, from, s') && Invariant(codec, s') && s' == AtStage(s, tag, Succeeded)
  {
    s' := s;
    if s.deliveries[tag].stage == Waiting {
      ContinuesStep(codec, from, s, TakeUp(tag));
      StepKeeps(codec, s, TakeUp(tag));
      s' := Handled(codec, from, AtStage(s, tag, Working), tag);
      AtStageTwice(s, tag, Working, Succeeded);
    } else if s.deliveries[tag].stage == Working {
      s' := Handled(codec, from, s, tag);
    } else {
      assert s.deliveries[tag := s.deliveries[tag].(stage := Succeeded)] == s.deliveries;
    }
  }

  lemma {:induction false} Above(xs: set<nat>) returns (n: nat)
    ensures forall x :: x in xs ==> x < n
  {
    n := 0;
    if xs != {} {
      var x :| x in xs;
      var m := Above(xs - {x});
      n := if x < m then m else x + 1;
      assert forall y :: y in xs ==> y == x || y in xs - {x};
    }
  }

  lemma FreshTag(s: State) returns (tag: Tag)
    ensures tag !in s.deliveries && tag.channel !in s.closed
  {
    var used := set t | t in s.deliveries :: t.channel;
    var n := Above(s.closed + used);
    tag := Tag(n, 0);
    assert forall t :: t in s.deliveries ==> t.channel in s.closed + used;
  }

  /** A message in the queue is delivered again, after those ahead of it, and handled. */
  lemma {:induction false} Redelivered(codec: Codec, from: State, s: State, t: Tag) returns (s': State, u: Tag)
    requires Continues(codec, from, s) && Invariant(codec, s)
    requires t in s.deliveries && s.deliveries[t].stage == Succeeded && s.deliveries[t].id in s.ready
    ensures Continues(codec, from, s') && Repeats(s', t, u)
    decreases |s.ready|
  {
    u := FreshTag(s);
    ContinuesStep(codec, from, s, Deliver(u));
    StepKeeps(codec, s, Deliver(u));
    s' := Apply(codec, s, Deliver(u));
    assert Decodable(codec, s, t);
    if s.ready[0] == s.deliveries[t].id {
      s' := Finishes(codec, from, s', u);
    } else {
      s', u := Redelivered(codec, from, s', t);
    }
  }

  /** Another delivery holds the message of a success: it has succeeded, may yet, or puts the message back. */
  lemma HeldRepeats(codec: Codec, from: State, s: State, t: Tag, v: Tag) returns (s': State, u: Tag)
    requires Continues(codec, from, s) && Invariant(codec, s)
    requires t in s.deliveries && s.deliveries[t].stage == Succeeded && t !in Holding(s)
    requires v in Holding(s) && s.deliveries[v].id == s.deliveries[t].id
    ensures Continues(codec, from, s') && Repeats(s', t, u)
  {
    s', u := s, v;
    assert Decodable(codec, s, t) && Decodable(codec, s, v);
    if s.deliveries[v].stage == Failed {
      ContinuesStep(codec, from, s, Settle(v, 0));
      StepKeeps(codec, s, Settle(v, 0));
      s' := Apply(codec, s, Settle(v, 0));
      assert s'.ready[0] == s.deliveries[t].id;
      s', u := Redelivered(codec, from, s', t);
    } else if s.deliveries[v].stage != Succeeded {
      s' := Finishes(codec, from, s, v);
    }
  }

  /** A stranded delivery can succeed, and so can another delivery of its message. */
  lemma StrandedRepeats(codec: Codec, s: State, t: Tag) returns (s': State, u: Tag)
    requires Invariant(codec, s) && Stranded(codec, s, t)
    ensures Continues(codec, s, s') && Repeats(s', t, u)
  {
    Runs.Stays(OpenNext(codec), s);
    s' := Finishes(codec, s, s, t);
    var id := s.deliveries[t].id;
    if id in s'.ready {
      s', u := Redelivered(codec, s, s', t);
    } else {
      assert multiset(s'.ready)[id] == 0;
      var v :| v in Holding(s') && v in s'.deliveries && s'.deliveries[v].id == id;
      s', u := HeldRepeats(codec, s, s', t, v);
    }
  }

  /** Without a further close the handler succeeds at most once per message if and only if nothing is stranded. */
  lemma SucceedsOnceIff(codec: Codec, s: State)
    requires Reachable(codec, s)
    ensures (forall t :: Continues(codec, s, t) ==> SuccessUnique(t)) <==> NoneStranded(codec, s)
  {
    AlwaysInvariant(codec, s);
    if NoneStranded(codec, s) {
      forall t | Continues(codec, s, t) ensures SuccessUnique(t) {
        StaysUnstranded(codec, s, t);
        OnceWhenNoneStranded(codec, t);
      }
    } else {
      var t :| Stranded(codec, s, t);
      var s', u := StrandedRepeats(codec, s, t);
      assert !SuccessUnique(s');
    }
  }

  lemma StaysUnstranded(codec: Codec, s: State, t: State)
    requires Invariant(codec, s) && NoneStranded(codec, s) && Continues(codec, s, t)
    ensures Invariant(codec, t) && NoneStranded(codec, t)
  {
    forall x, y | Invariant(codec, x) && NoneStranded(codec, x) && FollowsOpen(codec, x, y)
      ensures Invariant(codec, y) && NoneStranded(codec, y)
    {
      var step: Step :| !step.Close? && Enabled(x, step) && y == Apply(codec, x, step);
      StepKeeps(codec, x, step);
      OpenStrandsNone(codec, x, step);
    }
    Runs.Kept(OpenNext(codec), x => Invariant(codec, x) && NoneStranded(codec, x), s, t);
  }

  /** An unacknowledged delivery of the channel can be decoded and has not failed. */
  ghost predicate AtRisk(codec: Codec, s: State, channel: nat) {
    exists t :: t in s.unacked && t.channel == channel && Able(codec, s, t)
  }

  /**
   Closing a channel where nothing is stranded keeps success unique in every continuation without
   a further close if and only if no unacknowledged delivery of that channel can be decoded and
   has not failed.
   */
  lemma CloseHarmlessIff(codec: Codec, s: State, channel: nat, back: seq<Id>)
    requires Reachable(codec, s) && NoneStranded(codec, s) && Enabled(s, Close(channel, back))
    ensures (forall t :: Continues(codec, Apply(codec, s, Close(channel, back)), t) ==> SuccessUnique(t))
            <==> !AtRisk(codec, s, channel)
  {
    var s' := Apply(codec, s, Close(channel, back));
    ReachableStep(codec, s, Close(channel, back));
    SucceedsOnceIff(codec, s');
    forall t ensures Stranded(codec, s', t) <==> t in s.unacked && t.channel == channel && Able(codec, s, t) {
      assert !Stranded(codec, s, t);
      assert Able(codec, s', t) <==> Able(codec, s, t);
      AckedNotUnacked(codec, s, t);
    }
  }

  lemma AckedNotUnacked(codec: Codec, s: State, t: Tag)
    requires Reachable(codec, s)
    ensures !(t in s.acked && t in s.unacked)
  {
    AlwaysInvariant(codec, s);
  }

  /** A run in which a channel closes between the handler's success and its acknowledgement. */
  lemma ClosedChannelRepeats(codec: Codec, job: Job) returns (s: State, t: Tag, u: Tag)
    requires Lawful(codec)
    ensures Reachable(codec, s)
    ensures t != u && t in s.deliveries && u in s.deliveries
    ensures s.deliveries[t] == s.deliveries[u] == Delivery(0, Succeeded)
  {
    t, u := Tag(0, 0), Tag(1, 0);
    var s1 := Apply(codec, INIT, Publish(codec.encode(job)));
    var s4 := Served(codec, s1, t);
    assert IdsOf(s4.deliveries, OfChannel(s4.unacked, 0)) == {0};
    var s5 := Apply(codec, s4, Close(0, [0]));
    s := Served(codec, s5, u);
    Runs.Stays(Next(codec), INIT);
    ReachableStep(codec, INIT, Publish(codec.encode(job)));
    ServedReachable(codec, s1, t);
    ReachableStep(codec, s4, Close(0, [0]));
    ServedReachable(codec, s5, u);
  }

  /** The state after one delivery on which the handler succeeds. */
  ghost predicate Servable(codec: Codec, s: State, tag: Tag) {
    && Enabled(s, Deliver(tag)) && s.ready[0] < |s.bodies| && codec.decode(s.bodies[s.ready[0]]) != None
  }

  ghost function Served(codec: Codec, s: State, tag: Tag): State
    requires Servable(codec, s, tag)
  {
    var s1 := Apply(codec, s, Deliver(tag));
    var s2 := Apply(codec, s1, TakeUp(tag));
    Apply(codec, s2, Handle(tag, true))
  }

  lemma ReachableStep(codec: Codec, s: State, step: Step)
    requires Reachable(codec, s) && Enabled(s, step)
    ensures Reachable(codec, Apply(codec, s, step))
  {
    assert Follows(codec, s, Apply(codec, s, step));
    Runs.Extends(Next(codec), INIT, s, Apply(codec, s, step));
  }

  lemma ServedReachable(codec: Codec, s: State, tag: Tag)
    requires Reachable(codec, s) && Servable(codec, s, tag)
    ensures Reachable(codec, Served(codec, s, tag))
  {
    var s1 := Apply(codec, s, Deliver(tag));
    var s2 := Apply(codec, s1, TakeUp(tag));
    ReachableStep(codec, s, Deliver(tag));
    ReachableStep(codec, s1, TakeUp(tag));
    ReachableStep(codec, s2, Handle(tag, true));
  }
}
