/**
 The broker's queue as mutable state, and what a worker does with one delivery.  Every method
 is proved to be a step of `Queue`, or the steps of one delivery in a row.
 */
module QueueWorkers {
  import opened Wrappers
  import opened Queue

  class Broker {
    var bodies: seq<string>
    var ready: seq<Id>
    var deliveries: map<Tag, Delivery>
    var unacked: set<Tag>
    var acked: set<Tag>
    var discarded: set<Tag>
    var closed: set<nat>

    function Now(): State
      reads this
    {
      State(bodies, ready, deliveries, unacked, acked, discarded, closed)
    }

    constructor ()
      ensures Now() == INIT
    {
      bodies, ready, deliveries, unacked, acked, discarded, closed := [], [], map[], {}, {}, {}, {};
    }

    /** Encode the job and append it to the queue. */
    method Publish(codec: Codec, job: Job)
      modifies this
      ensures Now() == Apply(codec, old(Now()), Queue.Publish(codec.encode(job)))
      ensures bodies == old(bodies) + [codec.encode(job)] && ready == old(ready) + [|old(bodies)|]
    {
      ready := ready + [|bodies|];
      bodies := bodies + [codec.encode(job)];
    }

    /** Hand the first message to a channel. */
    method Deliver(tag: Tag)
      requires Enabled(Now(), Queue.Deliver(tag))
      modifies this
      ensures forall codec :: Now() == Apply(codec, old(Now()), Queue.Deliver(tag))
      ensures old(ready) == [deliveries[tag].id] + ready && unacked == old(unacked) + {tag}
    {
      deliveries := deliveries[tag := Delivery(ready[0], Waiting)];
      ready := ready[1..];
      unacked := unacked + {tag};
    }

    method Ack(tag: Tag)
      requires tag in unacked
      modifies `unacked, `acked
      ensures unacked == old(unacked) - {tag} && acked == old(acked) + {tag}
    {
      unacked, acked := unacked - {tag}, acked + {tag};
    }

    /** Refuse a delivery: put its message back at position `at`, or throw it away. */
    method Nack(tag: Tag, requeue: bool, at: nat)
      requires tag in unacked && tag in deliveries && at <= |ready|
      modifies `unacked, `ready, `discarded
      ensures unacked == old(unacked) - {tag}
      ensures ready == if requeue then old(ready)[..at] + [deliveries[tag].id] + old(ready)[at..] else old(ready)
      ensures discarded == if requeue then old(discarded) else old(discarded) + {tag}
    {
      unacked := unacked - {tag};
      if requeue {
        ready := ready[..at] + [deliveries[tag].id] + ready[at..];
      } else {
        discarded := discarded + {tag};
      }
    }

    /** One delivery from a worker's hand to its answer; `ok` is what the handler reports. */
    method Process(codec: Codec, tag: Tag, ok: bool, at: nat)
      requires tag in unacked && at <= |ready| && Enabled(Now(), TakeUp(tag))
      modifies this
      ensures Now() == Processed(codec, old(Now()), tag, ok, at)
    {
      var id := deliveries[tag].id;
      var job := codec.decode(bodies[id]);
      if job == None {
        deliveries := deliveries[tag := Delivery(id, Garbled)];
        Nack(tag, false, at);
        return;
      }
      if !ok {
        deliveries := deliveries[tag := Delivery(id, Failed)];
        Nack(tag, true, at);
        return;
      }
      deliveries := deliveries[tag := Delivery(id, Succeeded)];
      Ack(tag);
    }
  }

  /** Taking up, handling if it can be decoded, and settling one delivery. */
  ghost function Processed(codec: Codec, s: State, tag: Tag, ok: bool, at: nat): State
    requires tag in s.unacked && at <= |s.ready| && Enabled(s, TakeUp(tag))
  {
    var taken := Apply(codec, s, TakeUp(tag));
    var handled := if taken.deliveries[tag].stage == Garbled then taken else Apply(codec, taken, Handle(tag, ok));
    Apply(codec, handled, Settle(tag, at))
  }

  /** What becomes of any delivery: thrown away if it cannot be decoded, else as the handler reports. */
  lemma Answered(codec: Codec, s: State, tag: Tag, ok: bool, at: nat)
    requires Invariant(codec, s)
    requires tag in s.unacked && at <= |s.ready| && Enabled(s, TakeUp(tag))
    ensures var s' := Processed(codec, s, tag, ok, at);
            && s'.unacked == s.unacked - {tag} && s'.bodies == s.bodies && s'.closed == s.closed
            && if codec.decode(s.bodies[s.deliveries[tag].id]) == None
               then s'.discarded == s.discarded + {tag} && s'.acked == s.acked && s'.ready == s.ready
               else if ok
               then s'.discarded == s.discarded && s'.acked == s.acked + {tag} && s'.ready == s.ready
               else s'.discarded == s.discarded && s'.acked == s.acked
                    && s'.ready == s.ready[..at] + [s.deliveries[tag].id] + s.ready[at..]
  {
  }

  /** A published job on an open channel is acknowledged when the handler succeeds, else it is queued again. */
  lemma JobAnswered(codec: Codec, s: State, tag: Tag, job: Job, ok: bool, at: nat)
    requires Lawful(codec) && Invariant(codec, s)
    requires tag in s.unacked && at <= |s.ready| && Enabled(s, TakeUp(tag))
    requires s.bodies[s.deliveries[tag].id] == codec.encode(job)
    ensures var s' := Processed(codec, s, tag, ok, at);
            && tag !in s'.unacked && s'.discarded == s.discarded
            && (tag in s'.acked <==> ok)
            && (!ok ==> s'.ready == s.ready[..at] + [s.deliveries[tag].id] + s.ready[at..])
            && Invariant(codec, s')
  {
    var taken := Apply(codec, s, TakeUp(tag));
    var handled := Apply(codec, taken, Handle(tag, ok));
    StepKeeps(codec, s, TakeUp(tag));
    StepKeeps(codec, taken, Handle(tag, ok));
    StepKeeps(codec, handled, Settle(tag, at));
  }
}
