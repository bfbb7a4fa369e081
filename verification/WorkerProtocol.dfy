/**
 The delivery protocol of the workers: any number of workers share a queue and
 an idempotency key per message id. Each constructor of `Event` is one atomic
 effect of `_handle`; the broker may duplicate messages, and a worker may die
 between any two effects, whereupon its unacknowledged message is requeued.
 */
module WorkerProtocol {
  import opened Wrappers

  datatype Envelope = Envelope(id: string, taskId: string, attempt: nat)

  datatype Message = Malformed(body: string) | Command(env: Envelope)

  /** Where a worker stands in `_handle`, with the message it has not acknowledged yet. */
  datatype Phase =
    | Idle
    | Received(m: Message)          // delivered, the key not tried
    | Skipping(env: Envelope)       // the key was taken: a duplicate, about to be acknowledged
    | Executing(env: Envelope)      // holds the key
    | Finished(env: Envelope)       // executed, about to be acknowledged; the key stays
    | Failing(env: Envelope)        // the execution raised; still holds the key
    | Released(env: Envelope)       // deleted the key
    | Republished(env: Envelope)    // the next attempt is queued, this one about to be acknowledged
  {
    predicate Holds(id: string) {
      (Executing? || Failing?) && env.id == id
    }

    /**
     The worker still carries an attempt of this id that can lead to an execution, a retry or the dead-letter
     queue.
     */
    predicate Carries(id: string) {
      match this
      case Received(Command(e)) => e.id == id
      case Executing(e) => e.id == id
      case Failing(e) => e.id == id
      case Released(e) => e.id == id
      case _ => false
    }

    function Unacked(): Message
      requires !Idle?
    {
      if Received? then m else Command(env)
    }
  }

  /** `started`, `completed` and `failed` record the executions of each id. */
  datatype Sys = Sys(
    queue: multiset<Message>,
    deadLetters: multiset<Message>,
    keys: set<string>,
    workers: seq<Phase>,
    published: set<string>,
    started: multiset<string>,
    completed: multiset<string>,
    failed: multiset<string>)

  function Fresh(n: nat): Sys {
    Sys(multiset{}, multiset{}, {}, seq(n, _ => Idle), {}, multiset{}, multiset{}, multiset{})
  }

  datatype Event =
    | Publish(env: Envelope)
    | Duplicate(m: Message)
    | Deliver(w: nat, m: Message)
    | RejectMalformed(w: nat)
    | Claim(w: nat)
    | Finish(w: nat)
    | Raise(w: nat)
    | Release(w: nat)
    | DeadLetter(w: nat)
    | Republish(w: nat)
    | Acknowledge(w: nat)
    | Crash(w: nat)

  predicate Enabled(max: nat, s: Sys, e: Event) {
    match e
    case Publish(env) => env.attempt == 1 && env.id !in s.published
    case Duplicate(m) => m.Malformed? || m.env.id in s.published
    case Deliver(w, m) => w < |s.workers| && s.workers[w].Idle? && m in s.queue
    case RejectMalformed(w) => w < |s.workers| && s.workers[w].Received? && s.workers[w].m.Malformed?
    case Claim(w) => w < |s.workers| && s.workers[w].Received? && s.workers[w].m.Command?
    case Finish(w) => w < |s.workers| && s.workers[w].Executing?
    case Raise(w) => w < |s.workers| && s.workers[w].Executing?
    case Release(w) => w < |s.workers| && s.workers[w].Failing?
    case DeadLetter(w) => w < |s.workers| && s.workers[w].Released? && s.workers[w].env.attempt >= max
    case Republish(w) => w < |s.workers| && s.workers[w].Released? && s.workers[w].env.attempt < max
    case Acknowledge(w) =>
      w < |s.workers| && (s.workers[w].Skipping? || s.workers[w].Finished? || s.workers[w].Republished?)
    case Crash(w) => w < |s.workers| && !s.workers[w].Idle?
  }

  function Perform(max: nat, s: Sys, e: Event): Sys
    requires Enabled(max, s, e)
  {
    match e
    case Publish(env) => s.(queue := s.queue + multiset{Command(env)}, published := s.published + {env.id})
    case Duplicate(m) => s.(queue := s.queue + multiset{m})
    case Deliver(w, m) => s.(queue := s.queue - multiset{m}, workers := s.workers[w := Received(m)])
    case RejectMalformed(w) =>
      s.(deadLetters := s.deadLetters + multiset{s.workers[w].m}, workers := s.workers[w := Idle])
    case Claim(w) =>
      var env := s.workers[w].m.env;
      if env.id in s.keys then s.(workers := s.workers[w := Skipping(env)])
      else s.(keys := s.keys + {env.id},
              workers := s.workers[w := Executing(env)],
              started := s.started + multiset{env.id})
    case Finish(w) =>
      var env := s.workers[w].env;
      s.(workers := s.workers[w := Finished(env)], completed := s.completed + multiset{env.id})
    case Raise(w) =>
      var env := s.workers[w].env;
      s.(workers := s.workers[w := Failing(env)], failed := s.failed + multiset{env.id})
    case Release(w) =>
      var env := s.workers[w].env;
      s.(keys := s.keys - {env.id}, workers := s.workers[w := Released(env)])
    case DeadLetter(w) =>
      s.(deadLetters := s.deadLetters + multiset{Command(s.workers[w].env)}, workers := s.workers[w := Idle])
    case Republish(w) =>
      var env := s.workers[w].env;
      s.(queue := s.queue + multiset{Command(env.(attempt := env.attempt + 1))},
         workers := s.workers[w := Republished(env)])
    case Acknowledge(w) => s.(workers := s.workers[w := Idle])
    case Crash(w) => s.(queue := s.queue + multiset{s.workers[w].Unacked()}, workers := s.workers[w := Idle])
  }

  /** An interleaving of events from a fresh system with n workers. */
  ghost predicate IsRun(max: nat, n: nat, ss: seq<Sys>, es: seq<Event>) {
    && |ss| == |es| + 1 && ss[0] == Fresh(n)
    && forall i :: 0 <= i < |es| ==> Enabled(max, ss[i], es[i]) && ss[i + 1] == Perform(max, ss[i], es[i])
  }

  // ---- what one event does to a worker, to a key, to a count ----

  lemma WorkerFrame(max: nat, s: Sys, e: Event, v: nat)
    requires Enabled(max, s, e) && v < |s.workers|
    ensures |Perform(max, s, e).workers| == |s.workers|
    ensures e.Publish? || e.Duplicate? || e.w != v ==> Perform(max, s, e).workers[v] == s.workers[v]
  {
  }

  lemma SameWorkers(max: nat, s: Sys, e: Event)
    requires Enabled(max, s, e)
    ensures |Perform(max, s, e).workers| == |s.workers|
  {
    if !e.Publish? && !e.Duplicate? {
      WorkerFrame(max, s, e, e.w);
    }
  }

  lemma StartsHolding(max: nat, s: Sys, e: Event, id: string)
    requires Enabled(max, s, e) && !e.Publish? && !e.Duplicate? && !e.Claim?
    ensures e.w < |s.workers| == |Perform(max, s, e).workers|
    ensures Perform(max, s, e).workers[e.w].Holds(id) ==> s.workers[e.w].Holds(id)
  {
    SameWorkers(max, s, e);
    if !e.Raise? {
      NobodyStarts(max, s, e, id);
    }
  }

  lemma NobodyStarts(max: nat, s: Sys, e: Event, id: string)
    requires Enabled(max, s, e) && !e.Publish? && !e.Duplicate? && !e.Claim? && !e.Raise?
    ensures e.w < |Perform(max, s, e).workers| && !Perform(max, s, e).workers[e.w].Holds(id)
  {
  }

  lemma ClaimTakes(max: nat, s: Sys, w: nat, id: string)
    requires Enabled(max, s, Claim(w))
    ensures w < |s.workers| == |Perform(max, s, Claim(w)).workers|
    ensures Perform(max, s, Claim(w)).workers[w].Holds(id) ==> id !in s.keys && id in Perform(max, s, Claim(w)).keys
  {
  }

  lemma StopsHolding(max: nat, s: Sys, e: Event, id: string)
    requires Enabled(max, s, e) && !e.Publish? && !e.Duplicate? && e.w < |s.workers| && s.workers[e.w].Holds(id)
    ensures |Perform(max, s, e).workers| == |s.workers|
    ensures !Perform(max, s, e).workers[e.w].Holds(id) <==> e.Finish? || e.Release? || e.Crash?
  {
  }

  /** How a worker comes to hold a key, and to hold it no longer. */
  lemma HolderFrame(max: nat, s: Sys, e: Event, v: nat, id: string)
    requires Enabled(max, s, e) && v < |s.workers|
    ensures |Perform(max, s, e).workers| == |s.workers|
    ensures Perform(max, s, e).workers[v].Holds(id) && !s.workers[v].Holds(id) ==>
              e == Claim(v) && id !in s.keys && id in Perform(max, s, e).keys
    ensures s.workers[v].Holds(id) ==>
              (!Perform(max, s, e).workers[v].Holds(id) <==> e == Finish(v) || e == Release(v) || e == Crash(v))
  {
    hide Perform, Enabled;
    WorkerFrame(max, s, e, v);
    if !e.Publish? && !e.Duplicate? && e.w == v {
      if e.Claim? {
        ClaimTakes(max, s, v, id);
      } else {
        StartsHolding(max, s, e, id);
      }
      if s.workers[v].Holds(id) {
        StopsHolding(max, s, e, id);
      }
    }
  }

  lemma KeyFrame(max: nat, s: Sys, e: Event, id: string)
    requires Enabled(max, s, e)
    ensures id in s.keys && id !in Perform(max, s, e).keys ==> e.Release? && s.workers[e.w].Holds(id)
    ensures id !in s.keys && id in Perform(max, s, e).keys ==> e.Claim? && Perform(max, s, e).workers[e.w].Holds(id)
    ensures e.Release? && s.workers[e.w].Holds(id) ==> id !in Perform(max, s, e).keys
  {
  }

  lemma CompletedFrame(max: nat, s: Sys, e: Event, id: string)
    requires Enabled(max, s, e)
    ensures Perform(max, s, e).completed[id]
            == s.completed[id] + if e.Finish? && s.workers[e.w].Holds(id) then 1 else 0
  {
  }

  lemma EventWorker(max: nat, s: Sys, e: Event)
    requires Enabled(max, s, e)
    ensures e.Release? || e.Finish? || e.Claim? ==> e.w < |s.workers|
  {
  }

  // ---- mutual exclusion, under duplicates and crashes ----

  ghost predicate Exclusive(s: Sys, id: string) {
    && (forall v, w | 0 <= v < |s.workers| && 0 <= w < |s.workers| ::
          s.workers[v].Holds(id) && s.workers[w].Holds(id) ==> v == w)
    && (forall w :: 0 <= w < |s.workers| && s.workers[w].Holds(id) ==> id in s.keys && s.completed[id] == 0)
    && s.completed[id] <= 1
    && (s.completed[id] == 1 ==> id in s.keys)
  }

  lemma ExclusiveStep(max: nat, s: Sys, e: Event, id: string)
    requires Enabled(max, s, e) && Exclusive(s, id)
    ensures Exclusive(Perform(max, s, e), id)
  {
    hide Perform, Enabled;
    var t := Perform(max, s, e);
    SameWorkers(max, s, e);
    EventWorker(max, s, e);
    KeyFrame(max, s, e, id);
    CompletedFrame(max, s, e, id);
    forall v | 0 <= v < |s.workers|
      ensures t.workers[v].Holds(id) && !s.workers[v].Holds(id) ==> e == Claim(v) && id !in s.keys && id in t.keys
      ensures s.workers[v].Holds(id) ==>
                (!t.workers[v].Holds(id) <==> e == Finish(v) || e == Release(v) || e == Crash(v))
    {
      HolderFrame(max, s, e, v, id);
    }
  }

  /** At most one worker executes an id at a time, at most one execution of it ever completes. */
  lemma {:induction false} MutualExclusion(max: nat, n: nat, ss: seq<Sys>, es: seq<Event>, k: nat, id: string)
    requires IsRun(max, n, ss, es) && k <= |es|
    ensures Exclusive(ss[k], id)
  {
    hide Perform, Enabled, Exclusive;
    if k == 0 {
      FreshIsExclusive(n, id);
    } else {
      MutualExclusion(max, n, ss, es, k - 1, id);
      ExclusiveStep(max, ss[k - 1], es[k - 1], id);
    }
  }

  lemma FreshIsExclusive(n: nat, id: string)
    ensures Exclusive(Fresh(n), id)
  {
  }

  /** The key is deleted only by the worker that holds it. */
  lemma OnlyTheHolderReleases(max: nat, s: Sys, e: Event, id: string)
    requires Enabled(max, s, e) && id in s.keys && id !in Perform(max, s, e).keys
    ensures e.Release? && s.workers[e.w].Holds(id)
  {
  }

  // ---- what is lost, and when ----

  ghost predicate Held(s: Sys, id: string) {
    exists w :: 0 <= w < |s.workers| && s.workers[w].Holds(id)
  }

  /** The key is taken, nobody holds it and nothing was completed: its holder died. */
  ghost predicate Orphaned(s: Sys, id: string) {
    id in s.keys && !Held(s, id) && s.completed[id] == 0
  }

  ghost predicate Queued(s: Sys, id: string) {
    exists m :: m in s.queue && m.Command? && m.env.id == id
  }

  ghost predicate InFlight(s: Sys, id: string) {
    exists w :: 0 <= w < |s.workers| && s.workers[w].Carries(id)
  }

  ghost predicate Dead(s: Sys, id: string) {
    exists m :: m in s.deadLetters && m.Command? && m.env.id == id
  }

  ghost predicate Accounted(s: Sys, id: string) {
    s.completed[id] > 0 || Dead(s, id) || Queued(s, id) || InFlight(s, id) || Orphaned(s, id)
  }

  lemma AccountedStep(max: nat, s: Sys, e: Event, id: string)
    requires Enabled(max, s, e) && Exclusive(s, id) && id in s.published && Accounted(s, id)
    ensures Accounted(Perform(max, s, e), id)
  {
    hide Perform, Enabled, Exclusive;
    if s.completed[id] > 0 {
      CompletedFrame(max, s, e, id);
    } else if Dead(s, id) {
      DeadStays(max, s, e, id);
    } else if InFlight(s, id) {
      var w :| 0 <= w < |s.workers| && s.workers[w].Carries(id);
      CarrierStep(max, s, e, id, w);
    } else if Queued(s, id) {
      QueuedStep(max, s, e, id);
    } else {
      OrphanStays(max, s, e, id);
    }
  }

  lemma DeadStays(max: nat, s: Sys, e: Event, id: string)
    requires Enabled(max, s, e) && Dead(s, id)
    ensures Dead(Perform(max, s, e), id)
  {
    var m :| m in s.deadLetters && m.Command? && m.env.id == id;
    assert m in Perform(max, s, e).deadLetters;
  }

  lemma QueuedStep(max: nat, s: Sys, e: Event, id: string)
    requires Enabled(max, s, e) && Queued(s, id)
    ensures Queued(Perform(max, s, e), id) || InFlight(Perform(max, s, e), id)
  {
    var t := Perform(max, s, e);
    var m :| m in s.queue && m.Command? && m.env.id == id;
    if e.Deliver? && e.m == m {
      assert t.workers[e.w].Carries(id);
    } else {
      assert m in t.queue;
    }
  }

  /** What one event can make of a worker that carries an attempt. */
  lemma CarrierStep(max: nat, s: Sys, e: Event, id: string, w: nat)
    requires Enabled(max, s, e) && Exclusive(s, id) && w < |s.workers| && s.workers[w].Carries(id)
    requires s.completed[id] == 0
    ensures Accounted(Perform(max, s, e), id)
  {
    hide Exclusive;
    if e.Publish? || e.Duplicate? || e.w != w {
      hide Perform, Enabled;
      WorkerFrame(max, s, e, w);
    } else {
      match e
      case Claim(_) => CarrierClaims(max, s, id, w);
      case Finish(_) => CarrierFinishes(max, s, id, w);
      case Raise(_) => assert Perform(max, s, e).workers[w].Carries(id);
      case Release(_) => assert Perform(max, s, e).workers[w].Carries(id);
      case DeadLetter(_) => CarrierGivesUp(max, s, id, w);
      case Republish(_) => CarrierRepublishes(max, s, id, w);
      case Crash(_) => CarrierDies(max, s, id, w);
    }
  }

  lemma CarrierClaims(max: nat, s: Sys, id: string, w: nat)
    requires Enabled(max, s, Claim(w)) && s.workers[w].Carries(id) && s.completed[id] == 0
    ensures Accounted(Perform(max, s, Claim(w)), id)
  {
    var t := Perform(max, s, Claim(w));
    if Held(s, id) {
      var v :| 0 <= v < |s.workers| && s.workers[v].Holds(id);
      WorkerFrame(max, s, Claim(w), v);
      assert t.workers[v].Carries(id);
    } else if id in s.keys {
      assert Orphaned(s, id);
      OrphanStays(max, s, Claim(w), id);
    } else {
      assert t.workers[w].Carries(id);
    }
  }

  lemma CarrierFinishes(max: nat, s: Sys, id: string, w: nat)
    requires Enabled(max, s, Finish(w)) && s.workers[w].Carries(id)
    ensures Accounted(Perform(max, s, Finish(w)), id)
  {
    CompletedFrame(max, s, Finish(w), id);
  }

  lemma CarrierGivesUp(max: nat, s: Sys, id: string, w: nat)
    requires Enabled(max, s, DeadLetter(w)) && s.workers[w].Carries(id)
    ensures Dead(Perform(max, s, DeadLetter(w)), id)
  {
    assert Command(s.workers[w].env) in Perform(max, s, DeadLetter(w)).deadLetters;
  }

  lemma CarrierRepublishes(max: nat, s: Sys, id: string, w: nat)
    requires Enabled(max, s, Republish(w)) && s.workers[w].Carries(id)
    ensures Queued(Perform(max, s, Republish(w)), id)
  {
    var env := s.workers[w].env;
    assert Command(env.(attempt := env.attempt + 1)) in Perform(max, s, Republish(w)).queue;
  }

  lemma CarrierDies(max: nat, s: Sys, id: string, w: nat)
    requires Enabled(max, s, Crash(w)) && s.workers[w].Carries(id)
    ensures Queued(Perform(max, s, Crash(w)), id)
  {
    assert s.workers[w].Unacked() in Perform(max, s, Crash(w)).queue;
  }

  /** An orphan stays one whatever happens: nobody can claim it, so it never completes. */
  lemma OrphanStays(max: nat, s: Sys, e: Event, id: string)
    requires Enabled(max, s, e) && Orphaned(s, id)
    ensures Orphaned(Perform(max, s, e), id)
  {
    hide Perform, Enabled;
    var t := Perform(max, s, e);
    SameWorkers(max, s, e);
    EventWorker(max, s, e);
    KeyFrame(max, s, e, id);
    CompletedFrame(max, s, e, id);
    forall v | 0 <= v < |t.workers| ensures !t.workers[v].Holds(id) {
      assert !s.workers[v].Holds(id);
      HolderFrame(max, s, e, v, id);
    }
  }

  /** The death of its holder orphans an id ... */
  lemma CrashOrphans(max: nat, s: Sys, w: nat, id: string)
    requires Enabled(max, s, Crash(w)) && Exclusive(s, id) && s.workers[w].Holds(id)
    ensures Orphaned(Perform(max, s, Crash(w)), id)
  {
    var t := Perform(max, s, Crash(w));
    assert forall v :: 0 <= v < |t.workers| && v != w ==> t.workers[v] == s.workers[v];
  }

  /** ... and nothing else does. */
  lemma OnlyCrashOrphans(max: nat, s: Sys, e: Event, id: string)
    requires Enabled(max, s, e) && !Orphaned(s, id) && Orphaned(Perform(max, s, e), id)
    ensures e.Crash? && e.w < |s.workers| && s.workers[e.w].Holds(id)
  {
    hide Perform, Enabled;
    var t := Perform(max, s, e);
    KeyFrame(max, s, e, id);
    CompletedFrame(max, s, e, id);
    SameWorkers(max, s, e);
    EventWorker(max, s, e);
    assert Held(s, id);
    var v :| 0 <= v < |s.workers| && s.workers[v].Holds(id);
    HolderFrame(max, s, e, v, id);
  }

  // ---- whole runs ----

  ghost predicate HolderDied(ss: seq<Sys>, es: seq<Event>, k: nat, id: string)
    requires k <= |es| <= |ss|
  {
    exists i | 0 <= i < k && es[i].Crash? ::
      es[i].w < |ss[i].workers| && ss[i].workers[es[i].w].Holds(id)
  }

  lemma {:induction false} OrphanedIffHolderDied(max: nat, n: nat, ss: seq<Sys>, es: seq<Event>, k: nat, id: string)
    requires IsRun(max, n, ss, es) && k <= |es|
    ensures Orphaned(ss[k], id) <==> HolderDied(ss, es, k, id)
  {
    hide Perform, Enabled, Exclusive, Orphaned;
    if k == 0 {
      FreshIsNotOrphaned(n, id);
    } else {
      OrphanedIffHolderDied(max, n, ss, es, k - 1, id);
      MutualExclusion(max, n, ss, es, k - 1, id);
      var s, e := ss[k - 1], es[k - 1];
      if Orphaned(s, id) {
        OrphanStays(max, s, e, id);
      } else if e.Crash? && e.w < |s.workers| && s.workers[e.w].Holds(id) {
        CrashOrphans(max, s, e.w, id);
      } else if Orphaned(ss[k], id) {
        OnlyCrashOrphans(max, s, e, id);
      }
    }
  }

  lemma FreshIsNotOrphaned(n: nat, id: string)
    ensures !Orphaned(Fresh(n), id)
  {
  }

  lemma {:induction false} PublishedIsAccounted(max: nat, n: nat, ss: seq<Sys>, es: seq<Event>, k: nat, id: string)
    requires IsRun(max, n, ss, es) && k <= |es| && id in ss[k].published
    ensures Accounted(ss[k], id)
  {
    hide Perform, Enabled, Exclusive, Accounted;
    if k > 0 {
      var s, e := ss[k - 1], es[k - 1];
      if id in s.published {
        PublishedIsAccounted(max, n, ss, es, k - 1, id);
        MutualExclusion(max, n, ss, es, k - 1, id);
        AccountedStep(max, s, e, id);
      } else {
        JustPublished(max, s, e, id);
      }
    }
  }

  lemma JustPublished(max: nat, s: Sys, e: Event, id: string)
    requires Enabled(max, s, e) && id !in s.published && id in Perform(max, s, e).published
    ensures Accounted(Perform(max, s, e), id)
  {
    assert Command(e.env) in Perform(max, s, e).queue;
  }

  /**
   No message is lost while no worker dies holding its key: until it is completed or dead-lettered, a copy
   is queued or in flight. If a holder does die, the message is lost: it is not completed, now or ever.
   */
  lemma NothingIsLost(max: nat, n: nat, ss: seq<Sys>, es: seq<Event>, k: nat, id: string)
    requires IsRun(max, n, ss, es) && k <= |es| && id in ss[k].published
    ensures !HolderDied(ss, es, k, id) ==>
              ss[k].completed[id] == 1 || Dead(ss[k], id) || Queued(ss[k], id) || InFlight(ss[k], id)
    ensures HolderDied(ss, es, k, id) ==> ss[k].completed[id] == 0
  {
    PublishedIsAccounted(max, n, ss, es, k, id);
    OrphanedIffHolderDied(max, n, ss, es, k, id);
    MutualExclusion(max, n, ss, es, k, id);
  }

  /** The worker delivers the message and claims its key. */
  lemma DeliveredAndClaimed(max: nat, s: Sys, env: Envelope)
    requires s.queue == multiset{Command(env)} && s.workers == [Idle]
    ensures var m := Command(env);
            && Enabled(max, s, Deliver(0, m))
            && var t := Perform(max, s, Deliver(0, m));
               && t == s.(queue := multiset{}, workers := [Received(m)])
               && Enabled(max, t, Claim(0))
               && Perform(max, t, Claim(0)) ==
                  if env.id in s.keys then t.(workers := [Skipping(env)])
                  else t.(keys := s.keys + {env.id}, workers := [Executing(env)],
                          started := s.started + multiset{env.id})
  {
  }

  lemma DiesHolding(max: nat, s: Sys, env: Envelope)
    requires s.queue == multiset{} && s.workers == [Executing(env)]
    ensures Enabled(max, s, Crash(0))
    ensures Perform(max, s, Crash(0)) == s.(queue := multiset{Command(env)}, workers := [Idle])
  {
  }

  lemma SkipsAndAcknowledges(max: nat, s: Sys, env: Envelope)
    requires s.workers == [Skipping(env)]
    ensures Enabled(max, s, Acknowledge(0)) && Perform(max, s, Acknowledge(0)) == s.(workers := [Idle])
  {
  }

  /** That happens: the worker that holds the key dies, and its message, delivered again, passes for a duplicate. */
  lemma DeathLosesTheMessage(max: nat, env: Envelope) returns (ss: seq<Sys>, es: seq<Event>)
    requires env.attempt == 1
    ensures IsRun(max, 1, ss, es) && Crash(0) in es
    ensures var s := ss[|es|];
            && env.id in s.published && s.completed[env.id] == 0
            && s.queue == multiset{} && s.deadLetters == multiset{} && s.workers == [Idle]
  {
    hide Perform, Enabled;
    var m := Command(env);
    var s0 := Fresh(1);
    PublishedAlone(max, env);
    var s1 := Perform(max, s0, Publish(env));
    DeliveredAndClaimed(max, s1, env);
    var s2 := Perform(max, s1, Deliver(0, m));
    var s3 := Perform(max, s2, Claim(0));
    DiesHolding(max, s3, env);
    var s4 := Perform(max, s3, Crash(0));
    DeliveredAndClaimed(max, s4, env);
    var s5 := Perform(max, s4, Deliver(0, m));
    var s6 := Perform(max, s5, Claim(0));
    SkipsAndAcknowledges(max, s6, env);
    es := [Publish(env), Deliver(0, m), Claim(0), Crash(0), Deliver(0, m), Claim(0), Acknowledge(0)];
    ss := [s0, s1, s2, s3, s4, s5, s6, Perform(max, s6, Acknowledge(0))];
  }

  lemma PublishedAlone(max: nat, env: Envelope)
    requires env.attempt == 1
    ensures Enabled(max, Fresh(1), Publish(env))
    ensures var s := Perform(max, Fresh(1), Publish(env));
            && s.queue == multiset{Command(env)} && s.workers == [Idle] && s.keys == {} && s.published == {env.id}
            && s.deadLetters == multiset{} && s.completed == multiset{}
  {
    assert Fresh(1).workers == [Idle];
  }

  // ---- undisturbed runs: no duplicate, no crash ----

  /** Where the one live copy of a message is. */
  datatype Place = Unsent | InQueue(env: Envelope) | AtWorker(w: nat, env: Envelope) | Done | InDeadLetters

  /** Executions granted to a message: at least the one that precedes the first test of the attempt number. */
  function Attempts(max: nat): nat {
    if max == 0 then 1 else max
  }

  /** No copy is queued but the one at this place, ... */
  ghost predicate OnlyQueued(s: Sys, id: string, p: Place) {
    forall m :: m in s.queue && m.Command? && m.env.id == id ==> p == InQueue(m.env)
  }

  /** ... none is carried by a worker, or was taken for a duplicate, ... */
  ghost predicate OnlyCarried(s: Sys, id: string, p: Place) {
    forall w :: 0 <= w < |s.workers| ==>
                  && !(s.workers[w].Skipping? && s.workers[w].env.id == id)
                  && (s.workers[w].Carries(id) ==> p.AtWorker? && p.w == w)
  }

  /** ... and none is a dead letter. */
  ghost predicate OnlyDead(s: Sys, id: string, p: Place) {
    forall m :: m in s.deadLetters && m.Command? && m.env.id == id ==> p == InDeadLetters
  }

  /** The key and the counts are what a copy at this place makes them. */
  ghost predicate Tally(max: nat, s: Sys, id: string, p: Place) {
    && s.completed[id] == (if p == Done then 1 else 0)
    && (id in s.published <==> p != Unsent)
    && s.failed[id] <= s.started[id] <= Attempts(max)
    && match p
       case Unsent => s.failed[id] == s.started[id] == 0 && id !in s.keys
       case InQueue(env) =>
         && env.id == id && s.queue[Command(env)] == 1 && id !in s.keys
         && s.failed[id] == s.started[id] == env.attempt - 1 && env.attempt <= Attempts(max)
       case AtWorker(w, env) =>
         && env.id == id && w < |s.workers| && s.workers[w].Carries(id) && 1 <= env.attempt <= Attempts(max)
         && s.workers[w].Unacked() == Command(env)
         && (id in s.keys <==> s.workers[w].Holds(id))
         && s.started[id] == env.attempt - (if s.workers[w].Received? then 1 else 0)
         && s.failed[id] == env.attempt - (if s.workers[w].Received? || s.workers[w].Executing? then 1 else 0)
       case Done => s.failed[id] + 1 == s.started[id] && id in s.keys
       case InDeadLetters => s.failed[id] == s.started[id] == Attempts(max) && Dead(s, id)
  }

  /** The system, as far as this id is concerned, is what a single copy at this place makes it. */
  ghost predicate Is(max: nat, s: Sys, id: string, p: Place) {
    OnlyQueued(s, id, p) && OnlyCarried(s, id, p) && OnlyDead(s, id, p) && Tally(max, s, id, p)
  }

  predicate Undisturbed(e: Event) {
    !e.Duplicate? && !e.Crash?
  }

  /** The event acts on this id's live copy. */
  predicate Concerns(s: Sys, e: Event, id: string) {
    match e
    case Publish(env) => env.id == id
    case Deliver(_, m) => m.Command? && m.env.id == id
    case Duplicate(_) => false
    case _ => e.w < |s.workers| && s.workers[e.w].Carries(id)
  }

  /** Such an event moves the copy along its one path, or advances its worker; any other leaves it where it is. */
  function Moved(max: nat, s: Sys, e: Event, id: string, p: Place): Place
    requires Enabled(max, s, e)
  {
    if !Concerns(s, e, id) then p
    else
      match e
      case Publish(env) => InQueue(env)
      case Deliver(w, m) => AtWorker(w, m.env)
      case Finish(_) => Done
      case DeadLetter(_) => InDeadLetters
      case Republish(w) => InQueue(s.workers[w].env.(attempt := s.workers[w].env.attempt + 1))
      case _ => p
  }

  /** Effects left before the message is settled, if all further attempts fail. */
  function Remaining(max: nat, s: Sys, p: Place): int {
    match p
    case Unsent => 5 * Attempts(max) + 1
    case InQueue(env) => 5 * (Attempts(max) + 1 - env.attempt)
    case AtWorker(w, env) =>
      5 * (Attempts(max) + 1 - env.attempt)
      - if w >= |s.workers| || s.workers[w].Received? then 1
        else if s.workers[w].Executing? then 2
        else if s.workers[w].Failing? then 3
        else 4
    case Done => 0
    case InDeadLetters => 0
  }

  /** An event that acts on the copy finds it at this place. */
  predicate Finds(s: Sys, e: Event, id: string, p: Place) {
    match e
    case Publish(_) => p == Unsent
    case Deliver(_, m) => m.Command? && p == InQueue(m.env)
    case Duplicate(_) => false
    case _ => p.AtWorker? && p.w == e.w && (e.Claim? ==> id !in s.keys)
  }

  lemma ConcernedFinds(max: nat, s: Sys, e: Event, id: string, p: Place)
    requires Enabled(max, s, e) && Is(max, s, id, p) && Concerns(s, e, id)
    ensures Finds(s, e, id, p)
  {
  }

  /** The copy enters the queue, or leaves it for a worker. */
  lemma TallyQueued(max: nat, s: Sys, e: Event, id: string, p: Place)
    requires Enabled(max, s, e) && Tally(max, s, id, p) && OnlyQueued(s, id, p)
    requires Concerns(s, e, id) && Finds(s, e, id, p) && (e.Publish? || e.Deliver? || e.Republish?)
    ensures Tally(max, Perform(max, s, e), id, Moved(max, s, e, id, p))
    ensures 0 <= Remaining(max, Perform(max, s, e), Moved(max, s, e, id, p)) < Remaining(max, s, p)
  {
  }

  /** The worker that carries the copy executes it, or fails. */
  lemma TallyCarried(max: nat, s: Sys, e: Event, id: string, p: Place)
    requires Enabled(max, s, e) && Tally(max, s, id, p)
    requires Concerns(s, e, id) && Finds(s, e, id, p) && (e.Claim? || e.Raise? || e.Release?)
    ensures Tally(max, Perform(max, s, e), id, Moved(max, s, e, id, p))
    ensures 0 <= Remaining(max, Perform(max, s, e), Moved(max, s, e, id, p)) < Remaining(max, s, p)
  {
  }

  /** The copy is settled. */
  lemma TallySettled(max: nat, s: Sys, e: Event, id: string, p: Place)
    requires Enabled(max, s, e) && Tally(max, s, id, p)
    requires Concerns(s, e, id) && Finds(s, e, id, p) && (e.Finish? || e.DeadLetter?)
    ensures Tally(max, Perform(max, s, e), id, Moved(max, s, e, id, p))
    ensures 0 <= Remaining(max, Perform(max, s, e), Moved(max, s, e, id, p)) < Remaining(max, s, p)
  {
    if e.DeadLetter? {
      assert Command(s.workers[e.w].env) in Perform(max, s, e).deadLetters;
    }
  }

  /** No other event acts on a live copy. */
  lemma ConcernedKinds(max: nat, s: Sys, e: Event, id: string)
    requires Enabled(max, s, e) && Undisturbed(e) && Concerns(s, e, id)
    ensures !e.RejectMalformed? && !e.Acknowledge?
  {
  }

  lemma ExecutionsFrame(max: nat, s: Sys, e: Event, id: string)
    requires Enabled(max, s, e) && Undisturbed(e) && !Concerns(s, e, id)
    ensures Perform(max, s, e).started[id] == s.started[id] && Perform(max, s, e).failed[id] == s.failed[id]
  {
  }

  lemma PublishedFrame(max: nat, s: Sys, e: Event, id: string)
    requires Enabled(max, s, e) && !(e.Publish? && e.env.id == id)
    ensures id in Perform(max, s, e).published <==> id in s.published
  {
  }

  /** A worker that holds a key carries a copy. */
  lemma HoldersCarry(max: nat, s: Sys, e: Event, id: string)
    requires Enabled(max, s, e) && (e.Finish? || e.Release?) && !Concerns(s, e, id)
    ensures !s.workers[e.w].Holds(id)
  {
  }

  lemma ClaimFrame(max: nat, s: Sys, e: Event, id: string)
    requires Enabled(max, s, e) && e.Claim? && !Concerns(s, e, id)
    ensures !Perform(max, s, e).workers[e.w].Holds(id)
  {
  }

  lemma CountFrame(max: nat, s: Sys, e: Event, id: string)
    requires Enabled(max, s, e) && Undisturbed(e) && !Concerns(s, e, id)
    ensures var t := Perform(max, s, e);
            && t.started[id] == s.started[id] && t.failed[id] == s.failed[id] && t.completed[id] == s.completed[id]
            && (id in t.published <==> id in s.published) && (id in t.keys <==> id in s.keys)
  {
    hide Perform, Enabled;
    ExecutionsFrame(max, s, e, id);
    PublishedFrame(max, s, e, id);
    CompletedFrame(max, s, e, id);
    KeyFrame(max, s, e, id);
    EventWorker(max, s, e);
    if e.Finish? || e.Release? {
      HoldersCarry(max, s, e, id);
    } else if e.Claim? {
      ClaimFrame(max, s, e, id);
    }
  }

  lemma QueueFrame(max: nat, s: Sys, e: Event, env: Envelope)
    requires Enabled(max, s, e) && Undisturbed(e) && !Concerns(s, e, env.id)
    ensures Perform(max, s, e).queue[Command(env)] == s.queue[Command(env)]
  {
  }

  lemma TallyFrame(max: nat, s: Sys, e: Event, id: string, p: Place)
    requires Enabled(max, s, e) && Undisturbed(e) && Tally(max, s, id, p) && !Concerns(s, e, id)
    ensures Tally(max, Perform(max, s, e), id, p)
    ensures Remaining(max, Perform(max, s, e), p) == Remaining(max, s, p)
  {
    hide Perform;
    CountFrame(max, s, e, id);
    match p
    case InQueue(env) => QueueFrame(max, s, e, env);
    case AtWorker(w, _) => WorkerFrame(max, s, e, w);
    case InDeadLetters => DeadStays(max, s, e, id);
    case _ =>
  }

  lemma OnlyQueuedStep(max: nat, s: Sys, e: Event, id: string, p: Place)
    requires Enabled(max, s, e) && Undisturbed(e) && OnlyQueued(s, id, p)
    requires p.InQueue? ==> s.queue[Command(p.env)] == 1
    requires Concerns(s, e, id) ==> Finds(s, e, id, p)
    ensures OnlyQueued(Perform(max, s, e), id, Moved(max, s, e, id, p))
  {
  }

  /** How a worker comes to carry a copy or to skip one, and to carry it no longer. */
  lemma CarriedFrame(max: nat, s: Sys, e: Event, v: nat, id: string)
    requires Enabled(max, s, e) && Undisturbed(e) && v < |s.workers|
    ensures |Perform(max, s, e).workers| == |s.workers|
    ensures var after := Perform(max, s, e).workers[v];
            && (after.Carries(id) ==> if e.Deliver? && e.w == v then Concerns(s, e, id) else s.workers[v].Carries(id))
            && (after.Carries(id) ==> e != Finish(v) && e != DeadLetter(v) && e != Republish(v))
            && (after.Skipping? && after.env.id == id ==>
                  s.workers[v] == after || (e == Claim(v) && Concerns(s, e, id) && id in s.keys))
  {
    if e.Publish? || e.Duplicate? || e.w != v {
      WorkerFrame(max, s, e, v);
    }
  }

  lemma OnlyCarriedStep(max: nat, s: Sys, e: Event, id: string, p: Place)
    requires Enabled(max, s, e) && Undisturbed(e) && OnlyCarried(s, id, p)
    requires Concerns(s, e, id) ==> Finds(s, e, id, p)
    ensures OnlyCarried(Perform(max, s, e), id, Moved(max, s, e, id, p))
  {
    hide Perform, Enabled, Concerns;
    SameWorkers(max, s, e);
    var t, q := Perform(max, s, e), Moved(max, s, e, id, p);
    forall v | 0 <= v < |t.workers|
      ensures !(t.workers[v].Skipping? && t.workers[v].env.id == id)
      ensures t.workers[v].Carries(id) ==> q.AtWorker? && q.w == v
    {
      CarriedFrame(max, s, e, v, id);
    }
  }

  lemma OnlyDeadStep(max: nat, s: Sys, e: Event, id: string, p: Place)
    requires Enabled(max, s, e) && Undisturbed(e) && OnlyDead(s, id, p)
    requires Concerns(s, e, id) ==> Finds(s, e, id, p)
    requires p == InDeadLetters ==> !Concerns(s, e, id)
    ensures OnlyDead(Perform(max, s, e), id, Moved(max, s, e, id, p))
  {
  }

  /** Every effect on the live copy moves it on and brings it nearer to being settled; other effects leave it alone. */
  lemma MoveStep(max: nat, s: Sys, e: Event, id: string, p: Place)
    requires Enabled(max, s, e) && Undisturbed(e) && Is(max, s, id, p)
    ensures Is(max, Perform(max, s, e), id, Moved(max, s, e, id, p))
    ensures var left := Remaining(max, Perform(max, s, e), Moved(max, s, e, id, p));
            if Concerns(s, e, id) then 0 <= left < Remaining(max, s, p) else left == Remaining(max, s, p)
  {
    hide Enabled, Perform, OnlyQueued, OnlyCarried, OnlyDead, Remaining, Concerns, Moved;
    if Concerns(s, e, id) {
      ConcernedFinds(max, s, e, id, p);
      ConcernedKinds(max, s, e, id);
      if e.Publish? || e.Deliver? || e.Republish? {
        TallyQueued(max, s, e, id, p);
      } else if e.Finish? || e.DeadLetter? {
        TallySettled(max, s, e, id, p);
      } else {
        TallyCarried(max, s, e, id, p);
      }
    } else {
      TallyFrame(max, s, e, id, p);
      NotMoved(max, s, e, id, p);
    }
    OnlyQueuedStep(max, s, e, id, p);
    OnlyCarriedStep(max, s, e, id, p);
    OnlyDeadStep(max, s, e, id, p);
  }

  lemma NotMoved(max: nat, s: Sys, e: Event, id: string, p: Place)
    requires Enabled(max, s, e) && !Concerns(s, e, id)
    ensures Moved(max, s, e, id, p) == p
  {
  }

  lemma {:induction false} OneCopy(max: nat, n: nat, ss: seq<Sys>, es: seq<Event>, k: nat, id: string)
    returns (p: Place)
    requires IsRun(max, n, ss, es) && k <= |es| && forall i :: 0 <= i < |es| ==> Undisturbed(es[i])
    ensures Is(max, ss[k], id, p)
  {
    hide Perform, Enabled, Is, Moved;
    if k == 0 {
      p := Unsent;
      FreshIsUnsent(max, n, id);
    } else {
      p := OneCopy(max, n, ss, es, k - 1, id);
      MoveStep(max, ss[k - 1], es[k - 1], id, p);
      p := Moved(max, ss[k - 1], es[k - 1], id, p);
    }
  }

  lemma FreshIsUnsent(max: nat, n: nat, id: string)
    ensures Is(max, Fresh(n), id, Unsent)
  {
  }

  /**
   Without duplicates and crashes a message is executed at most `Attempts(max)` times, is dead-lettered exactly
   when that many executions have failed (once the last one let go of it), and is never both completed and dead.
   */
  lemma UndisturbedOutcome(max: nat, n: nat, ss: seq<Sys>, es: seq<Event>, k: nat, id: string)
    requires IsRun(max, n, ss, es) && k <= |es| && forall i :: 0 <= i < |es| ==> Undisturbed(es[i])
    ensures ss[k].started[id] <= Attempts(max)
    ensures Dead(ss[k], id) <==> ss[k].failed[id] == Attempts(max) && !InFlight(ss[k], id)
    ensures ss[k].completed[id] == 1 ==> ss[k].failed[id] < Attempts(max) && !Dead(ss[k], id)
    ensures Queued(ss[k], id) ==> !InFlight(ss[k], id)
  {
    var p := OneCopy(max, n, ss, es, k, id);
    match p
    case AtWorker(w, env) => assert ss[k].workers[w].Carries(id);
    case InQueue(env) => assert Command(env) in ss[k].queue;
    case _ =>
  }
}
