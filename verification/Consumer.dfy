/** `DomainWorker._handle`: the order of its effects, as steps of the delivery protocol. */
module Consumer {
  import opened Wrappers
  import opened WorkerProtocol

  /** The system after a sequence of events from a fresh one, if each was enabled in its turn. */
  function After(max: nat, n: nat, es: seq<Event>): Option<Sys> {
    if es == [] then Some(Fresh(n))
    else
      match After(max, n, es[..|es| - 1])
      case None => None
      case Some(s) => if Enabled(max, s, es[|es| - 1]) then Some(Perform(max, s, es[|es| - 1])) else None
  }

  lemma AfterSnoc(max: nat, n: nat, es: seq<Event>, s: Sys, e: Event)
    requires After(max, n, es) == Some(s) && Enabled(max, s, e)
    ensures After(max, n, es + [e]) == Some(Perform(max, s, e))
  {
    hide Perform, Enabled;
    assert (es + [e])[..|es|] == es;
  }

  /** Such a sequence is a run of the protocol, so what holds of every run holds of it. */
  lemma {:induction false} AfterIsARun(max: nat, n: nat, es: seq<Event>) returns (ss: seq<Sys>)
    requires After(max, n, es).Some?
    ensures IsRun(max, n, ss, es) && ss[|es|] == After(max, n, es).value
  {
    hide Perform, Enabled;
    if es == [] {
      ss := [Fresh(n)];
    } else {
      var init := AfterIsARun(max, n, es[..|es| - 1]);
      ss := init + [After(max, n, es).value];
    }
  }

  /** The `except` branch of worker w. */
  function FailEvents(max: nat, w: nat, env: Envelope): seq<Event> {
    [Release(w)] + if env.attempt >= max then [DeadLetter(w)] else [Republish(w), Acknowledge(w)]
  }

  /** The execution and what follows it. */
  function AttemptEvents(max: nat, w: nat, env: Envelope, raises: bool): seq<Event> {
    if raises then [Raise(w)] + FailEvents(max, w, env) else [Finish(w), Acknowledge(w)]
  }

  /** What `_handle` does with a message, given whether its key is taken and whether the execution raises. */
  function HandleEvents(max: nat, w: nat, m: Message, taken: bool, raises: bool): seq<Event> {
    if m.Malformed? then [Deliver(w, m), RejectMalformed(w)]
    else [Deliver(w, m), Claim(w)] + if taken then [Acknowledge(w)] else AttemptEvents(max, w, m.env, raises)
  }

  lemma TwoParts(before: seq<Event>, first: seq<Event>, second: seq<Event>)
    ensures before + first + second == before + (first + second)
  {
  }

  /** An event that is not an effect of worker w. */
  predicate IsForeign(e: Event, w: nat) {
    e.Publish? || e.Duplicate? || e.w != w
  }

  /** One of n workers, with the queue and the keys that they share. */
  class DomainWorker {
    const maxAttempts: nat
    const n: nat
    const w: nat
    var queue: multiset<Message>
    var deadLetters: multiset<Message>
    var keys: set<string>
    /** The effects performed so far by all, and the protocol state they lead to. */
    ghost var trace: seq<Event>
    ghost var view: Sys

    ghost predicate Valid()
      reads this
    {
      && After(maxAttempts, n, trace) == Some(view)
      && view.queue == queue && view.deadLetters == deadLetters && view.keys == keys && |view.workers| == n && w < n
    }

    ghost function Phase(): WorkerProtocol.Phase
      requires Valid()
      reads this
    {
      view.workers[w]
    }

    constructor (maxAttempts: nat, n: nat, w: nat)
      requires w < n
      ensures Valid() && this.maxAttempts == maxAttempts && this.n == n && this.w == w
      ensures trace == [] && queue == multiset{} && Phase().Idle?
    {
      this.maxAttempts, this.n, this.w := maxAttempts, n, w;
      queue, deadLetters, keys := multiset{}, multiset{}, {};
      trace, view := [], Fresh(n);
    }

    /** Records one effect. */
    ghost method Note(e: Event)
      requires After(maxAttempts, n, trace) == Some(view) && Enabled(maxAttempts, view, e)
      modifies this`view, this`trace
      ensures After(maxAttempts, n, trace) == Some(view)
      ensures trace == old(trace) + [e] && view == Perform(maxAttempts, old(view), e)
      ensures |view.workers| == |old(view).workers|
    {
      hide After, Perform, Enabled;
      SameWorkers(maxAttempts, view, e);
      AfterSnoc(maxAttempts, n, trace, view, e);
      view := Perform(maxAttempts, view, e);
      trace := trace + [e];
    }

    /** An effect of another worker or of the broker, which leaves the shared state like this. */
    method Interfere(ghost e: Event, queue: multiset<Message>, deadLetters: multiset<Message>, keys: set<string>)
      requires Valid() && IsForeign(e, w) && Enabled(maxAttempts, view, e)
      requires var t := Perform(maxAttempts, view, e); (t.queue, t.deadLetters, t.keys) == (queue, deadLetters, keys)
      modifies this
      ensures Valid() && trace == old(trace) + [e] && view == Perform(maxAttempts, old(view), e)
      ensures Phase() == old(Phase())
    {
      hide After;
      this.queue, this.deadLetters, this.keys := queue, deadLetters, keys;
      WorkerFrame(maxAttempts, view, e, w);
      Note(e);
    }

    /** The dispatcher publishes the first attempt of a new message. */
    method Publish(env: Envelope)
      requires Valid() && env.attempt == 1 && env.id !in view.published
      modifies this
      ensures Valid() && trace == old(trace) + [WorkerProtocol.Publish(env)] && Phase() == old(Phase())
      ensures queue == old(queue) + multiset{Command(env)} && deadLetters == old(deadLetters) && keys == old(keys)
    {
      hide After;
      Interfere(WorkerProtocol.Publish(env), queue + multiset{Command(env)}, deadLetters, keys);
    }

    /** The broker delivers a published message once more, or one that is not an envelope arrives. */
    method Redeliver(m: Message)
      requires Valid() && (m.Malformed? || m.env.id in view.published)
      modifies this
      ensures Valid() && trace == old(trace) + [Duplicate(m)] && Phase() == old(Phase())
      ensures queue == old(queue) + multiset{m} && deadLetters == old(deadLetters) && keys == old(keys)
    {
      hide After;
      Interfere(Duplicate(m), queue + multiset{m}, deadLetters, keys);
    }

    method Handle(m: Message, raises: bool)
      requires Valid() && Phase().Idle? && m in queue
      modifies this
      ensures Valid() && Phase().Idle?
      // the effects, in order, are steps of the protocol
      ensures trace == old(trace) + HandleEvents(maxAttempts, w, m, m.Command? && m.env.id in old(keys), raises)
      // and their net result is:
      ensures m.Malformed? ==>
                queue == old(queue) - multiset{m} && deadLetters == old(deadLetters) + multiset{m} && keys == old(keys)
      ensures m.Command? && m.env.id in old(keys) ==>
                queue == old(queue) - multiset{m} && deadLetters == old(deadLetters) && keys == old(keys)
      ensures m.Command? && m.env.id !in old(keys) && !raises ==>
                queue == old(queue) - multiset{m} && deadLetters == old(deadLetters) && keys == old(keys) + {m.env.id}
      ensures m.Command? && m.env.id !in old(keys) && raises ==>
                && keys == old(keys)
                && (m.env.attempt >= maxAttempts ==>
                      queue == old(queue) - multiset{m} && deadLetters == old(deadLetters) + multiset{m})
                && (m.env.attempt < maxAttempts ==>
                      && queue == old(queue) - multiset{m} + multiset{Command(m.env.(attempt := m.env.attempt + 1))}
                      && deadLetters == old(deadLetters))
    {
      hide After, Perform, Enabled, AttemptEvents;
      if m.Malformed? {
        RejectInvalid(m);
        return;
      }
      var firstTime := Take(m);
      if firstTime {
        Attempt(m.env, raises);
        TwoParts(old(trace), [Deliver(w, m), Claim(w)], AttemptEvents(maxAttempts, w, m.env, raises));
        assert old(keys) + {m.env.id} - {m.env.id} == old(keys);
      }
    }

    /** The broker delivers a message. */
    method Receive(m: Message)
      requires Valid() && Phase().Idle? && m in queue
      modifies this`queue, this`trace, this`view
      ensures Valid() && Phase() == Received(m) && trace == old(trace) + [Deliver(w, m)]
      ensures queue == old(queue) - multiset{m}
    {
      hide After;
      queue := queue - multiset{m};
      Note(Deliver(w, m));
    }

    /** `message.ack()`. */
    ghost method Acknowledge()
      requires Valid() && (Phase().Skipping? || Phase().Finished? || Phase().Republished?)
      modifies this`trace, this`view
      ensures Valid() && Phase().Idle? && trace == old(trace) + [WorkerProtocol.Acknowledge(w)]
    {
      hide After;
      Note(WorkerProtocol.Acknowledge(w));
    }

    /** An envelope that does not parse goes to the dead letters. */
    method RejectInvalid(m: Message)
      requires Valid() && Phase().Idle? && m in queue && m.Malformed?
      modifies this
      ensures Valid() && Phase().Idle? && trace == old(trace) + [Deliver(w, m), RejectMalformed(w)]
      ensures queue == old(queue) - multiset{m} && deadLetters == old(deadLetters) + multiset{m} && keys == old(keys)
    {
      hide After;
      Receive(m);
      deadLetters := deadLetters + multiset{m};
      Note(RejectMalformed(w));
    }

    /** The idempotency key is set if it was absent; otherwise the message is acknowledged as a duplicate. */
    method Take(m: Message) returns (firstTime: bool)
      requires Valid() && Phase().Idle? && m in queue && m.Command?
      modifies this
      ensures Valid() && firstTime == (m.env.id !in old(keys))
      ensures Phase() == if firstTime then Executing(m.env) else Idle
      ensures trace == old(trace)
                       + if firstTime then [Deliver(w, m), Claim(w)]
                         else [Deliver(w, m), Claim(w), WorkerProtocol.Acknowledge(w)]
      ensures queue == old(queue) - multiset{m} && deadLetters == old(deadLetters)
      ensures keys == old(keys) + {m.env.id}
    {
      hide After;
      Receive(m);
      firstTime := SetKey(m.env);
      if !firstTime {
        hide Perform, Enabled;
        Acknowledge();
      }
    }

    /** `SET key NX`. */
    method SetKey(env: Envelope) returns (firstTime: bool)
      requires Valid() && Phase() == Received(Command(env))
      modifies this`keys, this`trace, this`view
      ensures Valid() && firstTime == (env.id !in old(keys)) && keys == old(keys) + {env.id}
      ensures Phase() == if firstTime then Executing(env) else Skipping(env)
      ensures trace == old(trace) + [Claim(w)]
    {
      hide After;
      firstTime := env.id !in keys;
      if firstTime {
        keys := keys + {env.id};
      }
      Note(Claim(w));
    }

    /** The execution, whose effects are modelled elsewhere, and what follows it. */
    method Attempt(env: Envelope, raises: bool)
      requires Valid() && Phase() == Executing(env)
      modifies this
      ensures Valid() && Phase().Idle?
      ensures trace == old(trace) + AttemptEvents(maxAttempts, w, env, raises)
      ensures keys == if raises then old(keys) - {env.id} else old(keys)
      ensures queue == if raises && env.attempt < maxAttempts
                       then old(queue) + multiset{Command(env.(attempt := env.attempt + 1))} else old(queue)
      ensures deadLetters == if raises && env.attempt >= maxAttempts
                             then old(deadLetters) + multiset{Command(env)} else old(deadLetters)
    {
      hide After, FailEvents;
      if !raises {
        Note(Finish(w));
        Acknowledge();
      } else {
        Note(Raise(w));
        Fail(env);
      }
    }

    /** The `except` branch: delete the key, then dead-letter or republish. */
    method Fail(env: Envelope)
      requires Valid() && Phase() == Failing(env)
      modifies this
      ensures Valid() && Phase().Idle?
      ensures trace == old(trace) + FailEvents(maxAttempts, w, env)
      ensures keys == old(keys) - {env.id}
      ensures env.attempt >= maxAttempts ==>
                queue == old(queue) && deadLetters == old(deadLetters) + multiset{Command(env)}
      ensures env.attempt < maxAttempts ==>
                && queue == old(queue) + multiset{Command(env.(attempt := env.attempt + 1))}
                && deadLetters == old(deadLetters)
    {
      hide After;
      DeleteKey(env);
      if env.attempt >= maxAttempts {
        deadLetters := deadLetters + multiset{Command(env)};
        Note(DeadLetter(w));
      } else {
        Retry(env);
        hide Perform, Enabled;
        Acknowledge();
      }
    }

    method DeleteKey(env: Envelope)
      requires Valid() && Phase() == Failing(env)
      modifies this`keys, this`trace, this`view
      ensures Valid() && Phase() == Released(env) && trace == old(trace) + [Release(w)]
      ensures keys == old(keys) - {env.id}
    {
      hide After;
      keys := keys - {env.id};
      Note(Release(w));
    }

    /** `_republish`. */
    method Retry(env: Envelope)
      requires Valid() && Phase() == Released(env) && env.attempt < maxAttempts
      modifies this`queue, this`trace, this`view
      ensures Valid() && Phase() == Republished(env) && trace == old(trace) + [Republish(w)]
      ensures queue == old(queue) + multiset{Command(env.(attempt := env.attempt + 1))}
    {
      hide After;
      queue := queue + multiset{Command(env.(attempt := env.attempt + 1))};
      Note(Republish(w));
    }
  }
}
