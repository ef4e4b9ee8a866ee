/**
  What becomes of one message, for every way its handling can end: which counters move, which
  queues get which message, and that nothing else in the broker changes.
 */
module DeliveryOutcomes {
  import opened CalcPipeline
  import opened MessageSafety
  import opened RabbitTopology

  /** The numbers of a message: what it says, or 1 and 5 where that is not positive. */
  predicate Says(m: Message, attempt: int, maxAttempts: int) {
    && (if m.attempt >= 1 then attempt == m.attempt else attempt == 1)
    && (if m.maxAttempts >= 1 then maxAttempts == m.maxAttempts else maxAttempts == 5)
  }

  /** Attempt 2 waits at the first level, 3 and 4 at the second, later ones at the third, or else at the last there is. */
  predicate WaitsAt(attempt: int, levels: nat, level: nat) {
    && level < levels
    && (attempt <= 2 ==> level == 0)
    && (3 <= attempt <= 4 ==> level == 1 || (levels == 1 && level == 0))
    && (attempt >= 5 ==> level == 2 || (levels < 3 && level == levels - 1))
  }

  /** Published once, with no queue behind it: one copy stands in the queue of this kind. */
  predicate StandsIn(c: Copy, e: EventId, m: Message, d: Dest) {
    && c.event == e && c.msg == m && c.trail == {}
    && (d.ToMain? ==> c.place == Main)
    && (d.ToDead? ==> c.place == Dead)
    && (d.ToRetry? ==> c.place == Retry(d.queue))
  }

  /** From s to t the broker has lost the copies in gone and got one of a message in each destination. */
  ghost predicate Moved(s: State, t: State, gone: set<nat>, e: EventId, m: Message, dests: seq<Dest>) {
    && t.next == s.next + |dests|
    && (forall id :: id in t.copies <==> (id in s.copies && id !in gone) || s.next <= id < t.next)
    && (forall id :: id in s.copies && id !in gone ==> t.copies[id] == s.copies[id])
    && (forall i :: 0 <= i < |dests| ==> StandsIn(t.copies[s.next + i], e, m, dests[i]))
  }

  /** The copy is now held by handler h. */
  function HeldBy(s: State, c: nat, h: nat, spent: bool): State
    requires c in s.copies
  {
    s.(copies := s.copies[c := s.copies[c].(place := Held(ByHandler(h), spent))])
  }

  ghost predicate Counted(s: State, t: State, failed: int, retried: int, dead: int) {
    t.failed == s.failed + failed && t.retried == s.retried + retried && t.dead == s.dead + dead
  }

  /** What no handler touches. */
  ghost predicate SameRest(s: State, t: State) {
    SameOutbox(s, t) && t.replay == s.replay && t.replaying == s.replaying
  }

  /** The handler holds a delivery that it can still answer. */
  ghost predicate Open(s: State, h: nat) {
    h in s.handlers && s.handlers[h].live && s.handlers[h].copy in s.copies && forall id :: id in s.copies ==> id < s.next
  }

  lemma Removed<T>(m: map<nat, T>, k: nat, x: T)
    ensures k !in m ==> Without(m[k := x], k) == m
    ensures Without(m, k) == m - {k} && Without(m[k := x], k) == m - {k}
  {
  }

  lemma EnqueueMoved(s: State, c: Copy, dests: seq<Dest>)
    requires (forall id :: id in s.copies ==> id < s.next) && c.trail == {}
    ensures Moved(s, Enqueue(s, c, dests), {}, c.event, c.msg, dests)
  {
    var t := Enqueue(s, c, dests);
    forall i | 0 <= i < |dests| ensures StandsIn(t.copies[s.next + i], c.event, c.msg, dests[i]) {
      assert t.copies[s.next + i] == Placed(c, dests, s.next, s.next + i);
    }
  }

  lemma MovedSame(s: State, t: State, u: State, e: EventId, m: Message, dests: seq<Dest>)
    requires SameCopies(s, t) && Moved(s, u, {}, e, m, dests)
    ensures Moved(t, u, {}, e, m, dests)
  {
  }

  /** The copies may be enqueued before or after an older one is removed. */
  lemma MovedWithout(s: State, t: State, u: State, c: nat, e: EventId, m: Message, dests: seq<Dest>, held: Copy)
    requires c in s.copies && c < s.next
    requires Moved(s.(copies := s.copies[c := held]), t, {}, e, m, dests)
    requires u.copies == Without(t.copies, c) && u.next == t.next
    ensures Moved(s, u, {c}, e, m, dests)
  {
    hide StandsIn;
    forall i | 0 <= i < |dests| ensures StandsIn(u.copies[s.next + i], e, m, dests[i]) {
      assert u.copies[s.next + i] == t.copies[s.next + i];
    }
  }

  // --- a failed execution ---------------------------------------------------

  /** Where the next attempt is published: the level's retry key, or the dead key when it is not retried or no level exists. */
  function Published(cfg: Config, retry: bool, level: nat): seq<Dest>
    requires cfg.Valid() && (cfg.levels > 0 ==> level < |cfg.retry|)
  {
    if retry && cfg.levels > 0 then cfg.retry[level] else cfg.dead
  }

  lemma RouteStep(cfg: Config, s: State, h: nat, permanent: bool, attempt: int, maxAttempts: int)
    requires h in s.handlers && s.handlers[h].stage == Failing(permanent) && Says(s.handlers[h].msg, attempt, maxAttempts)
    ensures var retry := !permanent && attempt + 1 <= maxAttempts;
      var x := s.handlers[h].(msg := Message(true, attempt + 1, maxAttempts), stage := Routed(!retry));
      Next(cfg, s, Route(h)) == s.(handlers := s.handlers[h := x], retried := s.retried + if retry then 1 else 0,
                                   dead := s.dead + if retry then 0 else 1)
  {
  }

  lemma RepublishStep(cfg: Config, s: State, h: nat, level: nat)
    requires Open(s, h) && cfg.Valid() && s.handlers[h].stage.Routed?
    requires cfg.levels > 0 ==> WaitsAt(s.handlers[h].msg.attempt, cfg.levels, level)
    ensures var x := s.handlers[h];
      var t := Next(cfg, s, Republish(h));
      && Moved(HeldBy(s, x.copy, h, true), t, {}, x.event, x.msg, Published(cfg, !x.stage.dead, level))
      && Counted(s, t, 0, 0, 0) && SameRest(s, t) && t.completed == s.completed
      && t.handlers == s.handlers[h := x.(stage := Republished)]
  {
    hide Enqueue;
    var x := s.handlers[h];
    var u := HeldBy(s, x.copy, h, true).(handlers := s.handlers[h := x.(stage := Republished)]);
    EnqueueFrame(u, NextCopy(cfg, x), NextDests(cfg, x));
    EnqueueMoved(u, NextCopy(cfg, x), NextDests(cfg, x));
  }

  /**
    A failure is retried exactly when it is not permanent and the next attempt is within the limit,
    and counted so; the next attempt goes to its level's retry queues, or else to the dead key's.
   */
  lemma FailureRouting(cfg: Config, s: State, h: nat, permanent: bool, attempt: int, maxAttempts: int, level: nat)
    requires Open(s, h) && cfg.Valid() && s.handlers[h].stage == Failing(permanent)
    requires Says(s.handlers[h].msg, attempt, maxAttempts) && (cfg.levels > 0 ==> WaitsAt(attempt + 1, cfg.levels, level))
    ensures var retry := !permanent && attempt + 1 <= maxAttempts;
      var x := s.handlers[h];
      var next := Message(true, attempt + 1, maxAttempts);
      var t := Next(cfg, Next(cfg, s, Route(h)), Republish(h));
      && Counted(s, t, 0, if retry then 1 else 0, if retry then 0 else 1)
      && Moved(HeldBy(s, x.copy, h, true), t, {}, x.event, next, Published(cfg, retry, level))
      && SameRest(s, t) && t.completed == s.completed
      && t.handlers == s.handlers[h := x.(msg := next, stage := Republished)]
  {
    hide Next;
    RouteStep(cfg, s, h, permanent, attempt, maxAttempts);
    RepublishStep(cfg, Next(cfg, s, Route(h)), h, level);
  }

  // --- whole deliveries -----------------------------------------------------

  /** Handler h is at work on copy c; everything else is as in s. */
  function Working(s: State, c: nat, h: nat, stage: Stage, runs: nat): State
    requires c in s.copies
  {
    var m := s.copies[c];
    HeldBy(s, c, h, false).(handlers := s.handlers[h := Handler(c, m.event, m.msg, true, stage, m.first, runs, m.levels)])
  }

  /** A message of the main queue that a new handler takes. */
  ghost predicate Waiting(s: State, c: nat, h: nat) {
    HoldersOk(s) && c in s.copies && s.copies[c].place.Main? && h !in s.handlers
  }

  lemma TakenUp(cfg: Config, s: State, c: nat, h: nat)
    requires Waiting(s, c, h)
    ensures Next(cfg, s, Deliver(c, h)) == Working(s, c, h, Received, s.copies[c].runs)
  {
  }

  lemma RunUp(cfg: Config, s: State, c: nat, h: nat)
    requires Waiting(s, c, h) && s.copies[c].msg.decodes
    ensures Next(cfg, Next(cfg, s, Deliver(c, h)), Run(h)) == Working(s, c, h, Running, s.copies[c].runs + 1)
  {
    TakenUp(cfg, s, c, h);
    var t := Working(s, c, h, Received, s.copies[c].runs);
    var u := Working(s, c, h, Running, s.copies[c].runs + 1);
    assert LocalNext(t, Run(h)).handlers == u.handlers;
  }

  lemma Acknowledged(cfg: Config, s: State, c: nat, h: nat, stage: Stage, runs: nat)
    requires Waiting(s, c, h) && stage in {Skipping, Succeeded}
    ensures Next(cfg, Working(s, c, h, stage, runs), Finish(h))
            == s.(copies := s.copies - {c}, completed := s.completed + {s.copies[c].event})
  {
    var t := Working(s, c, h, stage, runs);
    assert Without(t.handlers, h) == s.handlers;
    assert Without(t.copies, c) == s.copies - {c};
  }

  /** A successful execution removes the message, completes its event, and changes nothing else. */
  lemma DeliverySucceeds(cfg: Config, s: State, c: nat, h: nat)
    requires Waiting(s, c, h) && s.copies[c].msg.decodes
    ensures var running := Next(cfg, Next(cfg, s, Deliver(c, h)), Run(h));
      Next(cfg, Next(cfg, running, Succeed(h)), Finish(h))
      == s.(copies := s.copies - {c}, completed := s.completed + {s.copies[c].event})
  {
    RunUp(cfg, s, c, h);
    var runs := s.copies[c].runs + 1;
    var t, u := Working(s, c, h, Running, runs), Working(s, c, h, Succeeded, runs);
    assert LocalNext(t, Succeed(h)).handlers == u.handlers;
    Acknowledged(cfg, s, c, h, Succeeded, runs);
  }

  /** A delivery that is to be skipped is removed in the same way, without an execution. */
  lemma DeliverySkipped(cfg: Config, s: State, c: nat, h: nat)
    requires Waiting(s, c, h) && s.copies[c].msg.decodes
    ensures Next(cfg, Next(cfg, Next(cfg, s, Deliver(c, h)), Skip(h)), Finish(h))
      == s.(copies := s.copies - {c}, completed := s.completed + {s.copies[c].event})
  {
    TakenUp(cfg, s, c, h);
    var runs := s.copies[c].runs;
    var t, u := Working(s, c, h, Received, runs), Working(s, c, h, Skipping, runs);
    assert LocalNext(t, Skip(h)).handlers == u.handlers;
    Acknowledged(cfg, s, c, h, Skipping, runs);
  }

  lemma RejectStep(cfg: Config, t: State, h: nat)
    requires Open(t, h) && t.handlers[h].stage.Rejecting?
    ensures var c := t.handlers[h].copy;
      var u := Next(cfg, t, Finish(h));
      && Moved(t.(copies := t.copies - {c}), u, {}, t.copies[c].event, t.copies[c].msg, cfg.dead)
      && u.handlers == t.handlers - {h} && Counted(t, u, 0, 0, 0) && SameRest(t, u) && u.completed == t.completed
  {
    hide Enqueue;
    hide Moved;
    var c := t.handlers[h].copy;
    Removed(t.handlers, h, t.handlers[h]);
    Removed(t.copies, c, t.copies[c]);
    var w := t.(handlers := t.handlers - {h}, copies := t.copies - {c});
    var d := t.copies[c].Fresh(Dead);
    assert Next(cfg, t, Finish(h)) == Enqueue(w, d, cfg.dead);
    EnqueueMoved(w, d, cfg.dead);
    EnqueueFrame(w, d, cfg.dead);
    MovedSame(w, t.(copies := t.copies - {c}), Enqueue(w, d, cfg.dead), d.event, d.msg, cfg.dead);
  }

  lemma MovedGone(s: State, w: State, u: State, c: nat, e: EventId, m: Message, dests: seq<Dest>)
    requires w.copies == s.copies - {c} && w.next == s.next && Moved(w, u, {}, e, m, dests)
    ensures Moved(s, u, {c}, e, m, dests)
  {
  }

  lemma Rejected(cfg: Config, s: State, t: State, c: nat, h: nat)
    requires Waiting(s, c, h) && h in t.handlers && t.handlers[h].stage.Rejecting? && t.handlers[h].live
    requires t.handlers[h].copy == c && t.handlers == s.handlers[h := t.handlers[h]] && t.next == s.next
    requires t.copies == HeldBy(s, c, h, false).copies
    ensures var u := Next(cfg, t, Finish(h));
      && Moved(s, u, {c}, s.copies[c].event, s.copies[c].msg, cfg.dead)
      && Counted(t, u, 0, 0, 0) && SameRest(t, u) && u.completed == t.completed && u.handlers == s.handlers
  {
    hide Next;
    hide Moved;
    RejectStep(cfg, t, h);
    assert t.copies - {c} == s.copies - {c};
    assert t.handlers - {h} == s.handlers;
    MovedGone(s, t.(copies := t.copies - {c}), Next(cfg, t, Finish(h)), c, s.copies[c].event, s.copies[c].msg, cfg.dead);
  }

  /** A message that does not decode goes to the dead key's queues as it is. */
  lemma DeliveryRejected(cfg: Config, s: State, c: nat, h: nat)
    requires Waiting(s, c, h) && !s.copies[c].msg.decodes
    ensures var t := Next(cfg, Next(cfg, Next(cfg, s, Deliver(c, h)), Reject(h)), Finish(h));
      && Moved(s, t, {c}, s.copies[c].event, s.copies[c].msg, cfg.dead)
      && Counted(s, t, 0, 0, 0) && SameRest(s, t) && t.completed == s.completed && t.handlers == s.handlers
  {
    hide Moved;
    hide Finishes;
    TakenUp(cfg, s, c, h);
    Rejected(cfg, s, Next(cfg, Next(cfg, s, Deliver(c, h)), Reject(h)), c, h);
  }

  lemma FailStep(cfg: Config, s: State, h: nat, permanent: bool)
    requires h in s.handlers && s.handlers[h].stage.Running?
    ensures Next(cfg, s, Fail(h, permanent))
            == s.(handlers := s.handlers[h := s.handlers[h].(stage := Failing(permanent))], failed := s.failed + 1)
  {
  }

  /** The failure is counted, then routed. */
  lemma FailedUp(cfg: Config, s: State, c: nat, h: nat, permanent: bool, attempt: int, maxAttempts: int)
    requires Waiting(s, c, h) && s.copies[c].msg.decodes && Says(s.copies[c].msg, attempt, maxAttempts)
    ensures var running := Next(cfg, Next(cfg, s, Deliver(c, h)), Run(h));
      var t := Next(cfg, Next(cfg, running, Fail(h, permanent)), Route(h));
      var retry := !permanent && attempt + 1 <= maxAttempts;
      var m := s.copies[c];
      var x := Handler(c, m.event, Message(true, attempt + 1, maxAttempts), true, Routed(!retry), m.first, m.runs + 1, m.levels);
      t == HeldBy(s, c, h, false).(handlers := s.handlers[h := x], failed := s.failed + 1,
                                   retried := s.retried + if retry then 1 else 0, dead := s.dead + if retry then 0 else 1)
  {
    hide Next;
    hide HoldersOk;
    RunUp(cfg, s, c, h);
    var t := Working(s, c, h, Running, s.copies[c].runs + 1);
    FailStep(cfg, t, h, permanent);
    var u := Next(cfg, t, Fail(h, permanent));
    RouteStep(cfg, u, h, permanent, attempt, maxAttempts);
    var v := Next(cfg, u, Route(h));
    assert v.handlers == s.handlers[h := v.handlers[h]];
  }

  lemma AcknowledgeStep(cfg: Config, t: State, h: nat)
    requires Open(t, h) && t.handlers[h].stage.Republished?
    ensures Next(cfg, t, Finish(h)) == t.(handlers := t.handlers - {h}, copies := Without(t.copies, t.handlers[h].copy))
  {
    Removed(t.handlers, h, t.handlers[h]);
  }

  lemma FinishedRepublish(cfg: Config, s: State, t: State, c: nat, h: nat, e: EventId, m: Message, dests: seq<Dest>)
    requires c in s.copies && h !in s.handlers && Open(t, h) && t.handlers[h].stage.Republished? && c < s.next
    requires t.handlers[h].copy == c && t.handlers == s.handlers[h := t.handlers[h]]
    requires Moved(HeldBy(s, c, h, true), t, {}, e, m, dests)
    ensures var u := Next(cfg, t, Finish(h));
      && Moved(s, u, {c}, e, m, dests) && u.handlers == s.handlers
      && Counted(t, u, 0, 0, 0) && SameRest(t, u) && u.completed == t.completed
  {
    hide Next;
    hide Without;
    hide Moved;
    AcknowledgeStep(cfg, t, h);
    var u := Next(cfg, t, Finish(h));
    assert u.handlers == s.handlers;
    MovedWithout(s, t, u, c, e, m, dests, s.copies[c].(place := Held(ByHandler(h), true)));
  }

  lemma MovedOpen(s: State, t: State, h: nat, e: EventId, m: Message, dests: seq<Dest>)
    requires h in t.handlers && t.handlers[h].live && t.handlers[h].copy in s.copies
    requires Moved(s, t, {}, e, m, dests) && forall id :: id in s.copies ==> id < s.next
    ensures Open(t, h)
  {
  }

  /** A failed execution: counted, published again where FailureRouting says, acknowledged; nothing else changes. */
  lemma DeliveryFails(cfg: Config, s: State, c: nat, h: nat, permanent: bool, attempt: int, maxAttempts: int, level: nat)
    requires Waiting(s, c, h) && cfg.Valid() && s.copies[c].msg.decodes && Says(s.copies[c].msg, attempt, maxAttempts)
    requires cfg.levels > 0 ==> WaitsAt(attempt + 1, cfg.levels, level)
    ensures var running := Next(cfg, Next(cfg, s, Deliver(c, h)), Run(h));
      var routed := Next(cfg, Next(cfg, running, Fail(h, permanent)), Route(h));
      var t := Next(cfg, Next(cfg, routed, Republish(h)), Finish(h));
      var retry := !permanent && attempt + 1 <= maxAttempts;
      && Moved(s, t, {c}, s.copies[c].event, Message(true, attempt + 1, maxAttempts), Published(cfg, retry, level))
      && Counted(s, t, 1, if retry then 1 else 0, if retry then 0 else 1)
      && SameRest(s, t) && t.completed == s.completed && t.handlers == s.handlers
  {
    hide Next;
    FailedUp(cfg, s, c, h, permanent, attempt, maxAttempts);
    var t := Next(cfg, Next(cfg, Next(cfg, Next(cfg, s, Deliver(c, h)), Run(h)), Fail(h, permanent)), Route(h));
    RepublishedUp(cfg, s, t, c, h, level);
    var u := Next(cfg, t, Republish(h));
    FinishedRepublish(cfg, s, u, c, h, u.handlers[h].event, u.handlers[h].msg, Published(cfg, !t.handlers[h].stage.dead, level));
  }

  lemma RepublishedUp(cfg: Config, s: State, t: State, c: nat, h: nat, level: nat)
    requires cfg.Valid() && c in s.copies && h !in s.handlers && forall id :: id in s.copies ==> id < s.next
    requires SameCopies(HeldBy(s, c, h, false), t) && h in t.handlers && t.handlers == s.handlers[h := t.handlers[h]]
    requires var x := t.handlers[h];
      x.live && x.copy == c && x.stage.Routed? && (cfg.levels > 0 ==> WaitsAt(x.msg.attempt, cfg.levels, level))
    ensures var u := Next(cfg, t, Republish(h));
      var x := t.handlers[h];
      && Open(u, h) && u.handlers == s.handlers[h := x.(stage := Republished)]
      && Moved(HeldBy(s, c, h, true), u, {}, x.event, x.msg, Published(cfg, !x.stage.dead, level))
      && Counted(t, u, 0, 0, 0) && SameRest(t, u) && u.completed == t.completed
  {
    hide Next;
    hide Moved;
    RepublishStep(cfg, t, h, level);
    var u := Next(cfg, t, Republish(h));
    var x := t.handlers[h];
    var dests := Published(cfg, !x.stage.dead, level);
    assert u.handlers == s.handlers[h := x.(stage := Republished)];
    var v, w := HeldBy(t, c, h, true), HeldBy(s, c, h, true);
    assert SameCopies(v, w);
    MovedOpen(v, u, h, x.event, x.msg, dests);
    MovedSame(v, w, u, x.event, x.msg, dests);
  }

  /** When the next attempt cannot be published the message goes back to the main queue as it was. */
  lemma DeliveryReturned(cfg: Config, s: State, c: nat, h: nat, permanent: bool, attempt: int, maxAttempts: int)
    requires Waiting(s, c, h) && s.copies[c].msg.decodes && Says(s.copies[c].msg, attempt, maxAttempts)
    ensures var running := Next(cfg, Next(cfg, s, Deliver(c, h)), Run(h));
      var routed := Next(cfg, Next(cfg, running, Fail(h, permanent)), Route(h));
      var t := Next(cfg, Next(cfg, routed, RepublishFailed(h)), Finish(h));
      var retry := !permanent && attempt + 1 <= maxAttempts;
      && t.next == s.next && t.copies.Keys == s.copies.Keys && (forall id :: id in s.copies && id != c ==> t.copies[id] == s.copies[id])
      && t.copies[c].event == s.copies[c].event && t.copies[c].msg == s.copies[c].msg && t.copies[c].place == Main
      && Counted(s, t, 1, if retry then 1 else 0, if retry then 0 else 1)
      && SameRest(s, t) && t.completed == s.completed && t.handlers == s.handlers
  {
    hide Next;
    hide HoldersOk;
    FailedUp(cfg, s, c, h, permanent, attempt, maxAttempts);
    var t := Next(cfg, Next(cfg, Next(cfg, Next(cfg, s, Deliver(c, h)), Run(h)), Fail(h, permanent)), Route(h));
    RefusedStep(cfg, t, h);
    var u := Next(cfg, Next(cfg, t, RepublishFailed(h)), Finish(h));
    assert u.handlers == s.handlers;
  }

  lemma RefusedStep(cfg: Config, t: State, h: nat)
    requires h in t.handlers && t.handlers[h].stage.Routed? && t.handlers[h].live && t.handlers[h].copy in t.copies
    ensures var c := t.handlers[h].copy;
      var u := Next(cfg, Next(cfg, t, RepublishFailed(h)), Finish(h));
      && u.handlers == t.handlers - {h} && u.copies == t.copies[c := t.copies[c].Fresh(Main)] && u.next == t.next
      && Counted(t, u, 0, 0, 0) && SameRest(t, u) && u.completed == t.completed
  {
    var x := t.handlers[h].(stage := Refused);
    var u := t.(handlers := t.handlers[h := x]);
    assert Next(cfg, t, RepublishFailed(h)) == u;
    Removed(t.handlers, h, x);
    assert Next(cfg, u, Finish(h)) == Finishes(cfg, u, h);
  }

  /** A handler that has lost its delivery changes nothing in the broker any more. */
  lemma LostDelivery(cfg: Config, s: State, h: nat, a: Action)
    requires h in s.handlers && !s.handlers[h].live && (a == Republish(h) || a == Finish(h) || (IsLocal(a) && a.h == h))
    ensures var t := Next(cfg, s, a);
      SameCopies(s, t) && SameRest(s, t) && t.completed == s.completed
  {
    hide Next;
    if IsLocal(a) {
      LocalOnly(cfg, s, a);
    } else if a.Republish? {
      RepublishLost(cfg, s, h);
    } else {
      FinishLost(cfg, s, h);
    }
  }

  lemma LocalOnly(cfg: Config, s: State, a: Action)
    requires IsLocal(a)
    ensures var t := Next(cfg, s, a);
      SameCopies(s, t) && SameRest(s, t) && t.completed == s.completed
  {
    hide HandlerNext;
    LocalFrame(s, a);
    assert Next(cfg, s, a) == LocalNext(s, a);
  }

  lemma RepublishLost(cfg: Config, s: State, h: nat)
    requires h in s.handlers && !s.handlers[h].live
    ensures Next(cfg, s, Republish(h)) == s
  {
    hide Enqueue;
  }

  lemma FinishLost(cfg: Config, s: State, h: nat)
    requires h in s.handlers && !s.handlers[h].live
    ensures Next(cfg, s, Finish(h)).(handlers := s.handlers) == s
  {
    hide Enqueue;
    hide Without;
    var t := Finishes(cfg, s, h);
    assert t == s.(handlers := Without(s.handlers, h)) || t == s;
    assert Next(cfg, s, Finish(h)) == t;
  }

  /** And the message it lost waits in the main queue again. */
  lemma DeliveryLost(cfg: Config, s: State, h: nat)
    requires HoldersOk(s) && h in s.handlers && s.handlers[h].live
    ensures var c := s.handlers[h].copy;
      var t := Next(cfg, s, LoseDelivery(h));
      && t.copies.Keys == s.copies.Keys && c in s.copies && (forall id :: id in s.copies && id != c ==> t.copies[id] == s.copies[id])
      && t.copies[c].event == s.copies[c].event && t.copies[c].msg == s.copies[c].msg && t.copies[c].place == Main
      && SameRest(s, t) && t.completed == s.completed && Counted(s, t, 0, 0, 0)
  {
  }

  /** When the next attempt cannot be written as JSON the message goes to the dead key's queues as it came. */
  lemma DeliveryUnwritable(cfg: Config, s: State, c: nat, h: nat, permanent: bool, attempt: int, maxAttempts: int)
    requires Waiting(s, c, h) && s.copies[c].msg.decodes && Says(s.copies[c].msg, attempt, maxAttempts)
    ensures var running := Next(cfg, Next(cfg, s, Deliver(c, h)), Run(h));
      var routed := Next(cfg, Next(cfg, running, Fail(h, permanent)), Route(h));
      var t := Next(cfg, Next(cfg, routed, MarshalFailed(h)), Finish(h));
      var retry := !permanent && attempt + 1 <= maxAttempts;
      && Moved(s, t, {c}, s.copies[c].event, s.copies[c].msg, cfg.dead)
      && Counted(s, t, 1, if retry then 1 else 0, if retry then 0 else 1)
      && SameRest(s, t) && t.completed == s.completed && t.handlers == s.handlers
  {
    hide Next;
    hide Moved;
    FailedUp(cfg, s, c, h, permanent, attempt, maxAttempts);
    var t := Next(cfg, Next(cfg, Next(cfg, Next(cfg, s, Deliver(c, h)), Run(h)), Fail(h, permanent)), Route(h));
    UnwritableStep(cfg, t, h);
    var u := Next(cfg, t, MarshalFailed(h));
    assert u.handlers == s.handlers[h := u.handlers[h]];
    Rejected(cfg, s, u, c, h);
  }

  lemma UnwritableStep(cfg: Config, t: State, h: nat)
    requires h in t.handlers && t.handlers[h].stage.Routed?
    ensures Next(cfg, t, MarshalFailed(h)) == t.(handlers := t.handlers[h := t.handlers[h].(stage := Rejecting)])
  {
  }

  // --- the other ways of a message --------------------------------------------

  /** A retry queue hands its message on once to every destination of the main key it has not expired from before. */
  lemma RetryExpires(cfg: Config, s: State, c: nat)
    requires HoldersOk(s) && c in s.copies && s.copies[c].place.Retry?
    ensures var t := Next(cfg, s, Expire(c));
      var trail := s.copies[c].trail + {s.copies[c].place.queue};
      && (forall id :: id in t.copies <==> (id in s.copies && id != c) || s.next <= id < t.next)
      && (forall id :: id in s.copies && id != c ==> t.copies[id] == s.copies[id])
      && (forall d :: d in cfg.main && !(d.ToRetry? && d.queue in trail) ==>
            exists id :: id in t.copies && s.next <= id < t.next && HandedOn(s.copies[c], t.copies[id], d, trail))
      && (forall id :: id in t.copies && s.next <= id < t.next ==>
            exists d :: d in cfg.main && !(d.ToRetry? && d.queue in trail) && HandedOn(s.copies[c], t.copies[id], d, trail))
      && SameRest(s, t) && t.completed == s.completed && Counted(s, t, 0, 0, 0) && t.handlers == s.handlers
  {
    hide Next;
    hide HandedOn;
    var m := s.copies[c];
    var trail := m.trail + {m.place.queue};
    var dests := FirstVisits(cfg.main, trail);
    var t := Next(cfg, s, Expire(c));
    ExpireStep(cfg, s, c);
    forall d | d in cfg.main && !(d.ToRetry? && d.queue in trail)
      ensures exists id :: id in t.copies && s.next <= id < t.next && HandedOn(m, t.copies[id], d, trail)
    {
      FirstVisitsKeep(cfg.main, trail, d);
      var i :| 0 <= i < |dests| && dests[i] == d;
      assert HandedOn(m, t.copies[s.next + i], dests[i], trail);
    }
    forall id | id in t.copies && s.next <= id < t.next
      ensures exists d :: d in cfg.main && !(d.ToRetry? && d.queue in trail) && HandedOn(m, t.copies[id], d, trail)
    {
      FirstVisitsKeep(cfg.main, trail, dests[id - s.next]);
      assert HandedOn(m, t.copies[s.next + (id - s.next)], dests[id - s.next], trail);
    }
  }

  lemma ExpireStep(cfg: Config, s: State, c: nat)
    requires HoldersOk(s) && c in s.copies && s.copies[c].place.Retry?
    ensures var t := Next(cfg, s, Expire(c));
      var trail := s.copies[c].trail + {s.copies[c].place.queue};
      var dests := FirstVisits(cfg.main, trail);
      && t.next == s.next + |dests|
      && (forall id :: id in t.copies <==> (id in s.copies && id != c) || s.next <= id < t.next)
      && (forall id :: id in s.copies && id != c ==> t.copies[id] == s.copies[id])
      && (forall i :: 0 <= i < |dests| ==> HandedOn(s.copies[c], t.copies[s.next + i], dests[i], trail))
      && SameRest(s, t) && t.completed == s.completed && Counted(s, t, 0, 0, 0) && t.handlers == s.handlers
  {
    hide FirstVisits;
    var m := s.copies[c];
    var trail := m.trail + {m.place.queue};
    var dests := FirstVisits(cfg.main, trail);
    var t := Next(cfg, s, Expire(c));
    assert t == Enqueue(s.(copies := Without(s.copies, c)), m.(trail := trail), dests);
    forall i | 0 <= i < |dests| ensures HandedOn(m, t.copies[s.next + i], dests[i], trail) {
      assert t.copies[s.next + i] == Placed(m.(trail := trail), dests, s.next, s.next + i);
    }
  }

  /** The same message, with the same history, in the queue of d. */
  predicate HandedOn(m: Copy, c: Copy, d: Dest, trail: set<string>) {
    && c.event == m.event && c.msg == m.msg && c.first == m.first && c.runs == m.runs && c.levels == m.levels && c.trail == trail
    && (d.ToMain? ==> c.place == Main)
    && (d.ToDead? ==> c.place == Dead)
    && (d.ToRetry? ==> c.place == Retry(d.queue))
  }

  /** Replay publishes a dead message as a first attempt with the fixed key, unless it is not JSON, and removes it. */
  lemma DeadLetterReplayed(cfg: Config, s: State, c: nat, rewritten: bool)
    requires HoldersOk(s) && !s.replaying && c in s.copies && s.copies[c].place.Dead?
    ensures var t := Next(cfg, Next(cfg, Next(cfg, s, ReplayGet(c)), ReplayPublish(rewritten)), ReplayAck);
      var m := s.copies[c].msg;
      && Moved(s, t, {c}, s.copies[c].event, if rewritten || m.decodes then Message(m.decodes, 1, m.maxAttempts) else m, cfg.events)
      && SameOutbox(s, t) && t.completed == s.completed && Counted(s, t, 0, 0, 0) && t.handlers == s.handlers && !t.replaying
  {
    hide Next;
    hide Moved;
    var x := s.copies[c];
    var m := if rewritten || x.msg.decodes then Message(x.msg.decodes, 1, x.msg.maxAttempts) else x.msg;
    ReplayGetStep(cfg, s, c);
    var u := Next(cfg, s, ReplayGet(c));
    ReplayPublishStep(cfg, u, rewritten);
    var w := Next(cfg, u, ReplayPublish(rewritten));
    var held := x.(place := Held(ByReplay, true));
    assert u.copies[c := held] == s.copies[c := held];
    MovedSame(u.(copies := u.copies[c := held]), s.(copies := s.copies[c := held]), w, x.event, m, cfg.events);
    ReplayAckStep(cfg, s, w, c, x.event, m, held);
  }

  lemma ReplayGetStep(cfg: Config, s: State, c: nat)
    requires !s.replaying && c in s.copies && s.copies[c].place.Dead?
    ensures Next(cfg, s, ReplayGet(c))
            == s.(copies := s.copies[c := s.copies[c].(place := Held(ByReplay, false))], replay := c, replaying := true)
  {
  }

  lemma ReplayPublishStep(cfg: Config, u: State, rewritten: bool)
    requires u.replaying && u.replay in u.copies && u.copies[u.replay].place == Held(ByReplay, false)
    requires forall id :: id in u.copies ==> id < u.next
    ensures var w := Next(cfg, u, ReplayPublish(rewritten));
      var x := u.copies[u.replay];
      && Moved(u.(copies := u.copies[u.replay := x.(place := Held(ByReplay, true))]), w, {}, x.event,
               if rewritten || x.msg.decodes then Message(x.msg.decodes, 1, x.msg.maxAttempts) else x.msg, cfg.events)
      && SameOutbox(u, w) && w.completed == u.completed && Counted(u, w, 0, 0, 0) && w.handlers == u.handlers
      && w.replay == u.replay && w.replaying
  {
    hide Enqueue;
    hide Moved;
    var x := u.copies[u.replay];
    var v := u.(copies := u.copies[u.replay := x.(place := Held(ByReplay, true))]);
    var n := NewCopy(x.event, if rewritten || x.msg.decodes then Message(x.msg.decodes, 1, x.msg.maxAttempts) else x.msg, Main);
    assert Next(cfg, u, ReplayPublish(rewritten)) == Enqueue(v, n, cfg.events);
    EnqueueFrame(v, n, cfg.events);
    EnqueueMoved(v, n, cfg.events);
  }

  lemma ReplayAckStep(cfg: Config, s: State, w: State, c: nat, e: EventId, m: Message, held: Copy)
    requires c in s.copies && c < s.next && held.place == Held(ByReplay, true) && w.replaying && w.replay == c
    requires Moved(s.(copies := s.copies[c := held]), w, {}, e, m, cfg.events)
    ensures var t := Next(cfg, w, ReplayAck);
      Moved(s, t, {c}, e, m, cfg.events) && t == w.(copies := t.copies, replaying := false)
  {
    var t := w.(copies := Without(w.copies, c), replaying := false);
    assert Next(cfg, w, ReplayAck) == t;
    MovedWithout(s, w, t, c, e, m, cfg.events, held);
  }

  /** An outbox event is published with the fixed key, and its row marked when the broker takes it; else both stay. */
  lemma EventPublished(cfg: Config, s: State, e: EventId, rest: seq<EventId>, accept: bool)
    requires HoldersOk(s) && e in s.rows
    requires s.session == Session(Head([e] + rest), true, false, [], [])
    ensures var taken := Next(cfg, Next(cfg, s, Publish), BrokerTake(accept));
      var t := Next(cfg, Next(cfg, taken, ReadConfirm), MarkPublished);
      && t.rows == (if accept then s.rows[e := Row(s.rows[e].msg, true)] else s.rows)
      && Moved(s, t, {}, e, s.rows[e].msg, if accept then cfg.events else [])
      && t.session == s.session.(pub := Head(rest)) && SameConsumer(s, t)
  {
    hide Enqueue;
    hide Moved;
    var ss := s.session;
    var a := s.(session := ss.(pub := Await(e, rest), wire := [e]));
    assert ([e] + rest)[1..] == rest;
    assert Next(cfg, s, Publish) == a;
    var b := a.(session := ss.(pub := Await(e, rest), confirms := [Confirm(e, accept)]));
    var n := NewCopy(e, s.rows[e].msg, Main);
    var taken := if accept then Enqueue(b, n, cfg.events).(acked := s.acked + {e}) else b;
    assert a.session.wire[1..] == [] && a.session.confirms + [Confirm(e, accept)] == [Confirm(e, accept)];
    NextBrokerTakes(cfg, a, accept);
    assert Next(cfg, a, BrokerTake(accept)) == taken;
    EnqueueFrame(b, n, cfg.events);
    EnqueueMoved(s, n, cfg.events);
    EnqueueSame(s, b, n, cfg.events);
    NothingMoved(s, e, s.rows[e].msg);
    ConfirmSteps(cfg, taken, e, rest, accept);
    var t := Next(cfg, Next(cfg, taken, ReadConfirm), MarkPublished);
    if accept {
      MovedThere(s, Enqueue(s, n, cfg.events), t, e, s.rows[e].msg, cfg.events);
    } else {
      MovedThere(s, s, t, e, s.rows[e].msg, []);
    }
  }

  lemma NextBrokerTakes(cfg: Config, s: State, accept: bool)
    ensures Next(cfg, s, BrokerTake(accept)) == BrokerTakes(cfg, s, accept)
  {
  }

  lemma NothingMoved(s: State, e: EventId, m: Message)
    requires forall id :: id in s.copies ==> id < s.next
    ensures Moved(s, s, {}, e, m, [])
  {
  }

  lemma MovedThere(s: State, t: State, u: State, e: EventId, m: Message, dests: seq<Dest>)
    requires SameCopies(t, u) && Moved(s, t, {}, e, m, dests)
    ensures Moved(s, u, {}, e, m, dests)
  {
  }

  lemma ConfirmSteps(cfg: Config, s: State, e: EventId, rest: seq<EventId>, accept: bool)
    requires e in s.rows && s.session == Session(Await(e, rest), true, false, [], [Confirm(e, accept)])
    ensures Next(cfg, Next(cfg, s, ReadConfirm), MarkPublished)
            == s.(session := Session(Head(rest), true, false, [], []),
                  rows := if accept then s.rows[e := Row(s.rows[e].msg, true)] else s.rows)
  {
    var t := s.(session := Session(if accept then Marking(e, rest) else Head(rest), true, false, [], []));
    assert Next(cfg, s, ReadConfirm) == t;
    assert Next(cfg, t, MarkPublished) == Marks(t);
  }

  /** A new session takes up a batch of unpublished rows. */
  lemma SessionOpened(cfg: Config, s: State, batch: seq<EventId>)
    requires s.session.pub.Down? && forall e :: e in batch ==> e in s.rows && !s.rows[e].published
    ensures Next(cfg, Next(cfg, s, Connect), Fetch(batch)) == s.(session := Session(Head(batch), true, false, [], []))
  {
  }

  lemma NextSession(cfg: Config, s: State, ss: Session, a: Action)
    requires a.PublishFailed? || a.ReadClosed? || a.Cancel? || a.GiveUpWait?
    ensures Next(cfg, s.(session := ss), a) == s.(session := SessionNext(s.rows, ss, a))
  {
    hide SessionNext;
  }

  /** An event that cannot be published, or whose confirm never comes, keeps its row unmarked; the session goes on. */
  lemma EventPostponed(cfg: Config, s: State, e: EventId, rest: seq<EventId>, live: bool)
    ensures Next(cfg, s.(session := Session(Head([e] + rest), live, false, [], [])), PublishFailed)
            == s.(session := Session(Head(rest), live, false, [], []))
    ensures Next(cfg, s.(session := Session(Await(e, rest), false, false, [], [])), ReadClosed)
            == s.(session := Session(Head(rest), false, false, [], []))
  {
    hide Next;
    assert ([e] + rest)[1..] == rest;
    NextSession(cfg, s, Session(Head([e] + rest), live, false, [], []), PublishFailed);
    NextSession(cfg, s, Session(Await(e, rest), false, false, [], []), ReadClosed);
  }

  /** A cancelled session gives up its wait and the rest of its batch. */
  lemma BatchGivenUp(cfg: Config, s: State, e: EventId, rest: seq<EventId>, live: bool)
    ensures var waiting := s.(session := Session(Await(e, rest), live, false, [], []));
      Next(cfg, Next(cfg, waiting, Cancel), GiveUpWait) == s.(session := Session(Head([]), live, true, [], []))
  {
    hide Next;
    NextSession(cfg, s, Session(Await(e, rest), live, false, [], []), Cancel);
    NextSession(cfg, s, Session(Await(e, rest), live, true, [], []), GiveUpWait);
  }

  /** What a lost connection has sent may still arrive, each event once and in order; what it was told stays known. */
  lemma ConnectionDrops(cfg: Config, s: State, kept: nat)
    requires kept <= |s.session.confirms|
    ensures Next(cfg, s, DropPublisher(kept))
            == s.(session := s.session.(live := false, wire := [], confirms := s.session.confirms[..kept]),
                  stray := s.stray + s.session.wire)
    ensures Next(cfg, s, EndSession) == s.(session := Session(Down, false, false, [], []), stray := s.stray + s.session.wire)
  {
  }

  lemma StrayArrives(cfg: Config, s: State, e: EventId, rest: seq<EventId>)
    requires HoldersOk(s) && e in s.rows && s.stray == [e] + rest
    ensures var t := Next(cfg, s, StrayTake);
      && Moved(s, t, {}, e, s.rows[e].msg, cfg.events) && t.stray == rest
      && t.rows == s.rows && t.session == s.session && SameConsumer(s, t)
  {
    hide Enqueue;
    hide Moved;
    var c := NewCopy(e, s.rows[e].msg, Main);
    assert s.stray[1..] == rest;
    EnqueueMoved(s, c, cfg.events);
    EnqueueFrame(s, c, cfg.events);
    MovedThere(s, Enqueue(s, c, cfg.events), Next(cfg, s, StrayTake), e, c.msg, cfg.events);
  }
}
