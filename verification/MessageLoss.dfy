/**
  When the calculation pipeline does lose a message: nothing is bound to the key of events, or a
  failing message reaches a retry key that nothing is bound to. So no run loses an event exactly
  when the bindings do not let that happen.
 */
module MessageLoss {
  import opened CalcPipeline
  import opened MessageSafety
  import opened RabbitTopology

  ghost predicate Reach(cfg: Config, s: State, t: State) {
    exists run :: Exec(cfg, s, run) == t
  }

  lemma ReachSelf(cfg: Config, s: State)
    ensures Reach(cfg, s, s)
  {
    assert Exec(cfg, s, []) == s;
  }

  lemma ReachNext(cfg: Config, s: State, t: State, a: Action)
    requires Reach(cfg, s, t)
    ensures Reach(cfg, s, Next(cfg, t, a))
  {
    var run :| Exec(cfg, s, run) == t;
    assert (run + [a])[..|run + [a]| - 1] == run;
    assert Exec(cfg, s, run + [a]) == Next(cfg, t, a);
  }

  lemma {:induction false} ExecJoin(cfg: Config, s: State, a: seq<Action>, b: seq<Action>)
    ensures Exec(cfg, s, a + b) == Exec(cfg, Exec(cfg, s, a), b)
    decreases |b|
  {
    hide Next;
    if b == [] {
      assert a + b == a;
    } else {
      assert (a + b)[..|a + b| - 1] == a + b[..|b| - 1];
      ExecJoin(cfg, s, a, b[..|b| - 1]);
    }
  }

  lemma ReachTrans(cfg: Config, s: State, t: State, u: State)
    requires Reach(cfg, s, t) && Reach(cfg, t, u)
    ensures Reach(cfg, s, u)
  {
    var a :| Exec(cfg, s, a) == t;
    var b :| Exec(cfg, t, b) == u;
    ExecJoin(cfg, s, a, b);
  }

  // --- one failed execution -------------------------------------------------

  /** No handler is at work. Everything but the copies and the counters is as in s. */
  ghost predicate Quiet(s: State) {
    s.handlers == map[] && forall id :: id in s.copies ==> id < s.next
  }

  ghost predicate SameElse(s: State, t: State) {
    SameOutbox(s, t) && t.completed == s.completed && t.replay == s.replay && t.replaying == s.replaying
  }

  /** The copies of t are those of s without one, and with n more of the copy c. */
  ghost predicate Replaced(s: State, t: State, id: nat, c: Copy, dests: seq<Dest>) {
    && t.next == s.next + |dests|
    && t.copies == Enqueue(s.(copies := Without(s.copies, id)), c, dests).copies
  }

  ghost predicate AtStage(s: State, t: State, id: nat, x: Handler) {
    && SameElse(s, t) && t.next == s.next && t.handlers == map[0 := x] && id in s.copies && x.copy == id && x.live
    && t.copies == s.copies[id := s.copies[id].(place := Held(ByHandler(0), false))]
  }

  lemma DeliverStep(cfg: Config, s: State, id: nat)
    requires Quiet(s) && id in s.copies && s.copies[id].place.Main?
    ensures var m := s.copies[id];
      AtStage(s, Next(cfg, s, Deliver(id, 0)), id, Handler(id, m.event, m.msg, true, Received, m.first, m.runs, m.levels))
  {
  }

  lemma LocalStep(cfg: Config, s: State, t: State, id: nat, x: Handler, a: Action)
    requires AtStage(s, t, id, x) && IsLocal(a) && a.h == 0
    ensures AtStage(s, Next(cfg, t, a), id, HandlerNext(x, a))
  {
    HandlerNextFrame(x, a);
    hide HandlerNext;
    var u := LocalNext(t, a);
    assert Next(cfg, t, a) == u;
    hide Next;
    assert u.handlers == map[0 := HandlerNext(x, a)];
  }

  lemma RepublishStep(cfg: Config, s: State, t: State, id: nat, x: Handler)
    requires AtStage(s, t, id, x) && x.stage.Routed? && id < s.next
    ensures var u := Next(cfg, t, Republish(0));
      && SameElse(s, u) && u.next == s.next + |NextDests(cfg, x)| && u.handlers == map[0 := x.(stage := Republished)]
      && id in u.copies
      && Without(u.copies, id) == Enqueue(s.(copies := Without(s.copies, id)), NextCopy(cfg, x), NextDests(cfg, x)).copies
  {
    hide NextCopy;
    hide NextDests;
    hide Enqueue;
    var c, dests := NextCopy(cfg, x), NextDests(cfg, x);
    var held := t.copies[id].(place := Held(ByHandler(0), true));
    var u := t.(copies := t.copies[id := held], handlers := t.handlers[0 := x.(stage := Republished)]);
    assert u.handlers == map[0 := x.(stage := Republished)] && u.copies == s.copies[id := held];
    assert Next(cfg, t, Republish(0)) == Enqueue(u, c, dests);
    EnqueueFrame(u, c, dests);
    EnqueueSame(u, s.(copies := s.copies[id := held]), c, dests);
    EnqueueBeside(s, id, held, c, dests);
  }

  /** Adding copies and removing an older one commute. */
  lemma EnqueueBeside(s: State, id: nat, held: Copy, c: Copy, dests: seq<Dest>)
    requires id < s.next
    ensures Without(Enqueue(s.(copies := s.copies[id := held]), c, dests).copies, id)
            == Enqueue(s.(copies := Without(s.copies, id)), c, dests).copies
    ensures id in Enqueue(s.(copies := s.copies[id := held]), c, dests).copies
  {
    hide PlaceOf;
    var a := Enqueue(s.(copies := s.copies[id := held]), c, dests).copies;
    var b := Enqueue(s.(copies := Without(s.copies, id)), c, dests).copies;
    forall k ensures k in Without(a, id) <==> k in b { }
    forall k | k in b ensures k in Without(a, id) && Without(a, id)[k] == b[k] { }
  }

  lemma FinishStep(cfg: Config, s: State, t: State, id: nat, x: Handler)
    requires t.handlers == map[0 := x] && x.stage.Republished? && x.live && x.copy == id && id in t.copies && SameElse(s, t)
    ensures var u := Next(cfg, t, Finish(0));
      SameElse(s, u) && u.next == t.next && u.handlers == map[] && u.copies == Without(t.copies, id)
  {
    var u := Finishes(cfg, t, 0);
    assert u.handlers == map[];
  }

  /** A message the service still retries, waiting in the main queue or for it. */
  predicate Retryable(c: Copy) {
    c.msg.decodes && c.msg.maxAttempts == 5 && 1 <= c.msg.attempt < 5
  }

  /** What a failed execution publishes: the next attempt. */
  function Failed(cfg: Config, c: Copy): Copy
    requires cfg.levels > 0
  {
    Copy(c.event, Message(true, c.msg.Attempt() + 1, c.msg.MaxAttempts()), Main, c.first, c.runs + 1,
         c.levels + [PickRetryLevel(c.msg.Attempt() + 1, cfg.levels)], {})
  }

  /** Delivered, run, failed, routed, published again, acknowledged. */
  lemma FailOnce(cfg: Config, s: State, id: nat) returns (t: State)
    requires Quiet(s) && cfg.levels > 0 && id in s.copies && s.copies[id].place.Main? && Retryable(s.copies[id])
    ensures Reach(cfg, s, t) && SameElse(s, t) && t.handlers == map[]
    ensures Replaced(s, t, id, Failed(cfg, s.copies[id]),
                     cfg.RetryDests(PickRetryLevel(s.copies[id].msg.attempt + 1, cfg.levels)))
  {
    hide Next;
    hide Enqueue;
    var m := s.copies[id];
    var x := Handler(id, m.event, m.msg, true, Received, m.first, m.runs, m.levels);
    ReachSelf(cfg, s);
    t := s;
    DeliverStep(cfg, t, id);
    ReachNext(cfg, s, t, Deliver(id, 0));
    t := Next(cfg, t, Deliver(id, 0));
    t, x := LocalStepReach(cfg, s, t, id, x, Run(0));
    t, x := LocalStepReach(cfg, s, t, id, x, Fail(0, false));
    t, x := LocalStepReach(cfg, s, t, id, x, Route(0));
    RepublishStep(cfg, s, t, id, x);
    ReachNext(cfg, s, t, Republish(0));
    t := Next(cfg, t, Republish(0));
    FinishStep(cfg, s, t, id, x.(stage := Republished));
    ReachNext(cfg, s, t, Finish(0));
    t := Next(cfg, t, Finish(0));
  }

  lemma LocalStepReach(cfg: Config, s: State, t: State, id: nat, x: Handler, a: Action) returns (u: State, y: Handler)
    requires AtStage(s, t, id, x) && Reach(cfg, s, t) && IsLocal(a) && a.h == 0
    ensures y == HandlerNext(x, a) && u == Next(cfg, t, a)
    ensures AtStage(s, u, id, y) && Reach(cfg, s, u)
  {
    u, y := Next(cfg, t, a), HandlerNext(x, a);
    LocalStep(cfg, s, t, id, x, a);
    ReachNext(cfg, s, t, a);
  }

  function Trail(c: Copy): set<string>
    requires c.place.Retry?
  {
    c.trail + {c.place.queue}
  }

  lemma ExpireOnce(cfg: Config, s: State, id: nat) returns (t: State)
    requires Quiet(s) && id in s.copies && s.copies[id].place.Retry?
    ensures Reach(cfg, s, t) && SameElse(s, t) && t.handlers == map[]
    ensures var c := s.copies[id];
      Replaced(s, t, id, c.(trail := Trail(c)), FirstVisits(cfg.main, Trail(c)))
  {
    hide FirstVisits;
    ReachSelf(cfg, s);
    ReachNext(cfg, s, s, Expire(id));
    t := Next(cfg, s, Expire(id));
  }

  // --- failing until nothing is left ----------------------------------------

  /** The level a message of this attempt number is lost at is still ahead. */
  predicate OnTheWay(cfg: Config, level: nat, attempt: int) {
    cfg.levels > 0 && PickRetryLevel(attempt + 1, cfg.levels) <= level
  }

  /** Everything but this copy is as it was. */
  ghost predicate Erased(s: State, t: State, id: nat) {
    SameElse(s, t) && Quiet(t) && t.next >= s.next && t.copies == Without(s.copies, id)
  }

  function RetryQueues(dests: seq<Dest>): set<string> {
    set d | d in dests && d.ToRetry? :: d.queue
  }

  /** How often a copy can still pass from one retry queue to the next. */
  function Rank(cfg: Config, c: Copy): nat {
    if c.place.Retry? then 1 + |RetryQueues(cfg.main) - Trail(c)| else 0
  }

  predicate Erasable(cfg: Config, level: nat, c: Copy) {
    (c.place.Main? || (c.place.Retry? && ToDead !in cfg.main)) && Retryable(c) && OnTheWay(cfg, level, c.msg.attempt)
  }

  ghost predicate LosingConfig(cfg: Config, level: nat) {
    cfg.Valid() && LosesAt(cfg, level) && forall l: nat :: l < level ==> cfg.RetryDests(l) != []
  }

  /** Copies that leave nothing in the dead queue are placed where they can be erased. */
  lemma PlacedErasable(cfg: Config, level: nat, c: Copy, dests: seq<Dest>, d: Dest)
    requires d in dests && !LeavesDead(cfg, dests) && Retryable(c) && OnTheWay(cfg, level, c.msg.attempt)
    ensures Erasable(cfg, level, c.(place := PlaceOf(d)))
    ensures Rank(cfg, c.(place := PlaceOf(d))) <= 1 + |RetryQueues(cfg.main)|
  {
    hide OnTheWay;
    var x := c.(place := PlaceOf(d));
    if x.place.Retry? { SmallerSet(RetryQueues(cfg.main) - Trail(x), RetryQueues(cfg.main)); }
  }

  lemma {:induction false} SmallerSet(a: set<string>, b: set<string>)
    requires a <= b
    ensures |a| <= |b|
  {
    if a != {} {
      var x :| x in a;
      SmallerSet(a - {x}, b - {x});
    }
  }

  /** The copies of the range can be erased, one after the other. */
  ghost predicate ErasableRange(cfg: Config, level: nat, s: State, lo: nat, n: nat, attempt: int, bound: nat) {
    forall k :: lo <= k < lo + n ==>
      k in s.copies && Erasable(cfg, level, s.copies[k]) && s.copies[k].msg.attempt == attempt
      && Rank(cfg, s.copies[k]) <= bound
  }

  /** The new copies stand in the destinations, the others are the old ones. */
  lemma ReplacedParts(s: State, t: State, id: nat, c: Copy, dests: seq<Dest>)
    requires Quiet(s) && id in s.copies && Replaced(s, t, id, c, dests) && t.handlers == map[]
    ensures Quiet(t) && t.next == s.next + |dests|
    ensures (map k | k in t.copies && !(s.next <= k < s.next + |dests|) :: t.copies[k]) == Without(s.copies, id)
    ensures forall k :: s.next <= k < s.next + |dests| ==>
      k in t.copies && t.copies[k] == c.(place := PlaceOf(dests[k - s.next]))
  {
    hide PlaceOf;
    forall k | s.next <= k < s.next + |dests|
      ensures k in t.copies && t.copies[k] == c.(place := PlaceOf(dests[k - s.next]))
    {
      assert t.copies[k] == Placed(c, dests, s.next, k);
    }
  }

  /** A retry queue hands the copy on, to queues it has not been in before. */
  lemma ExpiredErasable(cfg: Config, level: nat, s: State, id: nat) returns (u: State, n: nat)
    requires Quiet(s) && id in s.copies && Erasable(cfg, level, s.copies[id]) && s.copies[id].place.Retry?
    ensures Reach(cfg, s, u) && SameElse(s, u) && Quiet(u) && u.next == s.next + n
    ensures ErasableRange(cfg, level, u, s.next, n, s.copies[id].msg.attempt, Rank(cfg, s.copies[id]) - 1)
    ensures (map k | k in u.copies && !(s.next <= k < s.next + n) :: u.copies[k]) == Without(s.copies, id)
  {
    hide Reach;
    hide FirstVisits;
    hide OnTheWay;
    var c := s.copies[id];
    var trail := Trail(c);
    var dests := FirstVisits(cfg.main, trail);
    u := ExpireOnce(cfg, s, id);
    n := |dests|;
    ReplacedParts(s, u, id, c.(trail := trail), dests);
    forall k | s.next <= k < s.next + n
      ensures Erasable(cfg, level, u.copies[k]) && Rank(cfg, u.copies[k]) <= Rank(cfg, c) - 1
    {
      var d := dests[k - s.next];
      FirstVisitsKeep(cfg.main, trail, d);
      assert d in dests;
      NextRank(cfg, c, d, u.copies[k]);
    }
  }

  lemma NextRank(cfg: Config, c: Copy, d: Dest, x: Copy)
    requires c.place.Retry? && d in cfg.main && !(d.ToRetry? && d.queue in Trail(c))
    requires x == c.(trail := Trail(c), place := PlaceOf(d))
    ensures Rank(cfg, x) <= Rank(cfg, c) - 1
  {
    if d.ToRetry? {
      var all := RetryQueues(cfg.main);
      assert d.queue in all - Trail(c);
      assert all - Trail(x) == (all - Trail(c)) - {d.queue};
    }
  }

  /** A failed execution puts copies of the next attempt on their way, or none. */
  lemma FailedErasable(cfg: Config, level: nat, s: State, id: nat) returns (u: State, n: nat)
    requires LosingConfig(cfg, level) && Quiet(s) && id in s.copies && Erasable(cfg, level, s.copies[id])
    requires s.copies[id].place.Main?
    ensures Reach(cfg, s, u) && SameElse(s, u) && Quiet(u) && u.next == s.next + n
    ensures n > 0 ==> s.copies[id].msg.attempt < 4
    ensures ErasableRange(cfg, level, u, s.next, n, s.copies[id].msg.attempt + 1, 1 + |RetryQueues(cfg.main)|)
    ensures (map k | k in u.copies && !(s.next <= k < s.next + n) :: u.copies[k]) == Without(s.copies, id)
  {
    hide Reach;
    var c := s.copies[id];
    u := FailOnce(cfg, s, id);
    var dests := cfg.RetryDests(PickRetryLevel(c.msg.attempt + 1, cfg.levels));
    n := |dests|;
    NextOnTheWay(cfg, level, c.msg.attempt);
    ReplacedParts(s, u, id, Failed(cfg, c), dests);
    hide OnTheWay;
    hide Replaced;
    hide LosingConfig;
    hide LeavesDead;
    hide Erasable;
    hide Rank;
    forall k | s.next <= k < s.next + n
      ensures Erasable(cfg, level, u.copies[k]) && Rank(cfg, u.copies[k]) <= 1 + |RetryQueues(cfg.main)|
    {
      PlacedErasable(cfg, level, Failed(cfg, c), dests, dests[k - s.next]);
    }
  }

  lemma NextOnTheWay(cfg: Config, level: nat, attempt: int)
    requires LosingConfig(cfg, level) && OnTheWay(cfg, level, attempt) && 1 <= attempt < 5
    ensures var pick := PickRetryLevel(attempt + 1, cfg.levels);
      && !LeavesDead(cfg, cfg.RetryDests(pick))
      && (cfg.RetryDests(pick) != [] ==> attempt + 1 < 5 && OnTheWay(cfg, level, attempt + 1))
  {
    var pick := PickRetryLevel(attempt + 1, cfg.levels);
    assert pick < |cfg.retry| && cfg.RetryDests(pick) == cfg.retry[pick];
    if pick < level {
      RetryLevelsNeverDecrease(attempt + 1, attempt + 1, cfg.levels);
    }
  }

  /** A copy that keeps failing, with every copy of its next attempts, leaves nothing behind. */
  lemma {:induction false} Erase(cfg: Config, level: nat, s: State, id: nat) returns (t: State)
    requires LosingConfig(cfg, level) && Quiet(s) && id in s.copies && Erasable(cfg, level, s.copies[id])
    ensures Reach(cfg, s, t) && Erased(s, t, id)
    decreases 5 - s.copies[id].msg.attempt, Rank(cfg, s.copies[id]), 0, 0
  {
    hide Reach;
    hide LosingConfig;
    hide ErasableRange;
    hide OnTheWay;
    var attempt := s.copies[id].msg.attempt;
    var u, n;
    if s.copies[id].place.Retry? {
      u, n := ExpiredErasable(cfg, level, s, id);
      t := EraseRange(cfg, level, u, s.next, n, attempt, Rank(cfg, s.copies[id]) - 1);
    } else {
      u, n := FailedErasable(cfg, level, s, id);
      t := EraseRange(cfg, level, u, s.next, n, attempt + 1, 1 + |RetryQueues(cfg.main)|);
    }
    ReachTrans(cfg, s, u, t);
  }

  /** The n copies from lo on are erased one after the other. */
  lemma {:induction false} EraseRange(cfg: Config, level: nat, s: State, lo: nat, n: nat, attempt: int, bound: nat)
    returns (t: State)
    requires LosingConfig(cfg, level) && Quiet(s) && lo + n <= s.next && (n > 0 ==> attempt < 5)
    requires ErasableRange(cfg, level, s, lo, n, attempt, bound)
    ensures Reach(cfg, s, t) && SameElse(s, t) && Quiet(t) && t.next >= s.next
    ensures t.copies == map k | k in s.copies && !(lo <= k < lo + n) :: s.copies[k]
    decreases 5 - attempt, bound, 1, n
  {
    hide Reach;
    hide Erasable;
    hide LosingConfig;
    hide Rank;
    ReachSelf(cfg, s);
    if n == 0 {
      t := s;
    } else {
      var u := Erase(cfg, level, s, lo + n - 1);
      t := EraseRange(cfg, level, u, lo, n - 1, attempt, bound);
      ReachTrans(cfg, s, u, t);
    }
  }

  // --- publishing -----------------------------------------------------------

  const WRITTEN := Message(true, 1, 5)

  /** The states of the publisher's part of the run: event 0 is inserted, published, confirmed, marked. */
  function PublishState(cfg: Config, k: nat): State {
    var session := match k
      case 0 => OFFLINE
      case 1 => OFFLINE
      case 2 => Session(Head([]), true, false, [], [])
      case 3 => Session(Head([0]), true, false, [], [])
      case 4 => Session(Await(0, []), true, false, [0], [])
      case 5 => Session(Await(0, []), true, false, [], [Confirm(0, true)])
      case 6 => Session(Marking(0, []), true, false, [], [])
      case _ => Session(Head([]), true, false, [], []);
    var s := State(if k == 0 then map[] else map[0 := Row(WRITTEN, k >= 7)], session, [], if k < 5 then {} else {0},
                   map[], 0, map[], 0, 0, 0, {}, 0, false);
    if k < 5 then s else Enqueue(s, NewCopy(0, WRITTEN, Main), cfg.events)
  }

  lemma InsertStep(cfg: Config)
    ensures Next(cfg, PublishState(cfg, 0), Insert(0, WRITTEN)) == PublishState(cfg, 1)
  {
    assert Inserts(PublishState(cfg, 0), 0, WRITTEN) == PublishState(cfg, 1);
  }

  lemma SessionIs(cfg: Config, s: State, a: Action)
    requires a.Connect? || a.Fetch? || a.Publish? || a.ReadConfirm?
    ensures Next(cfg, s, a) == s.(session := SessionNext(s.rows, s.session, a))
  {
    hide SessionNext;
  }

  lemma SendSteps(cfg: Config)
    ensures Next(cfg, PublishState(cfg, 1), Connect) == PublishState(cfg, 2)
    ensures Next(cfg, PublishState(cfg, 2), Fetch([0])) == PublishState(cfg, 3)
    ensures Next(cfg, PublishState(cfg, 3), Publish) == PublishState(cfg, 4)
  {
    hide Next;
    hide Enqueue;
    SessionIs(cfg, PublishState(cfg, 1), Connect);
    SessionIs(cfg, PublishState(cfg, 2), Fetch([0]));
    SessionIs(cfg, PublishState(cfg, 3), Publish);
    var todo: seq<EventId> := [0];
    assert todo[1..] == [] && [] + [todo[0]] == [0];
  }

  /** Enqueueing depends on the copies only. */
  lemma EnqueueOn(s: State, t: State, c: Copy, dests: seq<Dest>)
    requires SameCopies(s, t)
    ensures Enqueue(t, c, dests) == t.(copies := Enqueue(s, c, dests).copies, next := Enqueue(s, c, dests).next)
  {
  }

  lemma BrokerStep(cfg: Config)
    ensures Next(cfg, PublishState(cfg, 4), BrokerTake(true)) == PublishState(cfg, 5)
  {
    var s, c := PublishState(cfg, 4), NewCopy(0, WRITTEN, Main);
    NextBrokerTake(cfg, s);
    hide Next;
    hide Enqueue;
    var u := s.(session := s.session.(wire := [], confirms := [Confirm(0, true)]));
    assert BrokerTakes(cfg, s, true) == Enqueue(u, c, cfg.events).(acked := {0});
    EnqueueOn(s, u, c, cfg.events);
    EnqueueOn(s, u.(acked := {0}), c, cfg.events);
    assert PublishState(cfg, 5) == Enqueue(u.(acked := {0}), c, cfg.events);
  }

  lemma NextBrokerTake(cfg: Config, s: State)
    ensures Next(cfg, s, BrokerTake(true)) == BrokerTakes(cfg, s, true)
  {
    hide BrokerTakes;
  }

  /** What the publisher's last two steps find and leave beside the copies. */
  lemma PublishedParts(cfg: Config, k: nat)
    requires 5 <= k <= 7
    ensures var s, t := PublishState(cfg, 5), PublishState(cfg, k);
      && t == s.(session := t.session, rows := map[0 := Row(WRITTEN, k >= 7)])
      && t.session == (if k == 5 then Session(Await(0, []), true, false, [], [Confirm(0, true)])
                       else if k == 6 then Session(Marking(0, []), true, false, [], [])
                       else Session(Head([]), true, false, [], []))
  {
  }

  lemma ReadStep(cfg: Config)
    ensures Next(cfg, PublishState(cfg, 5), ReadConfirm) == PublishState(cfg, 6)
  {
    PublishedParts(cfg, 5);
    PublishedParts(cfg, 6);
    hide Next;
    hide PublishState;
    SessionIs(cfg, PublishState(cfg, 5), ReadConfirm);
  }

  lemma MarkStep(cfg: Config)
    ensures Next(cfg, PublishState(cfg, 6), MarkPublished) == PublishState(cfg, 7)
  {
    PublishedParts(cfg, 6);
    PublishedParts(cfg, 7);
    NextMark(cfg, PublishState(cfg, 6));
    hide Next;
    hide PublishState;
  }

  lemma NextMark(cfg: Config, s: State)
    ensures Next(cfg, s, MarkPublished) == Marks(s)
  {
    hide Marks;
  }

  lemma PublishedReach(cfg: Config)
    ensures Reach(cfg, INIT, PublishState(cfg, 7))
  {
    hide Next;
    hide Reach;
    InsertStep(cfg); SendSteps(cfg); BrokerStep(cfg); ReadStep(cfg); MarkStep(cfg);
    ReachSelf(cfg, INIT);
    assert INIT == PublishState(cfg, 0);
    hide PublishState;
    ReachNext(cfg, INIT, PublishState(cfg, 0), Insert(0, WRITTEN));
    ReachNext(cfg, INIT, PublishState(cfg, 1), Connect);
    ReachNext(cfg, INIT, PublishState(cfg, 2), Fetch([0]));
    ReachNext(cfg, INIT, PublishState(cfg, 3), Publish);
    ReachNext(cfg, INIT, PublishState(cfg, 4), BrokerTake(true));
    ReachNext(cfg, INIT, PublishState(cfg, 5), ReadConfirm);
    ReachNext(cfg, INIT, PublishState(cfg, 6), MarkPublished);
  }

  lemma PublishedCopies(cfg: Config)
    ensures var s := PublishState(cfg, 7);
      && Quiet(s) && s.next == |cfg.events| && s.completed == {} && s.rows == map[0 := Row(WRITTEN, true)]
      && (forall k :: k in s.copies <==> 0 <= k < |cfg.events|)
      && forall k :: 0 <= k < |cfg.events| ==> s.copies[k] == NewCopy(0, WRITTEN, Main).(place := PlaceOf(cfg.events[k]))
  {
    hide PlaceOf;
    var s, c := PublishState(cfg, 7), NewCopy(0, WRITTEN, Main);
    forall k | 0 <= k < |cfg.events| ensures s.copies[k] == c.(place := PlaceOf(cfg.events[k])) {
      assert s.copies[k] == Placed(c, cfg.events, 0, k);
    }
  }

  lemma FirstLosingLevel(cfg: Config, level: nat) returns (first: nat)
    requires LosesAt(cfg, level)
    ensures first <= level && LosesAt(cfg, first) && forall l: nat :: l < first ==> cfg.RetryDests(l) != []
    decreases level
  {
    if l: nat :| l < level && cfg.RetryDests(l) == [] {
      assert LosesAt(cfg, l);
      first := FirstLosingLevel(cfg, l);
    } else {
      first := level;
    }
  }

  /** The copies of a message as the service writes it can all be erased. */
  lemma PublishedErasable(cfg: Config, level: nat)
    requires LosingConfig(cfg, level) && !LeavesDead(cfg, cfg.events)
    ensures ErasableRange(cfg, level, PublishState(cfg, 7), 0, |cfg.events|, 1, 1 + |RetryQueues(cfg.main)|)
  {
    PublishedCopies(cfg);
    hide PublishState;
    hide LeavesDead;
    hide Erasable;
    hide Rank;
    assert cfg.levels > 0 && PickRetryLevel(2, cfg.levels) == 0;
    forall k | 0 <= k < |cfg.events|
      ensures Erasable(cfg, level, PublishState(cfg, 7).copies[k])
      ensures Rank(cfg, PublishState(cfg, 7).copies[k]) <= 1 + |RetryQueues(cfg.main)|
    {
      PlacedErasable(cfg, level, NewCopy(0, WRITTEN, Main), cfg.events, cfg.events[k]);
    }
  }

  /** A message as the service writes it, published and marked, fails until nothing is left of it, or reaches no queue. */
  lemma LosingRun(cfg: Config) returns (run: seq<Action>)
    requires cfg.Valid() && Lossy(cfg)
    ensures !NoLoss(Exec(cfg, INIT, run))
  {
    hide Next;
    var s := PublishState(cfg, 7);
    PublishedReach(cfg);
    PublishedCopies(cfg);
    hide PublishState;
    var t := s;
    if cfg.events != [] {
      var some: nat :| LosesAt(cfg, some);
      var level := FirstLosingLevel(cfg, some);
      PublishedErasable(cfg, level);
      t := EraseRange(cfg, level, s, 0, |cfg.events|, 1, 1 + |RetryQueues(cfg.main)|);
      ReachTrans(cfg, INIT, s, t);
    }
    run :| Exec(cfg, INIT, run) == t;
    assert 0 in t.rows && t.rows[0].published && t.copies == map[];
  }

  /** No run loses a published event if and only if the bindings are not lossy. */
  lemma NoLossIff(cfg: Config)
    requires cfg.Valid()
    ensures (forall run :: NoLoss(Exec(cfg, INIT, run))) <==> !Lossy(cfg)
  {
    hide Next;
    hide Lossy;
    if Lossy(cfg) {
      var run := LosingRun(cfg);
    } else {
      forall run ensures NoLoss(Exec(cfg, INIT, run)) { NoLossAlways(cfg, run); }
    }
  }

  // --- in terms of the two configurations -----------------------------------

  /** A message with this key leaves a copy in the dead queue, at once or when a retry queue expires. */
  ghost predicate KeyLeavesDead(cfg: RabbitConfig, p: PublisherConfig, key: string) {
    || BoundTo(cfg, p, key, cfg.deadQueue)
    || (BoundTo(cfg, p, cfg.mainRoutingKey, cfg.deadQueue)
        && exists q :: BoundTo(cfg, p, key, q) && q != cfg.mainQueue && q != cfg.deadQueue)
  }

  ghost predicate KeyUnbound(cfg: RabbitConfig, p: PublisherConfig, key: string) {
    forall q :: !BoundTo(cfg, p, key, q)
  }

  /** Neither side binds the retry key of this level, and no earlier one leaves a copy in the dead queue. */
  ghost predicate KeyLost(cfg: RabbitConfig, p: PublisherConfig, level: nat) {
    && level < |cfg.retryRoutingKeys| && level < 3
    && KeyUnbound(cfg, p, cfg.retryRoutingKeys[level])
    && (forall l: nat :: l < level ==> !KeyLeavesDead(cfg, p, cfg.retryRoutingKeys[l]))
  }

  /**
    What an operator can check: nothing is bound to the fixed key of events; or that key leaves no
    copy in the dead queue and some retry key a worker can pick is lost.
   */
  ghost predicate KeysLose(cfg: RabbitConfig, p: PublisherConfig) {
    || KeyUnbound(cfg, p, EVENT_KEY)
    || (!KeyLeavesDead(cfg, p, EVENT_KEY) && exists level: nat :: KeyLost(cfg, p, level))
  }

  lemma DestsAre(cfg: RabbitConfig, p: PublisherConfig, key: string, queues: seq<string>)
    requires queues == QueuesFor(AllDeclarations(cfg, p), key)
    ensures var d := DestsFor(cfg, p, key);
      |d| == |queues| && forall i :: 0 <= i < |d| ==> d[i] == DestOf(cfg, queues[i])
    ensures forall q :: q in queues <==> BoundTo(cfg, p, key, q)
  {
    hide QueuesFor;
    hide AllDeclarations;
    QueuesForExact(AllDeclarations(cfg, p), key);
  }

  ghost predicate Comes(cfg: RabbitConfig, queues: seq<string>, d: Dest) {
    exists q :: q in queues && DestOf(cfg, q) == d
  }

  lemma DestsCome(cfg: RabbitConfig, queues: seq<string>, dests: seq<Dest>, d: Dest)
    requires |dests| == |queues| && forall i :: 0 <= i < |dests| ==> dests[i] == DestOf(cfg, queues[i])
    ensures d in dests <==> Comes(cfg, queues, d)
  {
    hide DestOf;
    if d in dests {
      var i :| 0 <= i < |dests| && dests[i] == d;
      assert queues[i] in queues;
    }
    if Comes(cfg, queues, d) {
      var q :| q in queues && DestOf(cfg, q) == d;
      var i :| 0 <= i < |queues| && queues[i] == q;
      assert dests[i] == d;
    }
  }

  /** The kinds of queues in a list. */
  lemma QueueKinds(cfg: RabbitConfig, queues: seq<string>, dests: seq<Dest>)
    requires cfg.mainQueue != cfg.deadQueue
    requires |dests| == |queues| && forall i :: 0 <= i < |dests| ==> dests[i] == DestOf(cfg, queues[i])
    ensures ToMain in dests <==> cfg.mainQueue in queues
    ensures ToDead in dests <==> cfg.deadQueue in queues
    ensures HasRetry(dests) <==> exists q :: q in queues && q != cfg.mainQueue && q != cfg.deadQueue
  {
    DestsCome(cfg, queues, dests, ToMain);
    DestsCome(cfg, queues, dests, ToDead);
    if HasRetry(dests) {
      var d :| d in dests && d.ToRetry?;
      DestsCome(cfg, queues, dests, d);
    }
    if q :| q in queues && q != cfg.mainQueue && q != cfg.deadQueue {
      DestsCome(cfg, queues, dests, ToRetry(q));
      assert Comes(cfg, queues, ToRetry(q));
    }
  }

  lemma DestsExact(cfg: RabbitConfig, p: PublisherConfig, key: string)
    requires cfg.mainQueue != cfg.deadQueue
    ensures var d := DestsFor(cfg, p, key);
      && (ToMain in d <==> BoundTo(cfg, p, key, cfg.mainQueue))
      && (ToDead in d <==> BoundTo(cfg, p, key, cfg.deadQueue))
      && (HasRetry(d) <==> exists q :: BoundTo(cfg, p, key, q) && q != cfg.mainQueue && q != cfg.deadQueue)
      && (d == [] <==> KeyUnbound(cfg, p, key))
  {
    var queues, d := QueuesFor(AllDeclarations(cfg, p), key), DestsFor(cfg, p, key);
    DestsAre(cfg, p, key, queues);
    hide QueuesFor;
    hide AllDeclarations;
    hide DestsFor;
    hide BoundTo;
    hide DestOf;
    hide HasRetry;
    QueueKinds(cfg, queues, d);
    if d != [] { assert queues[0] in queues; }
  }

  lemma PipelineConfigValid(cfg: RabbitConfig, p: PublisherConfig)
    requires cfg.mainQueue != cfg.deadQueue
    ensures PipelineConfig(cfg, p).Valid()
  {
    hide DestsFor;
    DestsExact(cfg, p, cfg.mainRoutingKey);
    DestsExact(cfg, p, cfg.deadRoutingKey);
    var ends := EndDeclarations(cfg.mainQueue, cfg.mainRoutingKey, cfg.deadQueue, cfg.deadRoutingKey);
    assert ends[0] in AllDeclarations(cfg, p) && ends[1] in AllDeclarations(cfg, p);
    assert BoundTo(cfg, p, ends[0].key, ends[0].queue) && BoundTo(cfg, p, ends[1].key, ends[1].queue);
  }

  lemma LeavesDeadIff(cfg: RabbitConfig, p: PublisherConfig, key: string)
    requires cfg.mainQueue != cfg.deadQueue
    ensures LeavesDead(PipelineConfig(cfg, p), DestsFor(cfg, p, key)) <==> KeyLeavesDead(cfg, p, key)
  {
    hide DestsFor;
    hide BoundTo;
    hide HasRetry;
    DestsExact(cfg, p, key);
    DestsExact(cfg, p, cfg.mainRoutingKey);
  }

  lemma LossyIff(cfg: RabbitConfig, p: PublisherConfig)
    requires cfg.mainQueue != cfg.deadQueue
    ensures Lossy(PipelineConfig(cfg, p)) <==> KeysLose(cfg, p)
  {
    hide DestsFor;
    hide LeavesDead;
    hide KeyLeavesDead;
    hide KeyUnbound;
    var c := PipelineConfig(cfg, p);
    DestsExact(cfg, p, EVENT_KEY);
    LeavesDeadIff(cfg, p, EVENT_KEY);
    forall l: nat | l < |c.retry|
      ensures c.retry[l] == [] <==> KeyUnbound(cfg, p, cfg.retryRoutingKeys[l])
      ensures LeavesDead(c, c.retry[l]) <==> KeyLeavesDead(cfg, p, cfg.retryRoutingKeys[l])
    {
      DestsExact(cfg, p, cfg.retryRoutingKeys[l]);
      LeavesDeadIff(cfg, p, cfg.retryRoutingKeys[l]);
    }
    forall level: nat ensures LosesAt(c, level) <==> KeyLost(cfg, p, level) {
    }
  }

  /**
    For every consumer configuration and every publisher configuration with the same main and
    dead queue and key: keys that do not lose keep every published event in every run; and when
    both sides can declare their queues, keys that do lose have a run that loses one.
   */
  lemma ConfiguredPipelineKeepsMessages(cfg: RabbitConfig, p: PublisherConfig)
    requires Agree(cfg, p)
    ensures !KeysLose(cfg, p) ==> forall run :: NoLoss(Exec(PipelineConfig(cfg, p), INIT, run))
    ensures CanDeclare(cfg, p) ==>
      ((forall run :: NoLoss(Exec(PipelineConfig(cfg, p), INIT, run))) <==> !KeysLose(cfg, p))
  {
    hide KeysLose;
    hide PipelineConfig;
    hide CanDeclare;
    PipelineConfigValid(cfg, p);
    NoLossIff(PipelineConfig(cfg, p));
    LossyIff(cfg, p);
  }

  /** The server names no retry queues; so the default keys keep every message, whatever queues the worker names. */
  lemma DefaultKeysKeepMessages(cfg: RabbitConfig, p: PublisherConfig, run: seq<Action>)
    requires cfg.mainRoutingKey in {"", EVENT_KEY}
    requires cfg.retryRoutingKeys == [] && (cfg.retryQueues == [] || p.retryQueues == [])
    requires Agree(NormalizeRabbitConfig(cfg), NormalizePublisherConfig(p))
    ensures NoLoss(Exec(PipelineConfig(NormalizeRabbitConfig(cfg), NormalizePublisherConfig(p)), INIT, run))
  {
    var r, q := NormalizeRabbitConfig(cfg), NormalizePublisherConfig(p);
    DefaultConfigCovered(cfg, p);
    var ends := EndDeclarations(r.mainQueue, r.mainRoutingKey, r.deadQueue, r.deadRoutingKey);
    assert ends[0] in AllDeclarations(r, q);
    assert BoundTo(r, q, EVENT_KEY, r.mainQueue);
    forall level: nat ensures !KeyLost(r, q, level) {
      if level < |r.retryRoutingKeys| && level < 3 {
        assert KeyCovered(r, q, r.retryRoutingKeys[level]);
      }
    }
    ConfiguredPipelineKeepsMessages(r, q);
  }

  /** Under any other main key, with everything else left to the defaults, events are published to no queue. */
  lemma OtherMainKeyLoses(key: string)
    requires key != "" && key != EVENT_KEY
    ensures var cfg := NormalizeRabbitConfig(RabbitConfig("", key, "", "", [], [], 0));
      var p := NormalizePublisherConfig(PublisherConfig(key, "", []));
      && Agree(cfg, p) && CanDeclare(cfg, p)
      && exists run :: !NoLoss(Exec(PipelineConfig(cfg, p), INIT, run))
  {
    var cfg := NormalizeRabbitConfig(RabbitConfig("", key, "", "", [], [], 0));
    var p := NormalizePublisherConfig(PublisherConfig(key, "", []));
    DefaultDeclarations(key);
    ConfiguredPipelineKeepsMessages(cfg, p);
  }
}
