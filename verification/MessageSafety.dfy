/** The calculation pipeline keeps its messages: who holds which copy, and that no step loses an event. */
module MessageSafety {
  import opened CalcPipeline
  import opened ConfirmMatching
  import opened RabbitTopology

  // --- who holds which copy -------------------------------------------------

  /** What a handler works on against the message of its delivery. */
  predicate MsgOk(x: Handler, m: Message) {
    match x.stage
    case Received | Skipping => x.msg == m
    case Running | Succeeded | Failing(_) => x.msg == m && m.decodes
    case Routed(_) => m.decodes && x.msg.decodes && x.msg.attempt == m.Attempt() + 1
    case _ => true
  }

  /** A live handler's delivery is held in its name, spent once it has republished. */
  predicate HandlerOk(copies: map<nat, Copy>, h: nat, x: Handler) {
    x.live ==>
      && x.copy in copies && copies[x.copy].event == x.event
      && copies[x.copy].place == Held(ByHandler(h), x.stage.Republished?)
      && MsgOk(x, copies[x.copy].msg)
  }

  /** A held copy has its holder. */
  predicate HeldOk(handlers: map<nat, Handler>, replaying: bool, replay: nat, id: nat, c: Copy) {
    c.place.Held? ==>
      match c.place.holder
      case ByReplay => replaying && replay == id
      case ByHandler(h) => h in handlers && handlers[h].live && handlers[h].copy == id
  }

  ghost predicate Holding(copies: map<nat, Copy>, next: nat, handlers: map<nat, Handler>, replaying: bool, replay: nat) {
    && (forall id :: id in copies ==> id < next && HeldOk(handlers, replaying, replay, id, copies[id]))
    && (forall h :: h in handlers ==> HandlerOk(copies, h, handlers[h]))
    && (replaying ==> replay in copies && copies[replay].place.Held? && copies[replay].place.holder == ByReplay)
  }

  ghost predicate HoldersOk(s: State) {
    Holding(s.copies, s.next, s.handlers, s.replaying, s.replay)
  }

  lemma HoldersEnqueue(s: State, c: Copy, dests: seq<Dest>)
    requires HoldersOk(s)
    ensures HoldersOk(Enqueue(s, c, dests))
  {
    hide MsgOk;
  }

  /** A handler changes its stage; when it becomes spent its copy does too. */
  lemma HoldersStage(s: State, h: nat, x: Handler, copies: map<nat, Copy>)
    requires HoldersOk(s) && h in s.handlers
    requires x.copy == s.handlers[h].copy && x.event == s.handlers[h].event && x.live == s.handlers[h].live
    requires x.live ==> MsgOk(x, s.copies[x.copy].msg)
    requires if x.stage.Republished? == s.handlers[h].stage.Republished? then copies == s.copies
             else x.live && x.copy in s.copies
                  && copies == s.copies[x.copy := s.copies[x.copy].(place := Held(ByHandler(h), x.stage.Republished?))]
    ensures Holding(copies, s.next, s.handlers[h := x], s.replaying, s.replay)
  {
    hide MsgOk;
  }

  /** A handler is gone, or has lost its delivery; so its copy is gone or waits again. */
  lemma HoldersLeave(s: State, h: nat, handlers: map<nat, Handler>, copies: map<nat, Copy>)
    requires HoldersOk(s) && h in s.handlers
    requires handlers == Without(s.handlers, h)
             || handlers == s.handlers[h := s.handlers[h].(live := false)]
    requires if !s.handlers[h].live then copies == s.copies
             else copies == Without(s.copies, s.handlers[h].copy)
                  || exists c: Copy :: !c.place.Held? && copies == s.copies[s.handlers[h].copy := c]
    ensures Holding(copies, s.next, handlers, s.replaying, s.replay)
  {
    hide MsgOk;
    var me := s.handlers[h];
    forall g | g in handlers ensures HandlerOk(copies, g, handlers[g]) {
      assert HandlerOk(s.copies, g, s.handlers[g]) && HandlerOk(s.copies, h, me);
    }
  }

  lemma HoldersPublisher(cfg: Config, s: State, a: Action)
    requires HoldersOk(s)
    ensures HoldersOk(PublisherNext(cfg, s, a))
  {
    hide PublisherNext;
    hide Enqueue;
    hide Holding;
    PublisherFrame(cfg, s, a);
    if Arrives(s, a) {
      var e := if a.BrokerTake? then s.session.wire[0] else s.stray[0];
      HoldersEnqueue(s, NewCopy(e, s.rows[e].msg, Main), cfg.events);
      EnqueueFrame(s, NewCopy(e, s.rows[e].msg, Main), cfg.events);
    }
  }

  /** The replay tool takes, gives back or drops its copy. */
  lemma HoldersReplayMove(s: State, t: State)
    requires HoldersOk(s) && t.handlers == s.handlers && t.next == s.next
    requires || (!s.replaying && t.replaying && t.replay in s.copies && !s.copies[t.replay].place.Held?
                 && t.copies == s.copies[t.replay := s.copies[t.replay].(place := Held(ByReplay, false))])
             || (s.replaying && t.replaying && t.replay == s.replay && s.replay in s.copies
                 && t.copies == s.copies[s.replay := s.copies[s.replay].(place := Held(ByReplay, true))])
             || (s.replaying && !t.replaying && s.replay in s.copies
                 && (t.copies == Without(s.copies, s.replay)
                     || t.copies == s.copies[s.replay := s.copies[s.replay].(place := Dead)]))
    ensures HoldersOk(t)
  {
    hide MsgOk;
  }

  lemma HoldersReplay(cfg: Config, s: State, a: Action)
    requires HoldersOk(s)
    ensures HoldersOk(ReplayNext(cfg, s, a))
  {
    hide HoldersOk;
    hide Enqueue;
    var t := ReplayNext(cfg, s, a);
    if t != s {
      if a.ReplayPublish? {
        var m := s.copies[s.replay];
        var u := s.(copies := s.copies[s.replay := m.(place := Held(ByReplay, true))]);
        HoldersReplayMove(s, u);
        HoldersEnqueue(u, NewCopy(m.event, if a.rewritten || m.msg.decodes then m.msg.(attempt := 1) else m.msg, Main), cfg.events);
      } else {
        HoldersReplayMove(s, t);
      }
    }
  }

  lemma HoldersRepublish(cfg: Config, s: State, h: nat)
    requires HoldersOk(s) && h in s.handlers && s.handlers[h].stage.Routed?
    ensures HoldersOk(Republishes(cfg, s, h))
  {
    hide MsgOk;
    hide Holding;
    hide Enqueue;
    hide NextCopy;
    hide NextDests;
    var x := s.handlers[h];
    if x.live && x.copy in s.copies {
      var copies := s.copies[x.copy := s.copies[x.copy].(place := Held(ByHandler(h), true))];
      RepublishedMsgOk(x.(stage := Republished), s.copies[x.copy].msg);
      HoldersStage(s, h, x.(stage := Republished), copies);
      HoldersEnqueue(s.(copies := copies, handlers := s.handlers[h := x.(stage := Republished)]),
                     NextCopy(cfg, x), NextDests(cfg, x));
    }
  }

  lemma RepublishedMsgOk(x: Handler, m: Message)
    requires x.stage.Republished?
    ensures MsgOk(x, m)
  {
  }

  lemma HoldersReject(cfg: Config, s: State, h: nat)
    requires HoldersOk(s) && h in s.handlers && s.handlers[h].live && s.handlers[h].stage.Rejecting?
    ensures HoldersOk(Finishes(cfg, s, h))
  {
    hide HandlerOk;
    hide Enqueue;
    var x := s.handlers[h];
    LiveCopy(s, h);
    HoldersLeave(s, h, Without(s.handlers, h), Without(s.copies, x.copy));
    HoldersEnqueue(s.(handlers := Without(s.handlers, h), copies := Without(s.copies, x.copy)),
                   s.copies[x.copy].Fresh(Dead), cfg.dead);
  }

  lemma LiveCopy(s: State, h: nat)
    requires HoldersOk(s) && h in s.handlers && s.handlers[h].live
    ensures var c := s.handlers[h].copy;
      c in s.copies && c < s.next && s.copies[c].event == s.handlers[h].event
      && s.copies[c].place == Held(ByHandler(h), s.handlers[h].stage.Republished?)
  {
    assert HandlerOk(s.copies, h, s.handlers[h]);
  }

  /** An acknowledged copy is gone, a refused one waits again. */
  lemma HoldersAck(cfg: Config, s: State, h: nat)
    requires HoldersOk(s) && h in s.handlers && !(s.handlers[h].live && s.handlers[h].stage.Rejecting?)
    ensures HoldersOk(Finishes(cfg, s, h))
  {
    hide HandlerOk;
    hide HeldOk;
    hide Holding;
    hide Enqueue;
    var t := Finishes(cfg, s, h);
    if s.handlers[h].live { LiveCopy(s, h); }
    if t != s {
      HoldersLeave(s, h, t.handlers, t.copies);
    }
  }

  lemma HoldersFinish(cfg: Config, s: State, h: nat)
    requires HoldersOk(s) && h in s.handlers
    ensures HoldersOk(Finishes(cfg, s, h))
  {
    hide HoldersOk;
    hide Finishes;
    if s.handlers[h].live && s.handlers[h].stage.Rejecting? {
      HoldersReject(cfg, s, h);
    } else {
      HoldersAck(cfg, s, h);
    }
  }

  lemma HoldersExpire(cfg: Config, s: State, c: nat)
    requires HoldersOk(s)
    ensures HoldersOk(Expires(cfg, s, c))
  {
    hide MsgOk;
    hide Enqueue;
    hide FirstVisits;
    if c in s.copies && s.copies[c].place.Retry? {
      var t := s.(copies := Without(s.copies, c));
      assert HoldersOk(t);
      var trail := s.copies[c].trail + {s.copies[c].place.queue};
      HoldersEnqueue(t, s.copies[c].(trail := trail), FirstVisits(cfg.main, trail));
    }
  }

  lemma HoldersDeliver(s: State, c: nat, h: nat)
    requires HoldersOk(s)
    ensures HoldersOk(Delivers(s, c, h))
  {
  }

  lemma HoldersLose(s: State, h: nat)
    requires HoldersOk(s)
    ensures HoldersOk(LosesDelivery(s, h)) && HoldersOk(Crashes(s))
  {
    hide MsgOk;
    var t := LosesDelivery(s, h);
    if t != s { HoldersLeave(s, h, t.handlers, t.copies); }
  }

  lemma HoldersDelivery(cfg: Config, s: State, a: Action)
    requires HoldersOk(s)
    ensures HoldersOk(DeliveryNext(cfg, s, a))
  {
    hide HoldersOk;
    hide Expires;
    hide Delivers;
    hide Republishes;
    hide Finishes;
    hide LosesDelivery;
    hide Crashes;
    match a
    case Republish(h) => if h in s.handlers && s.handlers[h].stage.Routed? { HoldersRepublish(cfg, s, h); }
    case Finish(h) => if h in s.handlers { HoldersFinish(cfg, s, h); }
    case Expire(c) => HoldersExpire(cfg, s, c);
    case Deliver(c, h) => HoldersDeliver(s, c, h);
    case LoseDelivery(h) => HoldersLose(s, h);
    case CrashConsumer => HoldersLose(s, 0);
    case _ =>
  }

  lemma MsgLocal(x: Handler, a: Action, m: Message)
    requires MsgOk(x, m) && IsLocal(a)
    ensures MsgOk(HandlerNext(x, a), m)
  {
  }

  lemma HandlerNextFrame(x: Handler, a: Action)
    requires IsLocal(a)
    ensures var y := HandlerNext(x, a);
      && y.copy == x.copy && y.event == x.event && y.live == x.live
      && y.stage.Republished? == x.stage.Republished?
  {
  }

  lemma HoldersLocal(s: State, a: Action)
    requires HoldersOk(s) && IsLocal(a)
    ensures HoldersOk(LocalNext(s, a))
  {
    hide HandlerNext;
    hide MsgOk;
    if a.h in s.handlers {
      var x := s.handlers[a.h];
      HandlerNextFrame(x, a);
      assert HandlerOk(s.copies, a.h, x);
      if x.live { MsgLocal(x, a, s.copies[x.copy].msg); }
      HoldersStage(s, a.h, HandlerNext(x, a), s.copies);
    }
  }

  lemma HoldersStep(cfg: Config, s: State, a: Action)
    requires HoldersOk(s)
    ensures HoldersOk(Next(cfg, s, a))
  {
    hide HoldersOk;
    hide PublisherNext;
    hide ReplayNext;
    hide LocalNext;
    hide DeliveryNext;
    HoldersPublisher(cfg, s, a);
    HoldersReplay(cfg, s, a);
    if IsLocal(a) { HoldersLocal(s, a); }
    if IsDelivery(a) { HoldersDelivery(cfg, s, a); }
  }

  // --- which copy keeps an event --------------------------------------------

  predicate HasRetry(dests: seq<Dest>) {
    exists d :: d in dests && d.ToRetry?
  }

  /** A message published to these queues leaves a copy in the dead queue, at once or when a retry queue expires. */
  predicate LeavesDead(cfg: Config, dests: seq<Dest>) {
    ToDead in dests || (HasRetry(dests) && ToDead in cfg.main)
  }

  /** Nothing is bound to the key of this level, and a failing message gets there without leaving a copy in the dead queue. */
  predicate LosesAt(cfg: Config, level: nat) {
    && level < |cfg.retry| && cfg.retry[level] == []
    && forall l: nat :: l < level ==> !LeavesDead(cfg, cfg.retry[l])
  }

  /** Events reach no queue at all; or they leave nothing in the dead queue and fail at an unbound level. */
  ghost predicate Lossy(cfg: Config) {
    cfg.events == [] || (!LeavesDead(cfg, cfg.events) && exists level: nat :: LosesAt(cfg, level))
  }

  /** No retry that brings a message to this attempt number leaves a copy in the dead queue. */
  predicate LowAttempt(cfg: Config, attempt: int) {
    cfg.levels > 0 ==> forall l: nat :: l < PickRetryLevel(attempt + 1, cfg.levels) ==> !LeavesDead(cfg, cfg.RetryDests(l))
  }

  predicate InDead(p: Place) {
    p.Dead? || p == Held(ByReplay, false)
  }

  /**
    Copies that cannot be the last one to go: those in the dead queue; those in a retry queue that
    will leave one there; and, unless events do so from the start, any that is not spent and has no
    dead copy behind it.
   */
  predicate Keeps(cfg: Config, c: Copy) {
    || InDead(c.place)
    || (c.place.Retry? && ToDead in cfg.main)
    || (!LeavesDead(cfg, cfg.events) && !(c.place.Held? && c.place.spent)
        && (c.msg.decodes ==> LowAttempt(cfg, c.msg.Attempt())))
  }

  ghost predicate Carries(cfg: Config, s: State, c: nat, e: EventId) {
    c in s.copies && s.copies[c].event == e && Keeps(cfg, s.copies[c])
  }

  ghost predicate Carried(cfg: Config, s: State, e: EventId) {
    exists c :: Carries(cfg, s, c, e)
  }

  ghost predicate Safe(cfg: Config, s: State, e: EventId) {
    e in s.completed || Carried(cfg, s, e)
  }

  lemma FirstIsLow(cfg: Config, msg: Message)
    requires FirstAttempt(msg)
    ensures msg.decodes ==> LowAttempt(cfg, msg.Attempt())
  {
  }

  lemma EnqueueKeepsOld(cfg: Config, s: State, c: Copy, dests: seq<Dest>, id: nat, e: EventId)
    requires Carries(cfg, s, id, e) && id < s.next
    ensures Carries(cfg, Enqueue(s, c, dests), id, e)
  {
    hide Keeps;
  }

  lemma EnqueueHas(s: State, c: Copy, dests: seq<Dest>, d: Dest) returns (id: nat)
    requires d in dests
    ensures id in Enqueue(s, c, dests).copies && Enqueue(s, c, dests).copies[id] == c.(place := PlaceOf(d))
  {
    var k :| 0 <= k < |dests| && dests[k] == d;
    id := s.next + k;
    assert Placed(c, dests, s.next, id) == c.(place := PlaceOf(d));
  }

  lemma KeptAt(cfg: Config, s: State, c: Copy, dests: seq<Dest>, d: Dest)
    requires d in dests && Keeps(cfg, c.(place := PlaceOf(d)))
    ensures Carried(cfg, Enqueue(s, c, dests), c.event)
  {
    hide Enqueue;
    hide Keeps;
    var id := EnqueueHas(s, c, dests, d);
    assert Carries(cfg, Enqueue(s, c, dests), id, c.event);
  }

  /** A copy that goes to the dead queue now or later is kept. */
  lemma DeadKeeps(cfg: Config, s: State, c: Copy, dests: seq<Dest>)
    requires LeavesDead(cfg, dests)
    ensures Carried(cfg, Enqueue(s, c, dests), c.event)
  {
    hide Enqueue;
    var d := if ToDead in dests then ToDead else var r :| r in dests && r.ToRetry?; r;
    KeptAt(cfg, s, c, dests, d);
  }

  /** So is a copy of an early attempt wherever it goes. */
  lemma LowKeeps(cfg: Config, s: State, c: Copy, dests: seq<Dest>)
    requires !LeavesDead(cfg, cfg.events) && dests != [] && (c.msg.decodes ==> LowAttempt(cfg, c.msg.Attempt()))
    ensures Carried(cfg, Enqueue(s, c, dests), c.event)
  {
    hide Enqueue;
    hide LowAttempt;
    hide LeavesDead;
    KeptAt(cfg, s, c, dests, dests[0]);
  }

  /** What is published with the key of events is kept. */
  lemma EventsKeep(cfg: Config, s: State, c: Copy)
    requires !Lossy(cfg) && (c.msg.decodes ==> LowAttempt(cfg, c.msg.Attempt()))
    ensures Carried(cfg, Enqueue(s, c, cfg.events), c.event)
  {
    hide Enqueue;
    hide LowAttempt;
    hide LeavesDead;
    if LeavesDead(cfg, cfg.events) {
      DeadKeeps(cfg, s, c, cfg.events);
    } else {
      LowKeeps(cfg, s, c, cfg.events);
    }
  }

  lemma NextIsLow(cfg: Config, attempt: int)
    requires cfg.Valid() && cfg.levels > 0 && LowAttempt(cfg, attempt)
    requires !LeavesDead(cfg, cfg.RetryDests(PickRetryLevel(attempt + 1, cfg.levels)))
    ensures LowAttempt(cfg, attempt + 1)
  {
    hide LeavesDead;
    RetryLevelsNeverDecrease(attempt + 1, attempt + 1, cfg.levels);
  }

  /** The next attempt is kept, because its key is bound where the last copy can get. */
  lemma RetryKeeps(cfg: Config, s: State, x: Handler, m: Message)
    requires cfg.Valid() && !Lossy(cfg) && !LeavesDead(cfg, cfg.events)
    requires x.stage.Routed? && MsgOk(x, m) && LowAttempt(cfg, m.Attempt())
    ensures Carried(cfg, Enqueue(s, NextCopy(cfg, x), NextDests(cfg, x)), x.event)
  {
    hide Enqueue;
    hide LeavesDead;
    var c, dests := NextCopy(cfg, x), NextDests(cfg, x);
    if LeavesDead(cfg, dests) {
      DeadKeeps(cfg, s, c, dests);
    } else {
      DeadKeyLeavesDead(cfg);
      var level := PickRetryLevel(x.msg.attempt, cfg.levels);
      NonEmptyRetry(cfg, m.Attempt());
      NextIsLow(cfg, m.Attempt());
      assert dests == cfg.RetryDests(level);
      LowKeeps(cfg, s, c, dests);
    }
  }

  lemma DeadKeyLeavesDead(cfg: Config)
    requires cfg.Valid()
    ensures LeavesDead(cfg, cfg.dead)
  {
  }

  lemma NonEmptyRetry(cfg: Config, attempt: int)
    requires cfg.Valid() && !Lossy(cfg) && !LeavesDead(cfg, cfg.events)
    requires cfg.levels > 0 && LowAttempt(cfg, attempt)
    ensures cfg.RetryDests(PickRetryLevel(attempt + 1, cfg.levels)) != []
  {
    hide LeavesDead;
    var level := PickRetryLevel(attempt + 1, cfg.levels);
    assert forall l: nat :: l < level ==> cfg.RetryDests(l) == cfg.retry[l];
    assert !LosesAt(cfg, level);
  }

  // --- no step loses an event -----------------------------------------------

  /** Republishing moves the duty of keeping the event to a new copy. */
  lemma SafeRepublish(cfg: Config, s: State, h: nat, e: EventId, c: nat)
    requires cfg.Valid() && HoldersOk(s) && !Lossy(cfg) && Carries(cfg, s, c, e)
    requires h in s.handlers && s.handlers[h].stage.Routed?
    ensures Safe(cfg, Republishes(cfg, s, h), e)
  {
    hide Enqueue;
    hide LowAttempt;
    hide NextCopy;
    hide NextDests;
    hide Lossy;
    var x := s.handlers[h];
    if x.live && x.copy in s.copies {
      assert HandlerOk(s.copies, h, x);
      var t := s.(copies := s.copies[x.copy := s.copies[x.copy].(place := Held(ByHandler(h), true))],
                  handlers := s.handlers[h := x.(stage := Republished)]);
      if c == x.copy {
        RetryKeeps(cfg, t, x, s.copies[c].msg);
      } else {
        assert Carries(cfg, t, c, e);
        EnqueueKeepsOld(cfg, t, NextCopy(cfg, x), NextDests(cfg, x), c, e);
      }
    }
  }

  /** Only a spent or a completed copy is removed, or one that goes to the dead queue. */
  lemma SafeFinish(cfg: Config, s: State, h: nat, e: EventId, c: nat)
    requires cfg.Valid() && HoldersOk(s) && Carries(cfg, s, c, e) && h in s.handlers
    ensures Safe(cfg, Finishes(cfg, s, h), e)
  {
    hide Enqueue;
    hide LowAttempt;
    var t := Finishes(cfg, s, h);
    var x := s.handlers[h];
    assert HandlerOk(s.copies, h, x);
    if t != s && x.live && x.stage.Rejecting? {
      var u := s.(handlers := Without(s.handlers, h), copies := Without(s.copies, x.copy));
      var m := s.copies[x.copy].Fresh(Dead);
      if c == x.copy {
        DeadKeyLeavesDead(cfg);
        DeadKeeps(cfg, u, m, cfg.dead);
      } else {
        assert Carries(cfg, u, c, e);
        EnqueueKeepsOld(cfg, u, m, cfg.dead, c, e);
      }
    } else {
      assert e in t.completed || Carries(cfg, t, c, e);
    }
  }

  lemma {:induction false} FirstVisitsKeep(dests: seq<Dest>, trail: set<string>, d: Dest)
    ensures d in FirstVisits(dests, trail) <==> d in dests && !(d.ToRetry? && d.queue in trail)
  {
    if dests != [] {
      var before, last := dests[..|dests| - 1], dests[|dests| - 1];
      FirstVisitsKeep(before, trail, d);
      assert d in dests <==> d in before || d == last;
    }
  }

  /** A retry queue hands its copy on to the dead queue or the main queue, where it is not dropped. */
  lemma ExpiredKeeps(cfg: Config, s: State, c: Copy, trail: set<string>)
    requires cfg.Valid() && c.place.Retry? && Keeps(cfg, c)
    ensures Carried(cfg, Enqueue(s, c.(trail := trail), FirstVisits(cfg.main, trail)), c.event)
  {
    hide Enqueue;
    hide LowAttempt;
    hide LeavesDead;
    var d := if ToDead in cfg.main then ToDead else ToMain;
    FirstVisitsKeep(cfg.main, trail, d);
    KeptAt(cfg, s, c.(trail := trail), FirstVisits(cfg.main, trail), d);
  }

  lemma SafeExpire(cfg: Config, s: State, id: nat, e: EventId, c: nat)
    requires cfg.Valid() && HoldersOk(s) && Carries(cfg, s, c, e)
    ensures Safe(cfg, Expires(cfg, s, id), e)
  {
    hide Enqueue;
    hide FirstVisits;
    hide Keeps;
    if id in s.copies && s.copies[id].place.Retry? {
      var u, m := s.(copies := Without(s.copies, id)), s.copies[id];
      var trail := m.trail + {m.place.queue};
      if c == id {
        ExpiredKeeps(cfg, u, m, trail);
      } else {
        assert Carries(cfg, u, c, e);
        EnqueueKeepsOld(cfg, u, m.(trail := trail), FirstVisits(cfg.main, trail), c, e);
      }
    }
  }

  lemma SafeMove(cfg: Config, s: State, id: nat, h: nat, e: EventId, c: nat)
    requires HoldersOk(s) && Carries(cfg, s, c, e)
    ensures Safe(cfg, Delivers(s, id, h), e)
    ensures Safe(cfg, LosesDelivery(s, h), e)
    ensures Safe(cfg, Crashes(s), e)
  {
    hide LowAttempt;
    hide MsgOk;
    if h in s.handlers { assert HandlerOk(s.copies, h, s.handlers[h]); }
    assert Carries(cfg, Delivers(s, id, h), c, e);
    assert Carries(cfg, LosesDelivery(s, h), c, e);
    assert Carries(cfg, Crashes(s), c, e);
  }

  lemma SafeDelivery(cfg: Config, s: State, a: Action, e: EventId, c: nat)
    requires cfg.Valid() && HoldersOk(s) && !Lossy(cfg) && Carries(cfg, s, c, e)
    ensures Safe(cfg, DeliveryNext(cfg, s, a), e)
  {
    hide HoldersOk;
    hide Carries;
    hide Expires;
    hide Delivers;
    hide Republishes;
    hide Finishes;
    hide LosesDelivery;
    hide Crashes;
    match a
    case Republish(h) => if h in s.handlers && s.handlers[h].stage.Routed? { SafeRepublish(cfg, s, h, e, c); }
    case Finish(h) => if h in s.handlers { SafeFinish(cfg, s, h, e, c); }
    case Expire(id) => SafeExpire(cfg, s, id, e, c);
    case Deliver(id, h) => SafeMove(cfg, s, id, h, e, c);
    case LoseDelivery(h) => SafeMove(cfg, s, 0, h, e, c);
    case CrashConsumer => SafeMove(cfg, s, 0, 0, e, c);
    case _ =>
  }

  /** Replay publishes before it acknowledges. */
  lemma SafeReplay(cfg: Config, s: State, a: Action, e: EventId, c: nat)
    requires cfg.Valid() && HoldersOk(s) && !Lossy(cfg) && Carries(cfg, s, c, e)
    ensures Safe(cfg, ReplayNext(cfg, s, a), e)
  {
    hide Enqueue;
    hide LowAttempt;
    hide MsgOk;
    hide Lossy;
    hide LeavesDead;
    var t := ReplayNext(cfg, s, a);
    if a.ReplayPublish? && t != s {
      var m := s.copies[s.replay];
      var u := s.(copies := s.copies[s.replay := m.(place := Held(ByReplay, true))]);
      var n := NewCopy(m.event, if a.rewritten || m.msg.decodes then m.msg.(attempt := 1) else m.msg, Main);
      if c == s.replay {
        FirstIsLow(cfg, n.msg);
        EventsKeep(cfg, u, n);
      } else {
        assert Carries(cfg, u, c, e);
        EnqueueKeepsOld(cfg, u, n, cfg.events, c, e);
      }
    } else {
      assert Carries(cfg, t, c, e);
    }
  }

  lemma SafeOthers(cfg: Config, s: State, a: Action, e: EventId, c: nat)
    requires HoldersOk(s) && Carries(cfg, s, c, e)
    ensures Safe(cfg, PublisherNext(cfg, s, a), e)
    ensures IsLocal(a) ==> Safe(cfg, LocalNext(s, a), e)
  {
    hide PublisherNext;
    hide HandlerNext;
    hide Enqueue;
    hide Keeps;
    PublisherFrame(cfg, s, a);
    assert c < s.next;
    if Arrives(s, a) {
      var n := if a.BrokerTake? then s.session.wire[0] else s.stray[0];
      EnqueueKeepsOld(cfg, s, NewCopy(n, s.rows[n].msg, Main), cfg.events, c, e);
    }
    assert Carries(cfg, PublisherNext(cfg, s, a), c, e);
    assert IsLocal(a) ==> Carries(cfg, LocalNext(s, a), c, e);
  }

  lemma CompletedGrows(cfg: Config, s: State, a: Action)
    ensures s.completed <= Next(cfg, s, a).completed
  {
    hide DeliveryNext;
    hide LocalNext;
    hide ReplayNext;
    hide PublisherNext;
    DeliveryFrame(cfg, s, a);
    ReplayFrame(cfg, s, a);
    PublisherFrame(cfg, s, a);
    if IsLocal(a) { LocalFrame(s, a); }
  }

  lemma CarriedStable(cfg: Config, s: State, a: Action, e: EventId, c: nat)
    requires cfg.Valid() && HoldersOk(s) && !Lossy(cfg) && Carries(cfg, s, c, e)
    ensures Safe(cfg, Next(cfg, s, a), e)
  {
    hide DeliveryNext;
    hide LocalNext;
    hide ReplayNext;
    hide PublisherNext;
    hide Safe;
    hide Carries;
    hide HoldersOk;
    hide Lossy;
    SafeOthers(cfg, s, a, e, c);
    if IsDelivery(a) { SafeDelivery(cfg, s, a, e, c); }
    SafeReplay(cfg, s, a, e, c);
  }

  /** Once the broker has confirmed an event, no step loses it. */
  lemma SafeStable(cfg: Config, s: State, a: Action, e: EventId)
    requires cfg.Valid() && HoldersOk(s) && !Lossy(cfg) && Safe(cfg, s, e)
    ensures Safe(cfg, Next(cfg, s, a), e)
  {
    hide Next;
    hide HoldersOk;
    hide Lossy;
    if e in s.completed {
      CompletedGrows(cfg, s, a);
    } else {
      var c :| Carries(cfg, s, c, e);
      CarriedStable(cfg, s, a, e, c);
    }
  }

  // --- runs -----------------------------------------------------------------

  ghost predicate RowsOfService(s: State) {
    forall e :: e in s.rows ==> FirstAttempt(s.rows[e].msg)
  }

  ghost predicate Inv(s: State) {
    && SessionOk(s) && HoldersOk(s) && RowsOfService(s)
  }

  ghost predicate AckedSafe(cfg: Config, s: State) {
    forall e :: e in s.acked ==> Safe(cfg, s, e)
  }

  lemma PublisherRows(cfg: Config, s: State, a: Action)
    requires RowsOfService(s)
    ensures RowsOfService(PublisherNext(cfg, s, a))
  {
    hide SessionNext;
    hide FirstAttempt;
  }

  lemma RowsStep(cfg: Config, s: State, a: Action)
    requires RowsOfService(s)
    ensures RowsOfService(Next(cfg, s, a))
  {
    hide DeliveryNext;
    hide ReplayNext;
    hide LocalNext;
    hide PublisherNext;
    hide FirstAttempt;
    ConsumerKeepsSession(cfg, s, a);
    PublisherRows(cfg, s, a);
  }

  lemma OnlyBrokerAcks(cfg: Config, s: State, a: Action)
    ensures PublisherNext(cfg, s, a).acked != s.acked ==> a.BrokerTake?
  {
    hide Enqueue;
    hide SessionNext;
    hide BrokerTakes;
    var w := s.stray;
    if a.StrayTake? && w != [] && w[0] in s.rows {
      EnqueueFrame(s, NewCopy(w[0], s.rows[w[0]].msg, Main), cfg.events);
    }
  }

  lemma NewlyAcked(cfg: Config, s: State, a: Action, e: EventId)
    requires cfg.Valid() && RowsOfService(s) && !Lossy(cfg)
    requires e !in s.acked && e in Next(cfg, s, a).acked
    ensures Safe(cfg, Next(cfg, s, a), e)
  {
    hide DeliveryNext;
    hide ReplayNext;
    hide LocalNext;
    hide PublisherNext;
    hide Safe;
    hide Lossy;
    ConsumerKeepsSession(cfg, s, a);
    OnlyBrokerAcks(cfg, s, a);
    TakenIsSafe(cfg, s, a.accept, e);
    BrokerTakeIs(cfg, s, a.accept);
  }

  lemma BrokerTakeIs(cfg: Config, s: State, accept: bool)
    ensures PublisherNext(cfg, s, BrokerTake(accept)) == BrokerTakes(cfg, s, accept)
  {
  }

  lemma TakenIsSafe(cfg: Config, s: State, accept: bool, e: EventId)
    requires cfg.Valid() && RowsOfService(s) && !Lossy(cfg) && e !in s.acked
    ensures e in BrokerTakes(cfg, s, accept).acked ==> Safe(cfg, BrokerTakes(cfg, s, accept), e)
  {
    hide Enqueue;
    hide Keeps;
    hide Lossy;
    var w := s.session.wire;
    if w != [] && w[0] in s.rows {
      var u := s.(session := s.session.(wire := w[1..], confirms := s.session.confirms + [Confirm(w[0], accept)]));
      var n := NewCopy(w[0], s.rows[w[0]].msg, Main);
      FirstIsLow(cfg, n.msg);
      EventsKeep(cfg, u, n);
      EnqueueFrame(u, n, cfg.events);
      var c :| Carries(cfg, Enqueue(u, n, cfg.events), c, w[0]);
      assert accept ==> Carries(cfg, BrokerTakes(cfg, s, accept), c, w[0]);
    }
  }

  lemma {:induction false} InvAlways(cfg: Config, run: seq<Action>)
    requires cfg.Valid()
    ensures Inv(Exec(cfg, INIT, run))
    ensures !Lossy(cfg) ==> AckedSafe(cfg, Exec(cfg, INIT, run))
    decreases |run|
  {
    hide Next;
    hide SessionOk;
    hide HoldersOk;
    hide RowsOfService;
    hide Safe;
    hide Lossy;
    if run == [] {
      NothingHeld();
    } else {
      var before, a := run[..|run| - 1], run[|run| - 1];
      InvAlways(cfg, before);
      var s := Exec(cfg, INIT, before);
      SessionStep(cfg, s, a);
      HoldersStep(cfg, s, a);
      RowsStep(cfg, s, a);
      if !Lossy(cfg) {
        forall e | e in Next(cfg, s, a).acked ensures Safe(cfg, Next(cfg, s, a), e) {
          if e in s.acked { SafeStable(cfg, s, a, e); } else { NewlyAcked(cfg, s, a, e); }
        }
      }
    }
  }

  lemma NothingHeld()
    ensures Inv(INIT)
  {
  }

  /** Main, retry or dead queue, or delivered and not acknowledged. */
  ghost predicate InBroker(s: State, e: EventId) {
    exists c :: c in s.copies && s.copies[c].event == e
  }

  ghost predicate NoLoss(s: State) {
    forall e :: e in s.rows && s.rows[e].published ==> InBroker(s, e) || e in s.completed
  }

  /** Unless the bindings are lossy, no run with drops and crashes loses an event. */
  lemma NoLossAlways(cfg: Config, run: seq<Action>)
    requires cfg.Valid() && !Lossy(cfg)
    ensures NoLoss(Exec(cfg, INIT, run))
  {
    hide Lossy;
    hide Keeps;
    InvAlways(cfg, run);
    var s := Exec(cfg, INIT, run);
    forall e | e in s.rows && s.rows[e].published && e !in s.completed ensures InBroker(s, e) {
      assert Safe(cfg, s, e);
      var c :| Carries(cfg, s, c, e);
    }
  }
}
