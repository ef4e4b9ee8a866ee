/** Executions of one lineage: a message and the retries published from it. */
module RetryLineage {
  import opened CalcPipeline
  import opened RabbitTopology

  function Bound(first: int, maxAttempts: int): int {
    if maxAttempts - first + 1 > 1 then maxAttempts - first + 1 else 1
  }

  ghost predicate Lineage(cfg: Config, msg: Message, first: int, runs: nat, levels: seq<nat>) {
    && first >= 1 && runs <= Bound(first, msg.MaxAttempts()) && |levels| <= runs && LevelsPicked(cfg, first, levels)
  }

  ghost predicate LevelsPicked(cfg: Config, first: int, levels: seq<nat>) {
    forall i :: 0 <= i < |levels| ==> cfg.levels > 0 && levels[i] == PickRetryLevel(first + i + 1, cfg.levels)
  }

  ghost predicate Waiting(msg: Message, first: int, runs: nat, levels: seq<nat>) {
    runs == msg.Attempt() - first && |levels| == runs && (runs > 0 ==> msg.Attempt() <= msg.MaxAttempts())
  }

  ghost predicate CopyLineage(cfg: Config, c: Copy) {
    && Lineage(cfg, c.msg, c.first, c.runs, c.levels)
    && (c.place.Main? || c.place.Retry? ==> Waiting(c.msg, c.first, c.runs, c.levels))
  }

  ghost predicate HandlerLineage(cfg: Config, x: Handler) {
    && Lineage(cfg, x.msg, x.first, x.runs, x.levels)
    && match x.stage
       case Received => Waiting(x.msg, x.first, x.runs, x.levels)
       case Running | Succeeded | Failing(_) =>
         && x.runs == x.msg.Attempt() - x.first + 1 && |x.levels| + 1 == x.runs
         && (x.runs > 1 ==> x.msg.Attempt() <= x.msg.MaxAttempts())
       case Routed(dead) =>
         && x.runs == x.msg.Attempt() - x.first && |x.levels| + 1 == x.runs
         && (!dead ==> x.msg.Attempt() <= x.msg.MaxAttempts())
       case _ => true
  }

  ghost predicate LineagesOk(cfg: Config, s: State) {
    && (forall c :: c in s.copies ==> CopyLineage(cfg, s.copies[c]))
    && (forall h :: h in s.handlers ==> HandlerLineage(cfg, s.handlers[h]))
  }

  lemma LineageRun(cfg: Config, x: Handler, h: nat)
    requires HandlerLineage(cfg, x)
    ensures HandlerLineage(cfg, HandlerNext(x, Run(h)))
  {
    hide LevelsPicked;
    var y := HandlerNext(x, Run(h));
    assert y.msg == x.msg && y.levels == x.levels && y.first == x.first;
    if x.stage.Received? && x.msg.decodes {
      assert Waiting(x.msg, x.first, x.runs, x.levels);
      assert y.runs <= Bound(y.first, y.msg.MaxAttempts());
    }
    assert Lineage(cfg, y.msg, y.first, y.runs, y.levels);
  }

  lemma LineageRoute(cfg: Config, x: Handler, h: nat)
    requires HandlerLineage(cfg, x)
    ensures HandlerLineage(cfg, HandlerNext(x, Route(h)))
  {
    hide LevelsPicked;
    var y := HandlerNext(x, Route(h));
    assert y.msg.MaxAttempts() == x.msg.MaxAttempts();
    assert x.stage.Failing? ==> y.msg.Attempt() == x.msg.Attempt() + 1;
    assert Lineage(cfg, y.msg, y.first, y.runs, y.levels);
  }

  lemma LineageLocal(cfg: Config, x: Handler, a: Action)
    requires HandlerLineage(cfg, x)
    ensures HandlerLineage(cfg, HandlerNext(x, a))
  {
    match a
    case Run(h) => LineageRun(cfg, x, h);
    case Route(h) => LineageRoute(cfg, x, h);
    case _ =>
  }

  ghost predicate MayEnqueue(cfg: Config, c: Copy) {
    Lineage(cfg, c.msg, c.first, c.runs, c.levels) && Waiting(c.msg, c.first, c.runs, c.levels)
  }

  lemma FreshMayEnqueue(cfg: Config, c: Copy)
    requires c.first == c.msg.Attempt() && c.runs == 0 && c.levels == []
    ensures MayEnqueue(cfg, c)
  {
  }

  lemma LineageEnqueue(cfg: Config, s: State, c: Copy, dests: seq<Dest>)
    requires LineagesOk(cfg, s) && MayEnqueue(cfg, c)
    ensures LineagesOk(cfg, Enqueue(s, c, dests))
  {
    hide Lineage;
    hide Waiting;
    hide HandlerLineage;
    var t := Enqueue(s, c, dests);
    forall k | k in t.copies ensures CopyLineage(cfg, t.copies[k]) {
      if s.next <= k < s.next + |dests| { assert t.copies[k] == Placed(c, dests, s.next, k); }
    }
  }

  /** The next attempt continues the lineage; a dead letter starts a new one. */
  lemma NextMayEnqueue(cfg: Config, x: Handler)
    requires HandlerLineage(cfg, x) && x.stage.Routed?
    ensures MayEnqueue(cfg, NextCopy(cfg, x))
  {
    var c := NextCopy(cfg, x);
    if x.stage.dead || cfg.levels == 0 {
      FreshMayEnqueue(cfg, c);
    } else {
      assert c.levels[..|x.levels|] == x.levels;
    }
  }

  /** Republishing continues the lineage with the next attempt and its level. */
  lemma LineageRepublish(cfg: Config, s: State, h: nat)
    requires LineagesOk(cfg, s) && h in s.handlers && s.handlers[h].stage.Routed?
    ensures LineagesOk(cfg, Republishes(cfg, s, h))
  {
    hide Enqueue;
    hide NextCopy;
    hide NextDests;
    hide Lineage;
    hide Waiting;
    var x := s.handlers[h];
    assert HandlerLineage(cfg, x);
    if x.live && x.copy in s.copies {
      assert CopyLineage(cfg, s.copies[x.copy]);
      var t := s.(copies := s.copies[x.copy := s.copies[x.copy].(place := Held(ByHandler(h), true))],
                  handlers := s.handlers[h := x.(stage := Republished)]);
      NextMayEnqueue(cfg, x);
      LineageEnqueue(cfg, t, NextCopy(cfg, x), NextDests(cfg, x));
    }
  }

  lemma LineageLocalStep(cfg: Config, s: State, a: Action)
    requires LineagesOk(cfg, s) && IsLocal(a)
    ensures LineagesOk(cfg, LocalNext(s, a))
  {
    hide HandlerNext;
    hide HandlerLineage;
    hide CopyLineage;
    if a.h in s.handlers { LineageLocal(cfg, s.handlers[a.h], a); }
  }

  lemma LineageStep(cfg: Config, s: State, a: Action)
    requires LineagesOk(cfg, s)
    ensures LineagesOk(cfg, Next(cfg, s, a))
  {
    hide LineagesOk;
    hide LocalNext;
    hide Republishes;
    if IsLocal(a) {
      LineageLocalStep(cfg, s, a);
    } else if a.Republish? {
      if a.h in s.handlers && s.handlers[a.h].stage.Routed? { LineageRepublish(cfg, s, a.h); }
    } else {
      LineageOthers(cfg, s, a);
    }
  }

  lemma LineageOthers(cfg: Config, s: State, a: Action)
    requires LineagesOk(cfg, s) && !IsLocal(a) && !a.Republish?
    ensures LineagesOk(cfg, Next(cfg, s, a))
  {
    LineageDelivery(cfg, s, a);
    LineageReplay(cfg, s, a);
    LineagePublisher(cfg, s, a);
  }

  lemma LineageExpire(cfg: Config, s: State, c: nat)
    requires LineagesOk(cfg, s)
    ensures LineagesOk(cfg, Expires(cfg, s, c))
  {
    hide Enqueue;
    hide Lineage;
    hide Waiting;
    hide HandlerLineage;
    if c in s.copies && s.copies[c].place.Retry? {
      assert CopyLineage(cfg, s.copies[c]);
      var trail := s.copies[c].trail + {s.copies[c].place.queue};
      LineageEnqueue(cfg, s.(copies := Without(s.copies, c)), s.copies[c].(trail := trail), FirstVisits(cfg.main, trail));
    }
  }

  lemma LineageDeliver(cfg: Config, s: State, c: nat, h: nat)
    requires LineagesOk(cfg, s)
    ensures LineagesOk(cfg, Delivers(s, c, h))
  {
    hide Lineage;
    hide Waiting;
    if c in s.copies { assert CopyLineage(cfg, s.copies[c]); }
  }

  lemma LineageLose(cfg: Config, s: State, h: nat)
    requires LineagesOk(cfg, s)
    ensures LineagesOk(cfg, LosesDelivery(s, h)) && LineagesOk(cfg, Crashes(s))
  {
    hide LevelsPicked;
    if h in s.handlers && s.handlers[h].copy in s.copies {
      FreshMayEnqueue(cfg, s.copies[s.handlers[h].copy].Fresh(Main));
    }
  }

  lemma LineageDelivery(cfg: Config, s: State, a: Action)
    requires LineagesOk(cfg, s) && !a.Republish?
    ensures LineagesOk(cfg, DeliveryNext(cfg, s, a))
  {
    hide LineagesOk;
    hide Expires;
    hide Delivers;
    hide Finishes;
    hide LosesDelivery;
    hide Crashes;
    match a
    case Finish(h) => if h in s.handlers { LineageFinish(cfg, s, h); }
    case Expire(c) => LineageExpire(cfg, s, c);
    case Deliver(c, h) => LineageDeliver(cfg, s, c, h);
    case LoseDelivery(h) => LineageLose(cfg, s, h);
    case CrashConsumer => LineageLose(cfg, s, 0);
    case _ =>
  }

  lemma LineageFinish(cfg: Config, s: State, h: nat)
    requires LineagesOk(cfg, s) && h in s.handlers
    ensures LineagesOk(cfg, Finishes(cfg, s, h))
  {
    hide Enqueue;
    hide LevelsPicked;
    hide HandlerLineage;
    var x := s.handlers[h];
    if x.live && x.copy in s.copies {
      FreshMayEnqueue(cfg, s.copies[x.copy].Fresh(Main));
      if x.stage.Rejecting? {
        FreshMayEnqueue(cfg, s.copies[x.copy].Fresh(Dead));
        LineageEnqueue(cfg, s.(handlers := Without(s.handlers, h), copies := Without(s.copies, x.copy)),
                       s.copies[x.copy].Fresh(Dead), cfg.dead);
      }
    }
  }

  lemma LineageReplay(cfg: Config, s: State, a: Action)
    requires LineagesOk(cfg, s)
    ensures LineagesOk(cfg, ReplayNext(cfg, s, a))
  {
    hide Enqueue;
    hide LevelsPicked;
    hide HandlerLineage;
    var t := ReplayNext(cfg, s, a);
    if s.replay in s.copies {
      var m := s.copies[s.replay];
      assert CopyLineage(cfg, m);
      if a.ReplayPublish? && t != s {
        var c := NewCopy(m.event, if a.rewritten || m.msg.decodes then m.msg.(attempt := 1) else m.msg, Main);
        FreshMayEnqueue(cfg, c);
        LineageEnqueue(cfg, s.(copies := s.copies[s.replay := m.(place := Held(ByReplay, true))]), c, cfg.events);
      }
    }
  }

  lemma LineagePublisher(cfg: Config, s: State, a: Action)
    requires LineagesOk(cfg, s)
    ensures LineagesOk(cfg, PublisherNext(cfg, s, a))
  {
    hide PublisherNext;
    hide Enqueue;
    hide CopyLineage;
    hide HandlerLineage;
    PublisherFrame(cfg, s, a);
    if Arrives(s, a) {
      var e := if a.BrokerTake? then s.session.wire[0] else s.stray[0];
      var c := NewCopy(e, s.rows[e].msg, Main);
      FreshMayEnqueue(cfg, c);
      LineageEnqueue(cfg, s, c, cfg.events);
      EnqueueFrame(s, c, cfg.events);
    }
  }

  lemma {:induction false} LineagesAlways(cfg: Config, run: seq<Action>)
    ensures LineagesOk(cfg, Exec(cfg, INIT, run))
    decreases |run|
  {
    if run != [] {
      LineagesAlways(cfg, run[..|run| - 1]);
      LineageStep(cfg, Exec(cfg, INIT, run[..|run| - 1]), run[|run| - 1]);
    }
  }

  ghost predicate NonDecreasing(levels: seq<nat>) {
    forall i, j :: 0 <= i < j < |levels| ==> levels[i] <= levels[j]
  }

  /**
    A lineage that began at attempt number first is executed at most
    max(1, MaxAttempts - first + 1) times, and its retry levels never decrease.
   */
  lemma LineageBounded(cfg: Config, run: seq<Action>)
    ensures var s := Exec(cfg, INIT, run);
      && (forall c :: c in s.copies ==>
            s.copies[c].runs <= Bound(s.copies[c].first, s.copies[c].msg.MaxAttempts())
            && NonDecreasing(s.copies[c].levels))
      && (forall h :: h in s.handlers ==>
            s.handlers[h].runs <= Bound(s.handlers[h].first, s.handlers[h].msg.MaxAttempts())
            && NonDecreasing(s.handlers[h].levels))
  {
    LineagesAlways(cfg, run);
    var s := Exec(cfg, INIT, run);
    forall c | c in s.copies ensures NonDecreasing(s.copies[c].levels) {
      assert CopyLineage(cfg, s.copies[c]);
      LevelsNonDecreasing(cfg, s.copies[c].msg, s.copies[c].first, s.copies[c].runs, s.copies[c].levels);
    }
    forall h | h in s.handlers ensures NonDecreasing(s.handlers[h].levels) {
      var x := s.handlers[h];
      assert HandlerLineage(cfg, x);
      LevelsNonDecreasing(cfg, x.msg, x.first, x.runs, x.levels);
    }
  }

  lemma LevelsNonDecreasing(cfg: Config, msg: Message, first: int, runs: nat, levels: seq<nat>)
    requires Lineage(cfg, msg, first, runs, levels)
    ensures NonDecreasing(levels)
  {
    forall i, j | 0 <= i < j < |levels| ensures levels[i] <= levels[j] {
      var a, b := levels[i], levels[j];
      RetryLevelsNeverDecrease(first + i + 1, first + j + 1, cfg.levels);
    }
  }
}
