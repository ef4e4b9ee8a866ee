/** The consumer's counters over all interleavings of its handlers. */
module ConsumerCounters {
  import opened CalcPipeline

  ghost function BetweenCounters(handlers: map<nat, Handler>): set<nat> {
    set h | h in handlers && handlers[h].stage.Failing?
  }

  ghost predicate CountersOk(s: State) {
    s.failed == s.retried + s.dead + |BetweenCounters(s.handlers)|
  }

  lemma CountersLocal(s: State, a: Action)
    requires CountersOk(s) && IsLocal(a)
    ensures CountersOk(LocalNext(s, a))
  {
    if a.h in s.handlers {
      var x := s.handlers[a.h];
      var y := HandlerNext(x, a);
      BetweenAfter(s.handlers, a.h, y);
    }
  }

  lemma BetweenAfter(handlers: map<nat, Handler>, h: nat, y: Handler)
    requires h in handlers
    ensures |BetweenCounters(handlers[h := y])| == |BetweenCounters(handlers)|
      + (if y.stage.Failing? then 1 else 0) - (if handlers[h].stage.Failing? then 1 else 0)
  {
    var before, after := BetweenCounters(handlers), BetweenCounters(handlers[h := y]);
    assert before - {h} == after - {h};
    assert |before| == |before - {h}| + if h in before then 1 else 0;
    assert |after| == |after - {h}| + if h in after then 1 else 0;
  }

  lemma BetweenUnchanged(before: map<nat, Handler>, after: map<nat, Handler>)
    requires forall h :: h in before && before[h].stage.Failing? ==> h in after && after[h].stage.Failing?
    requires forall h :: h in after && after[h].stage.Failing? ==> h in before && before[h].stage.Failing?
    ensures BetweenCounters(before) == BetweenCounters(after)
  {
  }

  predicate SameCounters(s: State, t: State) {
    t.failed == s.failed && t.retried == s.retried && t.dead == s.dead
  }

  lemma BetweenFinish(cfg: Config, s: State, h: nat)
    requires h in s.handlers
    ensures var t := Finishes(cfg, s, h);
      SameCounters(s, t) && BetweenCounters(t.handlers) == BetweenCounters(s.handlers)
  {
    FinishKeeps(cfg, s, h);
    hide Finishes;
    BetweenUnchanged(s.handlers, Finishes(cfg, s, h).handlers);
  }

  lemma FinishKeeps(cfg: Config, s: State, h: nat)
    requires h in s.handlers
    ensures var t := Finishes(cfg, s, h);
      SameCounters(s, t)
      && (t.handlers == s.handlers || (t.handlers == Without(s.handlers, h) && !s.handlers[h].stage.Failing?))
  {
    hide Without;
  }

  lemma BetweenRepublish(cfg: Config, s: State, h: nat)
    requires h in s.handlers && s.handlers[h].stage.Routed?
    ensures var t := Republishes(cfg, s, h);
      SameCounters(s, t) && BetweenCounters(t.handlers) == BetweenCounters(s.handlers)
  {
    BetweenUnchanged(s.handlers, Republishes(cfg, s, h).handlers);
  }

  lemma BetweenMove(s: State, c: nat, h: nat)
    ensures var t := Delivers(s, c, h); SameCounters(s, t) && BetweenCounters(t.handlers) == BetweenCounters(s.handlers)
    ensures var t := LosesDelivery(s, h); SameCounters(s, t) && BetweenCounters(t.handlers) == BetweenCounters(s.handlers)
  {
    BetweenUnchanged(s.handlers, Delivers(s, c, h).handlers);
    BetweenUnchanged(s.handlers, LosesDelivery(s, h).handlers);
  }

  lemma BetweenExpire(cfg: Config, s: State, c: nat)
    ensures var t := Expires(cfg, s, c); SameCounters(s, t) && BetweenCounters(t.handlers) == BetweenCounters(s.handlers)
  {
  }

  lemma CountersCrash(s: State)
    requires CountersOk(s)
    ensures CountersOk(Crashes(s))
  {
    assert Crashes(s) == s || BetweenCounters(Crashes(s).handlers) == {};
  }

  lemma CountersDelivery(cfg: Config, s: State, a: Action)
    requires CountersOk(s)
    ensures CountersOk(DeliveryNext(cfg, s, a))
  {
    hide BetweenCounters;
    hide Republishes;
    hide Finishes;
    hide Expires;
    hide Delivers;
    hide LosesDelivery;
    hide Crashes;
    match a
    case CrashConsumer => CountersCrash(s);
    case Finish(h) => if h in s.handlers { BetweenFinish(cfg, s, h); }
    case Republish(h) => if h in s.handlers && s.handlers[h].stage.Routed? { BetweenRepublish(cfg, s, h); }
    case Deliver(c, h) => BetweenMove(s, c, h);
    case LoseDelivery(h) => BetweenMove(s, 0, h);
    case Expire(c) => BetweenExpire(cfg, s, c);
    case _ =>
  }

  lemma OthersKeepHandlers(cfg: Config, s: State, a: Action)
    ensures var t := PublisherNext(cfg, s, a);
      t.handlers == s.handlers && t.failed == s.failed && t.retried == s.retried && t.dead == s.dead
    ensures var t := ReplayNext(cfg, s, a);
      t.handlers == s.handlers && t.failed == s.failed && t.retried == s.retried && t.dead == s.dead
  {
    hide PublisherNext;
    hide ReplayNext;
    PublisherFrame(cfg, s, a);
    ReplayFrame(cfg, s, a);
  }

  lemma CountersStep(cfg: Config, s: State, a: Action)
    requires CountersOk(s)
    ensures CountersOk(Next(cfg, s, a))
  {
    if IsLocal(a) { CountersLocal(s, a); }
    CountersDelivery(cfg, s, a);
    OthersKeepHandlers(cfg, s, a);
  }

  /** Failed - (Retried + Dead) is the number of handlers between the two updates. */
  lemma {:induction false} CountersAlways(cfg: Config, run: seq<Action>)
    ensures CountersOk(Exec(cfg, INIT, run))
    decreases |run|
  {
    if run == [] {
      assert BetweenCounters(INIT.handlers) == {};
    } else {
      CountersAlways(cfg, run[..|run| - 1]);
      CountersStep(cfg, Exec(cfg, INIT, run[..|run| - 1]), run[|run| - 1]);
    }
  }
}
