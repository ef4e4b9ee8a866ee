/** The publisher of the calculation pipeline: a confirm is always for the event being waited for. */
module ConfirmMatching {
  import opened CalcPipeline

  ghost predicate Outstanding(ss: Session, e: EventId) {
    || (ss.live && ss.wire == [e] && ss.confirms == [])
    || (ss.wire == [] && |ss.confirms| == 1 && ss.confirms[0].event == e)
    || (!ss.live && ss.wire == [] && ss.confirms == [])
  }

  ghost predicate NothingOutstanding(ss: Session) {
    ss.wire == [] && ss.confirms == []
  }

  ghost predicate SessionInv(ss: Session, acked: set<EventId>) {
    && (match ss.pub
        case Down => NothingOutstanding(ss)
        case Head(todo) => NothingOutstanding(ss) || (ss.cancelled && todo == [])
        case Await(e, _) => Outstanding(ss, e)
        case Marking(e, _) => NothingOutstanding(ss) && e in acked)
    && (forall i :: 0 <= i < |ss.confirms| && ss.confirms[i].ack ==> ss.confirms[i].event in acked)
  }

  ghost predicate MarkedInv(rows: map<EventId, Row>, acked: set<EventId>) {
    forall e :: e in rows && rows[e].published ==> e in acked
  }

  ghost predicate SessionOk(s: State) {
    SessionInv(s.session, s.acked) && MarkedInv(s.rows, s.acked)
  }

  lemma BrokerTakesSession(cfg: Config, s: State, accept: bool)
    requires SessionOk(s)
    ensures SessionOk(BrokerTakes(cfg, s, accept))
  {
  }

  lemma StrayTakesSession(cfg: Config, s: State)
    requires SessionOk(s)
    ensures SessionOk(StrayTakes(cfg, s))
  {
    hide SessionInv;
  }

  lemma SessionNextOk(rows: map<EventId, Row>, ss: Session, a: Action, acked: set<EventId>)
    requires SessionInv(ss, acked)
    ensures SessionInv(SessionNext(rows, ss, a), acked)
  {
  }

  lemma RowsOk(s: State, e: EventId, msg: Message)
    requires SessionOk(s)
    ensures SessionOk(Marks(s)) && SessionOk(Inserts(s, e, msg))
  {
  }

  lemma DisconnectsOk(s: State, a: Action)
    requires SessionOk(s)
    ensures SessionOk(Disconnects(s, a))
  {
  }

  lemma PublisherSessionStep(cfg: Config, s: State, a: Action)
    requires SessionOk(s)
    ensures SessionOk(PublisherNext(cfg, s, a))
  {
    hide SessionInv;
    hide MarkedInv;
    hide BrokerTakes;
    hide Enqueue;
    hide StrayTakes;
    hide SessionNext;
    hide Marks;
    hide Inserts;
    hide Disconnects;
    match a
    case BrokerTake(accept) => BrokerTakesSession(cfg, s, accept);
    case MarkPublished => RowsOk(s, 0, Message(false, 0, 0));
    case Insert(e, msg) => RowsOk(s, e, msg);
    case EndSession => DisconnectsOk(s, a);
    case DropPublisher(_) => DisconnectsOk(s, a);
    case StrayTake => StrayTakesSession(cfg, s);
    case _ => SessionNextOk(s.rows, s.session, a, s.acked);
  }

  lemma SessionStep(cfg: Config, s: State, a: Action)
    requires SessionOk(s)
    ensures SessionOk(Next(cfg, s, a))
  {
    hide SessionInv;
    hide PublisherNext;
    hide DeliveryNext;
    hide LocalNext;
    hide ReplayNext;
    ConsumerKeepsSession(cfg, s, a);
    PublisherSessionStep(cfg, s, a);
  }

  lemma {:induction false} SessionAlways(cfg: Config, run: seq<Action>)
    ensures SessionOk(Exec(cfg, INIT, run))
    decreases |run|
  {
    hide Next;
    if run != [] {
      SessionAlways(cfg, run[..|run| - 1]);
      SessionStep(cfg, Exec(cfg, INIT, run[..|run| - 1]), run[|run| - 1]);
    }
  }

  /**
    A row is marked only after the broker confirmed that row's own message, although the
    confirm is read without its tag: a live, uncancelled session at its loop head has
    nothing outstanding, and one that waits has exactly the awaited event outstanding.
   */
  lemma ConfirmsMatch(cfg: Config, run: seq<Action>)
    ensures var s := Exec(cfg, INIT, run);
      && (forall e :: e in s.rows && s.rows[e].published ==> e in s.acked)
      && (s.session.pub.Head? && !s.session.cancelled ==> NothingOutstanding(s.session))
      && (s.session.pub.Await? ==> Outstanding(s.session, s.session.pub.event))
      && (s.session.pub.Marking? ==> s.session.pub.event in s.acked)
  {
    SessionAlways(cfg, run);
  }
}
