/**
  The calculation pipeline as one state machine: the transactional outbox and its
  publisher, the broker's main, retry and dead queues, the consumer's handlers, and the
  dead-queue replay tool. An action is one step of one of them; connections may drop and
  processes may stop between any two actions.

  Assumptions about the parts that are not modelled: a failed mark leaves the row
  unpublished; no store call succeeds after cancellation; a positive confirm is sent when
  the message has been copied to every queue bound to its key, of which there may be none;
  a consumer publish that returns no error has reached the exchange. A message that would
  reach a queue a second time by expiring only is dropped there, as RabbitMQ does with
  dead-letter cycles.
 */
module CalcPipeline {
  import opened RabbitTopology
  import opened Wrappers

  type EventId = nat

  /** The JSON body: whether it decodes, and the two numbers the consumer looks at. */
  datatype Message = Message(decodes: bool, attempt: int, maxAttempts: int) {
    function Attempt(): (a: int)
      ensures a >= 1
    {
      if attempt <= 0 then 1 else attempt
    }
    function MaxAttempts(): (m: int)
      ensures m >= 1
    {
      if maxAttempts <= 0 then 5 else maxAttempts
    }
  }

  /** Where a copy of a published message goes. */
  datatype Dest = ToMain | ToRetry(queue: string) | ToDead

  /**
    What the bindings make of the routing keys: the queues a message gets copies in when it is
    published with the fixed key of outbox events and replays, with the main key that retry queues
    dead-letter to, with the dead key, or with the retry key of a level.
   */
  datatype Config = Config(events: seq<Dest>, main: seq<Dest>, dead: seq<Dest>, levels: nat, retry: seq<seq<Dest>>) {
    /** The main and dead queues are bound, and every level a worker can pick has its entry. */
    predicate Valid() {
      ToMain in main && ToDead in dead && |retry| == if levels < 3 then levels else 3
    }

    function RetryDests(level: nat): seq<Dest> {
      if level < |retry| then retry[level] else []
    }
  }

  function DestOf(cfg: RabbitConfig, queue: string): Dest {
    if queue == cfg.mainQueue then ToMain else if queue == cfg.deadQueue then ToDead else ToRetry(queue)
  }

  /** The destinations of a key, one for each queue bound to it by either side. */
  function DestsFor(cfg: RabbitConfig, p: PublisherConfig, key: string): (dests: seq<Dest>) {
    var queues := QueuesFor(AllDeclarations(cfg, p), key);
    seq(|queues|, i requires 0 <= i < |queues| => DestOf(cfg, queues[i]))
  }

  /** On a broker where both sides have declared, the destinations are queues of that kind bound to the key. */
  lemma DestsMeanQueues(cfg: RabbitConfig, p: PublisherConfig, queues: Queues, bindings: set<Binding>, key: string, i: nat)
    requires CanDeclare(cfg, p) && TopologyDeclared(cfg, p, queues, bindings) && i < |DestsFor(cfg, p, key)|
    ensures var q := QueuesFor(AllDeclarations(cfg, p), key)[i];
      && Binding(key, q) in bindings && q in queues
      && match DestsFor(cfg, p, key)[i]
         case ToMain => q == cfg.mainQueue && queues[q] == QueueArgs(None, Some(cfg.deadRoutingKey))
         case ToDead => q == cfg.deadQueue && queues[q] == QueueArgs(None, None)
         case ToRetry(r) => q == r && queues[q].ttl.Some? && queues[q].deadLetterKey == Some(cfg.mainRoutingKey)
  {
    hide QueuesFor;
    var all := AllDeclarations(cfg, p);
    var q := QueuesFor(all, key)[i];
    QueuesForExact(all, key);
    assert q in QueuesFor(all, key);
    var d :| d in all && d.key == key && d.queue == q;
    var ends := EndDeclarations(cfg.mainQueue, cfg.mainRoutingKey, cfg.deadQueue, cfg.deadRoutingKey);
    assert ends[0] in all && ends[1] in all;
    RetryNamesFree(cfg, p);
    ConsumerRetryArgs(cfg, |cfg.retryQueues|);
    PublisherRetryArgs(p, |p.retryQueues|);
  }

  function PipelineConfig(cfg: RabbitConfig, p: PublisherConfig): Config {
    var levels := |cfg.retryRoutingKeys|;
    Config(DestsFor(cfg, p, EVENT_KEY), DestsFor(cfg, p, cfg.mainRoutingKey), DestsFor(cfg, p, cfg.deadRoutingKey), levels,
           seq(if levels < 3 then levels else 3, i requires 0 <= i < levels => DestsFor(cfg, p, cfg.retryRoutingKeys[i])))
  }

  datatype Holder = ByHandler(h: nat) | ByReplay
  /** Held: delivered and not acknowledged; spent: a successor of it has been published. */
  datatype Place = Main | Retry(queue: string) | Dead | Held(holder: Holder, spent: bool)

  function PlaceOf(d: Dest): Place {
    match d
    case ToMain => Main
    case ToRetry(queue) => Retry(queue)
    case ToDead => Dead
  }

  /**
    One copy of a message in the broker. A lineage is a message and the retries published
    from it; a redelivery, a dead letter or a replay starts a new one. History: first is the attempt
    number the lineage began with, runs counts its executions, levels its retry queues; trail
    holds the retry queues it has expired from since it was published or taken from the main queue.
   */
  datatype Copy = Copy(event: EventId, msg: Message, place: Place, first: int, runs: nat, levels: seq<nat>,
                       trail: set<string>) {
    function Fresh(place: Place): Copy {
      this.(place := place, first := msg.Attempt(), runs := 0, levels := [], trail := {})
    }
  }

  function NewCopy(event: EventId, msg: Message, place: Place): Copy {
    Copy(event, msg, place, msg.Attempt(), 0, [], {})
  }

  datatype Stage =
    | Received                 // taken from the main queue
    | Rejecting                // Reject(false) comes next
    | Skipping                 // ShouldSkipCalcDelivery said so
    | Running                  // processJob
    | Succeeded                // processJob returned nil
    | Failing(permanent: bool) // consumerFailed counted, the outcome not yet
    | Routed(dead: bool)       // consumerRetried or consumerDead counted
    | Republished              // the next attempt (or the dead letter) is published
    | Refused                  // the publish failed, Nack(requeue) comes next

  datatype Handler = Handler(copy: nat, event: EventId, msg: Message, live: bool, stage: Stage,
                             first: int, runs: nat, levels: seq<nat>)

  datatype Row = Row(msg: Message, published: bool)
  datatype Confirm = Confirm(event: EventId, ack: bool)
  datatype Publisher =
    | Down
    | Head(todo: seq<EventId>)
    | Await(event: EventId, todo: seq<EventId>)
    | Marking(event: EventId, todo: seq<EventId>)
  /** wire: published, not yet seen by the broker; confirms: the notification channel. */
  datatype Session = Session(pub: Publisher, live: bool, cancelled: bool, wire: seq<EventId>, confirms: seq<Confirm>)

  datatype State = State(
    rows: map<EventId, Row>,
    session: Session,
    stray: seq<EventId>,           // sent by an earlier session, may still arrive
    acked: set<EventId>,           // history: positive confirms sent by the broker
    copies: map<nat, Copy>, next: nat,
    handlers: map<nat, Handler>,
    failed: nat, retried: nat, dead: nat,
    completed: set<EventId>,       // history: acked after success or a skip
    replay: nat, replaying: bool)  // the copy held by the replay tool, if any

  const OFFLINE := Session(Down, false, false, [], [])
  const INIT := State(map[], OFFLINE, [], {}, map[], 0, map[], 0, 0, 0, {}, 0, false)

  datatype Action =
    | Insert(event: EventId, msg: Message)
    | Connect | Fetch(batch: seq<EventId>) | Publish | PublishFailed | BrokerTake(accept: bool)
    | ReadConfirm | ReadClosed | Cancel | GiveUpWait | MarkPublished | DropPublisher(kept: nat) | EndSession
    | StrayTake
    | Expire(copy: nat)
    | Deliver(copy: nat, h: nat) | Reject(h: nat) | Skip(h: nat) | Run(h: nat) | Succeed(h: nat)
    | Fail(h: nat, permanent: bool) | Route(h: nat) | MarshalFailed(h: nat)
    | Republish(h: nat) | RepublishFailed(h: nat) | Finish(h: nat)
    | LoseDelivery(h: nat) | CrashConsumer
    | ReplayGet(copy: nat) | ReplayPublish(rewritten: bool) | ReplayAck | ReplayAbort

  // --- outbox and publisher -------------------------------------------------

  function Placed(c: Copy, dests: seq<Dest>, next: nat, id: nat): Copy
    requires next <= id < next + |dests|
  {
    c.(place := PlaceOf(dests[id - next]))
  }

  /** One copy of c in each destination. */
  function Enqueue(s: State, c: Copy, dests: seq<Dest>): State {
    s.(copies := s.copies + map id: nat | s.next <= id < s.next + |dests| :: Placed(c, dests, s.next, id),
       next := s.next + |dests|)
  }

  /** file_store.go writes every outbox message as attempt 1. */
  predicate FirstAttempt(msg: Message) {
    msg.decodes ==> msg.Attempt() == 1
  }

  function BrokerTakes(cfg: Config, s: State, accept: bool): State {
    var w := s.session.wire;
    if w == [] || w[0] !in s.rows then s
    else
      var t := s.(session := s.session.(wire := w[1..], confirms := s.session.confirms + [Confirm(w[0], accept)]));
      if accept then Enqueue(t, NewCopy(w[0], s.rows[w[0]].msg, Main), cfg.events).(acked := s.acked + {w[0]}) else t
  }

  function StrayTakes(cfg: Config, s: State): State {
    if s.stray == [] || s.stray[0] !in s.rows then s
    else Enqueue(s, NewCopy(s.stray[0], s.rows[s.stray[0]].msg, Main), cfg.events).(stray := s.stray[1..])
  }

  function ReadsConfirm(ss: Session): Session {
    if !ss.pub.Await? || ss.confirms == [] then ss
    else
      // the delivery tag is not looked at
      var pub := if ss.confirms[0].ack then Marking(ss.pub.event, ss.pub.todo) else Head(ss.pub.todo);
      ss.(pub := pub, confirms := ss.confirms[1..])
  }

  /** The publisher's steps that change nothing but its own session. */
  function SessionNext(rows: map<EventId, Row>, ss: Session, a: Action): Session {
    match a
    case Connect =>
      if ss.pub.Down? then Session(Head([]), true, false, [], []) else ss
    case Fetch(batch) =>
      if ss.pub == Head([]) && !ss.cancelled && (forall e :: e in batch ==> e in rows && !rows[e].published)
      then ss.(pub := Head(batch)) else ss
    case Publish =>
      if ss.pub.Head? && ss.pub.todo != [] && ss.live
      then ss.(pub := Await(ss.pub.todo[0], ss.pub.todo[1..]), wire := ss.wire + [ss.pub.todo[0]])
      else ss
    case PublishFailed =>
      if ss.pub.Head? && ss.pub.todo != [] then ss.(pub := Head(ss.pub.todo[1..])) else ss
    case ReadConfirm => ReadsConfirm(ss)
    case ReadClosed =>
      // a closed channel yields a confirmation that is not an ack
      if ss.pub.Await? && !ss.live && ss.confirms == [] then ss.(pub := Head(ss.pub.todo)) else ss
    case Cancel => ss.(cancelled := true)
    case GiveUpWait =>
      if ss.pub.Await? && ss.cancelled then ss.(pub := Head([])) else ss
    case _ => ss
  }

  /** The connection ends, and what was on the wire may still arrive. */
  function Disconnects(s: State, a: Action): State {
    var ss := s.session;
    match a
    case DropPublisher(kept) =>
      s.(session := ss.(live := false, wire := [],
                        confirms := ss.confirms[..if kept < |ss.confirms| then kept else |ss.confirms|]),
         stray := s.stray + ss.wire)
    case EndSession => s.(session := OFFLINE, stray := s.stray + ss.wire)
    case _ => s
  }

  function Marks(s: State): State {
    var ss := s.session;
    if ss.pub.Marking? && !ss.cancelled && ss.pub.event in s.rows
    then s.(session := ss.(pub := Head(ss.pub.todo)),
            rows := s.rows[ss.pub.event := s.rows[ss.pub.event].(published := true)])
    else s
  }

  function Inserts(s: State, e: EventId, msg: Message): State {
    if e in s.rows || !FirstAttempt(msg) then s else s.(rows := s.rows[e := Row(msg, false)])
  }

  function PublisherNext(cfg: Config, s: State, a: Action): State {
    match a
    case Insert(e, msg) => Inserts(s, e, msg)
    case MarkPublished => Marks(s)
    case BrokerTake(accept) => BrokerTakes(cfg, s, accept)
    case StrayTake => StrayTakes(cfg, s)
    case DropPublisher(_) => Disconnects(s, a)
    case EndSession => Disconnects(s, a)
    case _ => s.(session := SessionNext(s.rows, s.session, a))
  }

  // --- consumer -------------------------------------------------------------

  function Without<T>(m: map<nat, T>, k: nat): map<nat, T> {
    map x | x in m && x != k :: m[x]
  }

  /** The steps a handler takes by itself, with or without a connection. */
  function HandlerNext(x: Handler, a: Action): (y: Handler) {
    match a
    case Reject(_) => if x.stage.Received? && !x.msg.decodes then x.(stage := Rejecting) else x
    case Skip(_) => if x.stage.Received? && x.msg.decodes then x.(stage := Skipping) else x
    case Run(_) => if x.stage.Received? && x.msg.decodes then x.(stage := Running, runs := x.runs + 1) else x
    case Succeed(_) => if x.stage.Running? then x.(stage := Succeeded) else x
    case Fail(_, permanent) => if x.stage.Running? then x.(stage := Failing(permanent)) else x
    case Route(_) =>
      if x.stage.Failing? then
        var msg := Message(true, x.msg.Attempt() + 1, x.msg.MaxAttempts());
        x.(msg := msg, stage := Routed(x.stage.permanent || msg.attempt > msg.maxAttempts))
      else x
    case MarshalFailed(_) => if x.stage.Routed? then x.(stage := Rejecting) else x
    case RepublishFailed(_) => if x.stage.Routed? then x.(stage := Refused) else x
    case _ => x
  }

  predicate IsLocal(a: Action) {
    a.Reject? || a.Skip? || a.Run? || a.Succeed? || a.Fail? || a.Route? || a.MarshalFailed? || a.RepublishFailed?
  }

  function LocalNext(s: State, a: Action): State
    requires IsLocal(a)
  {
    if a.h !in s.handlers then s
    else
      var x := s.handlers[a.h];
      var y := HandlerNext(x, a);
      s.(handlers := s.handlers[a.h := y],
         failed := if a.Fail? && x != y then s.failed + 1 else s.failed,
         retried := if a.Route? && y.stage == Routed(false) && x != y then s.retried + 1 else s.retried,
         dead := if a.Route? && y.stage == Routed(true) && x != y then s.dead + 1 else s.dead)
  }

  /** What the handler publishes after a failure, and with which key's destinations. */
  function NextCopy(cfg: Config, x: Handler): Copy
    requires x.stage.Routed?
  {
    if x.stage.dead || cfg.levels == 0 then NewCopy(x.event, x.msg, Dead)
    else Copy(x.event, x.msg, Main, x.first, x.runs, x.levels + [PickRetryLevel(x.msg.attempt, cfg.levels)], {})
  }

  function NextDests(cfg: Config, x: Handler): seq<Dest>
    requires x.stage.Routed?
  {
    if x.stage.dead || cfg.levels == 0 then cfg.dead else cfg.RetryDests(PickRetryLevel(x.msg.attempt, cfg.levels))
  }

  /** The delivery is still open; the next message is published, and dropped when nothing is bound to its key. */
  function Republishes(cfg: Config, s: State, h: nat): State
    requires h in s.handlers && s.handlers[h].stage.Routed?
  {
    var x := s.handlers[h];
    if !x.live || x.copy !in s.copies then s
    else
      Enqueue(s.(copies := s.copies[x.copy := s.copies[x.copy].(place := Held(ByHandler(h), true))],
                 handlers := s.handlers[h := x.(stage := Republished)]),
              NextCopy(cfg, x), NextDests(cfg, x))
  }

  /** The last Ack, Nack or Reject; on a lost delivery it does nothing. */
  function Finishes(cfg: Config, s: State, h: nat): State
    requires h in s.handlers
  {
    var x := s.handlers[h];
    var t := s.(handlers := Without(s.handlers, h));
    if !x.live || x.copy !in s.copies then
      if x.stage in {Skipping, Succeeded, Republished, Refused, Rejecting} then t else s
    else
      match x.stage
      case Skipping => t.(copies := Without(s.copies, x.copy), completed := s.completed + {x.event})
      case Succeeded => t.(copies := Without(s.copies, x.copy), completed := s.completed + {x.event})
      case Republished => t.(copies := Without(s.copies, x.copy))
      case Refused => t.(copies := s.copies[x.copy := s.copies[x.copy].Fresh(Main)])
      case Rejecting => Enqueue(t.(copies := Without(s.copies, x.copy)), s.copies[x.copy].Fresh(Dead), cfg.dead)
      case _ => s
  }

  /** The destinations but the retry queues in the trail. */
  function FirstVisits(dests: seq<Dest>, trail: set<string>): seq<Dest> {
    if dests == [] then []
    else
      var last := dests[|dests| - 1];
      FirstVisits(dests[..|dests| - 1], trail) + if last.ToRetry? && last.queue in trail then [] else [last]
  }

  /** A retry queue dead-letters to the main key; where the message has been before it is dropped. */
  function Expires(cfg: Config, s: State, c: nat): State {
    if c in s.copies && s.copies[c].place.Retry? then
      var m := s.copies[c];
      var trail := m.trail + {m.place.queue};
      Enqueue(s.(copies := Without(s.copies, c)), m.(trail := trail), FirstVisits(cfg.main, trail))
    else s
  }

  function Delivers(s: State, c: nat, h: nat): State {
    if c in s.copies && s.copies[c].place.Main? && h !in s.handlers then
      var m := s.copies[c];
      s.(copies := s.copies[c := m.(place := Held(ByHandler(h), false))],
         handlers := s.handlers[h := Handler(c, m.event, m.msg, true, Received, m.first, m.runs, m.levels)])
    else s
  }

  /** The connection drops: the broker requeues, the handler does not notice. */
  function LosesDelivery(s: State, h: nat): State {
    if h in s.handlers && s.handlers[h].live && s.handlers[h].copy in s.copies then
      var c := s.handlers[h].copy;
      s.(handlers := s.handlers[h := s.handlers[h].(live := false)],
         copies := s.copies[c := s.copies[c].Fresh(Main)])
    else s
  }

  /** A process stops: every delivery was lost, its counters are gone. */
  function Crashes(s: State): State {
    if forall h :: h in s.handlers ==> !s.handlers[h].live
    then s.(handlers := map[], failed := 0, retried := 0, dead := 0) else s
  }

  function DeliveryNext(cfg: Config, s: State, a: Action): State {
    match a
    case Expire(c) => Expires(cfg, s, c)
    case Deliver(c, h) => Delivers(s, c, h)
    case Republish(h) => if h in s.handlers && s.handlers[h].stage.Routed? then Republishes(cfg, s, h) else s
    case Finish(h) => if h in s.handlers then Finishes(cfg, s, h) else s
    case LoseDelivery(h) => LosesDelivery(s, h)
    case CrashConsumer => Crashes(s)
    case _ => s
  }

  // --- dead queue replay ----------------------------------------------------

  function ReplayNext(cfg: Config, s: State, a: Action): State {
    match a
    case ReplayGet(c) =>
      if !s.replaying && c in s.copies && s.copies[c].place.Dead?
      then s.(copies := s.copies[c := s.copies[c].(place := Held(ByReplay, false))], replay := c, replaying := true)
      else s
    case ReplayPublish(rewritten) =>
      if s.replaying && s.replay in s.copies && s.copies[s.replay].place == Held(ByReplay, false) then
        var m := s.copies[s.replay];
        // a body the consumer can decode is a JSON object, and gets its attempt reset
        var msg := if rewritten || m.msg.decodes then m.msg.(attempt := 1) else m.msg;
        Enqueue(s.(copies := s.copies[s.replay := m.(place := Held(ByReplay, true))]), NewCopy(m.event, msg, Main), cfg.events)
      else s
    case ReplayAck =>
      if s.replaying && s.replay in s.copies && s.copies[s.replay].place == Held(ByReplay, true)
      then s.(copies := Without(s.copies, s.replay), replaying := false) else s
    case ReplayAbort =>
      // Nack(requeue), exit or a lost connection: back to the dead queue
      if s.replaying && s.replay in s.copies
      then s.(copies := s.copies[s.replay := s.copies[s.replay].(place := Dead)], replaying := false) else s
    case _ => s
  }

  /** An action that is not enabled leaves the state as it is. */
  function Next(cfg: Config, s: State, a: Action): State {
    if a.ReplayGet? || a.ReplayPublish? || a.ReplayAck? || a.ReplayAbort? then ReplayNext(cfg, s, a)
    else if IsLocal(a) then LocalNext(s, a)
    else if IsDelivery(a) then DeliveryNext(cfg, s, a)
    else PublisherNext(cfg, s, a)
  }

  /** The consumer's steps at the broker. */
  predicate IsDelivery(a: Action) {
    a.Expire? || a.Deliver? || a.Republish? || a.Finish? || a.LoseDelivery? || a.CrashConsumer?
  }

  function Exec(cfg: Config, s: State, run: seq<Action>): State
    decreases |run|
  {
    if run == [] then s else Next(cfg, Exec(cfg, s, run[..|run| - 1]), run[|run| - 1])
  }

  // --- what each part of the system leaves alone -----------------------------

  predicate SameOutbox(s: State, t: State) {
    t.rows == s.rows && t.session == s.session && t.stray == s.stray && t.acked == s.acked
  }

  lemma LocalFrame(s: State, a: Action)
    requires IsLocal(a)
    ensures SameOutbox(s, LocalNext(s, a)) && LocalNext(s, a).completed == s.completed
  {
  }

  lemma FinishesFrame(cfg: Config, s: State, h: nat)
    requires h in s.handlers
    ensures SameOutbox(s, Finishes(cfg, s, h)) && s.completed <= Finishes(cfg, s, h).completed
  {
  }

  lemma RepublishesFrame(cfg: Config, s: State, h: nat)
    requires h in s.handlers && s.handlers[h].stage.Routed?
    ensures SameOutbox(s, Republishes(cfg, s, h)) && Republishes(cfg, s, h).completed == s.completed
  {
  }

  lemma DeliveryFrame(cfg: Config, s: State, a: Action)
    ensures SameOutbox(s, DeliveryNext(cfg, s, a)) && s.completed <= DeliveryNext(cfg, s, a).completed
  {
    hide Finishes;
    hide Republishes;
    match a
    case Republish(h) => if h in s.handlers && s.handlers[h].stage.Routed? { RepublishesFrame(cfg, s, h); }
    case Finish(h) => if h in s.handlers { FinishesFrame(cfg, s, h); }
    case _ =>
  }

  lemma ReplayFrame(cfg: Config, s: State, a: Action)
    ensures var t := ReplayNext(cfg, s, a);
      && SameOutbox(s, t) && t.completed == s.completed
      && t.handlers == s.handlers && t.failed == s.failed && t.retried == s.retried && t.dead == s.dead
  {
  }

  lemma ConsumerKeepsSession(cfg: Config, s: State, a: Action)
    ensures SameOutbox(s, DeliveryNext(cfg, s, a)) && SameOutbox(s, ReplayNext(cfg, s, a))
    ensures IsLocal(a) ==> SameOutbox(s, LocalNext(s, a))
  {
    hide DeliveryNext;
    hide LocalNext;
    hide ReplayNext;
    DeliveryFrame(cfg, s, a);
    ReplayFrame(cfg, s, a);
    if IsLocal(a) { LocalFrame(s, a); }
  }

  /** What the consumer and the replay tool work on. */
  predicate SameConsumer(s: State, t: State) {
    && t.handlers == s.handlers && t.failed == s.failed && t.retried == s.retried && t.dead == s.dead
    && t.completed == s.completed && t.replay == s.replay && t.replaying == s.replaying
  }

  predicate SameCopies(s: State, t: State) {
    t.copies == s.copies && t.next == s.next
  }

  predicate Enqueued(cfg: Config, s: State, t: State, e: EventId) {
    e in s.rows && SameCopies(Enqueue(s, NewCopy(e, s.rows[e].msg, Main), cfg.events), t)
  }

  predicate Arrives(s: State, a: Action) {
    || (a.BrokerTake? && a.accept && s.session.wire != [] && s.session.wire[0] in s.rows)
    || (a.StrayTake? && s.stray != [] && s.stray[0] in s.rows)
  }

  lemma QuietFrame(s: State, a: Action, e: EventId, msg: Message)
    ensures SameConsumer(s, Marks(s)) && SameCopies(s, Marks(s))
    ensures SameConsumer(s, Inserts(s, e, msg)) && SameCopies(s, Inserts(s, e, msg))
    ensures SameConsumer(s, Disconnects(s, a)) && SameCopies(s, Disconnects(s, a))
  {
  }

  lemma SessionFrame(s: State, ss: Session)
    ensures SameConsumer(s, s.(session := ss)) && SameCopies(s, s.(session := ss))
  {
  }

  lemma EnqueueFrame(s: State, c: Copy, dests: seq<Dest>)
    ensures SameConsumer(s, Enqueue(s, c, dests)) && SameOutbox(s, Enqueue(s, c, dests))
  {
  }

  lemma EnqueueSame(s: State, t: State, c: Copy, dests: seq<Dest>)
    requires SameCopies(s, t)
    ensures SameCopies(Enqueue(s, c, dests), Enqueue(t, c, dests)) && Enqueue(s, c, dests).next == s.next + |dests|
  {
  }

  lemma TakenFrame(cfg: Config, s: State, accept: bool)
    ensures var t := BrokerTakes(cfg, s, accept);
      SameConsumer(s, t) && if Arrives(s, BrokerTake(accept)) then Enqueued(cfg, s, t, s.session.wire[0]) else SameCopies(s, t)
  {
    hide Enqueue;
    var w := s.session.wire;
    if Arrives(s, BrokerTake(accept)) {
      var u := s.(session := s.session.(wire := w[1..], confirms := s.session.confirms + [Confirm(w[0], accept)]));
      var c := NewCopy(w[0], s.rows[w[0]].msg, Main);
      EnqueueFrame(u, c, cfg.events);
      EnqueueSame(s, u, c, cfg.events);
    }
  }

  lemma StrayFrame(cfg: Config, s: State)
    ensures var t := StrayTakes(cfg, s);
      SameConsumer(s, t) && if Arrives(s, StrayTake) then Enqueued(cfg, s, t, s.stray[0]) else SameCopies(s, t)
  {
    hide Enqueue;
    if Arrives(s, StrayTake) {
      EnqueueFrame(s, NewCopy(s.stray[0], s.rows[s.stray[0]].msg, Main), cfg.events);
    }
  }

  /** The publisher's side leaves the consumer alone and at most publishes one new message with the key of events. */
  lemma PublisherFrame(cfg: Config, s: State, a: Action)
    ensures var t := PublisherNext(cfg, s, a);
      && SameConsumer(s, t)
      && if Arrives(s, a) then Enqueued(cfg, s, t, if a.BrokerTake? then s.session.wire[0] else s.stray[0])
         else SameCopies(s, t)
  {
    hide SessionNext;
    hide Marks;
    hide Inserts;
    hide Disconnects;
    hide BrokerTakes;
    hide StrayTakes;
    hide SameConsumer;
    hide SameCopies;
    hide Enqueued;
    SessionFrame(s, SessionNext(s.rows, s.session, a));
    match a
    case Insert(e, msg) => QuietFrame(s, a, e, msg);
    case MarkPublished => QuietFrame(s, a, 0, Message(false, 0, 0));
    case DropPublisher(_) => QuietFrame(s, a, 0, Message(false, 0, 0));
    case EndSession => QuietFrame(s, a, 0, Message(false, 0, 0));
    case BrokerTake(accept) => TakenFrame(cfg, s, accept);
    case StrayTake => StrayFrame(cfg, s);
    case _ =>
  }
}
