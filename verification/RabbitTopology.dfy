/**
  Queue topology of the calculation broker: what the consumer declares
  (backend/internal/calcworker/rabbit.go) and what the outbox publisher declares
  (backend/internal/outbox/publisher.go) on the same exchange.
 */
module RabbitTopology {
  import opened Text
  import opened Wrappers

  datatype RabbitConfig = RabbitConfig(
    mainQueue: string, mainRoutingKey: string,
    deadQueue: string, deadRoutingKey: string,
    retryQueues: seq<string>, retryRoutingKeys: seq<string>,
    prefetch: int)

  /** ttl: a time.Duration, in nanoseconds */
  datatype RetryQueue = RetryQueue(name: string, key: string, ttl: int)
  datatype PublisherConfig = PublisherConfig(mainRoutingKey: string, deadRoutingKey: string,
                                             retryQueues: seq<RetryQueue>)

  const MAIN_QUEUE := "estimate.calc.main"
  const MAIN_KEY := "estimate.calc"
  /** The key of every outbox event and every replay, whatever the configurations say. */
  const EVENT_KEY := "estimate.calc"
  const DEAD_QUEUE := "estimate.calc.dlq"
  const DEAD_KEY := "estimate.calc.dead"
  const RETRY_5S := "estimate.calc.retry.5s"
  const RETRY_30S := "estimate.calc.retry.30s"
  const RETRY_120S := "estimate.calc.retry.120s"
  const NANOS_IN_A_MILLI := 1_000_000
  const DEFAULT_RETRY: seq<string> := [RETRY_5S, RETRY_30S, RETRY_120S]

  function OrDefault(value: string, default: string): string {
    if value == "" then default else value
  }

  function NormalizeRabbitConfig(cfg: RabbitConfig): (r: RabbitConfig)
    ensures 1 <= r.prefetch <= 32 && r.retryRoutingKeys != [] && r.retryQueues != []
    ensures r.mainRoutingKey != "" && r.deadRoutingKey != "" && r.mainQueue != "" && r.deadQueue != ""
    ensures cfg.mainQueue in {"", r.mainQueue} && cfg.mainRoutingKey in {"", r.mainRoutingKey}
    ensures cfg.deadQueue in {"", r.deadQueue} && cfg.deadRoutingKey in {"", r.deadRoutingKey}
    ensures cfg.retryQueues == [] || cfg.retryQueues == r.retryQueues
    ensures cfg.retryRoutingKeys == [] || cfg.retryRoutingKeys == r.retryRoutingKeys
    ensures 1 <= cfg.prefetch <= 32 ==> r.prefetch == cfg.prefetch
  {
    RabbitConfig(
      OrDefault(cfg.mainQueue, MAIN_QUEUE),
      OrDefault(cfg.mainRoutingKey, MAIN_KEY),
      OrDefault(cfg.deadQueue, DEAD_QUEUE),
      OrDefault(cfg.deadRoutingKey, DEAD_KEY),
      if cfg.retryQueues == [] then DEFAULT_RETRY else cfg.retryQueues,
      if cfg.retryRoutingKeys == [] then DEFAULT_RETRY else cfg.retryRoutingKeys,
      if cfg.prefetch <= 0 then 8 else if cfg.prefetch > 32 then 32 else cfg.prefetch)
  }

  /** The defaults of RunPublisher. */
  function NormalizePublisherConfig(p: PublisherConfig): PublisherConfig {
    PublisherConfig(
      OrDefault(p.mainRoutingKey, MAIN_KEY),
      OrDefault(p.deadRoutingKey, DEAD_KEY),
      if p.retryQueues != [] then p.retryQueues
      else [RetryQueue(RETRY_5S, RETRY_5S, 5000 * NANOS_IN_A_MILLI),
            RetryQueue(RETRY_30S, RETRY_30S, 30000 * NANOS_IN_A_MILLI),
            RetryQueue(RETRY_120S, RETRY_120S, 120000 * NANOS_IN_A_MILLI)])
  }

  /** What is filled in on both sides: names, keys, times to live, and the number of unacknowledged deliveries. */
  lemma DefaultsAre(prefetch: int)
    ensures var retry := ["estimate.calc.retry.5s", "estimate.calc.retry.30s", "estimate.calc.retry.120s"];
      && NormalizeRabbitConfig(RabbitConfig("", "", "", "", [], [], prefetch))
         == RabbitConfig("estimate.calc.main", "estimate.calc", "estimate.calc.dlq", "estimate.calc.dead", retry, retry,
                         if prefetch < 1 then 8 else if prefetch > 32 then 32 else prefetch)
      && NormalizePublisherConfig(PublisherConfig("", "", []))
         == PublisherConfig("estimate.calc", "estimate.calc.dead",
                            [RetryQueue(retry[0], retry[0], 5_000_000_000), RetryQueue(retry[1], retry[1], 30_000_000_000),
                             RetryQueue(retry[2], retry[2], 120_000_000_000)])
  {
  }

  /** Position in RetryRoutingKeys that pickRetryRoutingKey takes for an attempt number. */
  function PickRetryLevel(attempt: int, levels: nat): (level: nat)
    requires levels > 0
    ensures level < levels && level < 3
  {
    if attempt <= 2 then 0
    else if attempt <= 4 && levels >= 2 then 1
    else if levels >= 3 then 2
    else levels - 1
  }

  function PickRetryRoutingKey(attempt: int, cfg: RabbitConfig): string {
    if cfg.retryRoutingKeys == [] then cfg.deadRoutingKey
    else cfg.retryRoutingKeys[PickRetryLevel(attempt, |cfg.retryRoutingKeys|)]
  }

  /** A later attempt never waits in an earlier retry queue, and no level is skipped. */
  lemma RetryLevelsNeverDecrease(a: int, b: int, levels: nat)
    requires a <= b && levels > 0
    ensures PickRetryLevel(a, levels) <= PickRetryLevel(b, levels)
    ensures PickRetryLevel(a + 1, levels) <= PickRetryLevel(a, levels) + 1
    ensures levels >= 3 ==> (PickRetryLevel(a, levels) == 2 <==> a >= 5)
    ensures PickRetryLevel(a, levels) == 0 <==> levels == 1 || a <= 2
  {
  }

  // --- declarations ---------------------------------------------------------

  /** x-message-ttl in milliseconds and x-dead-letter-routing-key. */
  datatype QueueArgs = QueueArgs(ttl: Option<int>, deadLetterKey: Option<string>)
  datatype Binding = Binding(key: string, queue: string)
  /** A queue declared with arguments and bound to a key. */
  datatype Declaration = Declaration(queue: string, args: QueueArgs, key: string)
  type Queues = map<string, QueueArgs>

  /** A negative time to live is refused, and so are other arguments than the queue has. */
  predicate Accepts(queues: Queues, d: Declaration) {
    && (d.args.ttl.Some? ==> d.args.ttl.value >= 0)
    && (d.queue in queues ==> queues[d.queue] == d.args)
  }

  class Broker {
    var queues: Queues
    var bindings: set<Binding>

    constructor ()
      ensures queues == map[] && bindings == {}
    {
      queues := map[];
      bindings := {};
    }

    /** QueueDeclare and, unless that is a channel error, QueueBind. */
    method Declare(d: Declaration) returns (ok: bool)
      modifies this
      ensures ok == Accepts(old(queues), d)
      ensures queues == if ok then old(queues)[d.queue := d.args] else old(queues)
      ensures bindings == old(bindings) + if ok then {Binding(d.key, d.queue)} else {}
    {
      ok := Accepts(queues, d);
      if ok {
        queues := queues[d.queue := d.args];
        bindings := bindings + {Binding(d.key, d.queue)};
      }
    }
  }

  // --- what each side declares ------------------------------------------------

  function RetryTtl(i: nat): int {
    if i == 0 then 5000 else if i == 1 then 30000 else 120000
  }

  /** int32(x) */
  function ToInt32(x: int): int {
    (x + 0x8000_0000) % 0x1_0000_0000 - 0x8000_0000
  }

  /** The i-th retry queue is declared and bound to the i-th retry key. */
  predicate IsRetrySlot(cfg: RabbitConfig, i: nat) {
    i < |cfg.retryQueues| && i < |cfg.retryRoutingKeys| && !Blank(cfg.retryQueues[i])
  }

  predicate IsPublisherRetry(q: RetryQueue) {
    q.name != "" && q.key != "" && q.ttl > 0
  }

  /** A retry queue dead-letters to the main key. */
  function RetryDeclaration(queue: string, ttl: int, key: string, mainKey: string): Declaration {
    Declaration(queue, QueueArgs(Some(ttl), Some(mainKey)), key)
  }

  /** The main queue dead-letters to the dead key, the dead queue nowhere. */
  function EndDeclarations(mainQueue: string, mainKey: string, deadQueue: string, deadKey: string): seq<Declaration> {
    [Declaration(mainQueue, QueueArgs(None, Some(deadKey)), mainKey),
     Declaration(deadQueue, QueueArgs(None, None), deadKey)]
  }

  /** The first n retry slots of the consumer, in the order of declaration. */
  function ConsumerRetry(cfg: RabbitConfig, n: nat): seq<Declaration>
    requires n <= |cfg.retryQueues|
  {
    if n == 0 then []
    else ConsumerRetry(cfg, n - 1)
         + if IsRetrySlot(cfg, n - 1)
           then [RetryDeclaration(cfg.retryQueues[n - 1], RetryTtl(n - 1), cfg.retryRoutingKeys[n - 1], cfg.mainRoutingKey)]
           else []
  }

  function PublisherRetry(p: PublisherConfig, n: nat): seq<Declaration>
    requires n <= |p.retryQueues|
  {
    if n == 0 then []
    else
      var q := p.retryQueues[n - 1];
      PublisherRetry(p, n - 1)
      + if IsPublisherRetry(q)
        then [RetryDeclaration(q.name, ToInt32(q.ttl / NANOS_IN_A_MILLI), q.key, p.mainRoutingKey)] else []
  }

  function ConsumerDeclarations(cfg: RabbitConfig): seq<Declaration> {
    EndDeclarations(cfg.mainQueue, cfg.mainRoutingKey, cfg.deadQueue, cfg.deadRoutingKey)
    + ConsumerRetry(cfg, |cfg.retryQueues|)
  }

  function PublisherDeclarations(p: PublisherConfig): seq<Declaration> {
    EndDeclarations(MAIN_QUEUE, p.mainRoutingKey, DEAD_QUEUE, p.deadRoutingKey) + PublisherRetry(p, |p.retryQueues|)
  }

  function AllDeclarations(cfg: RabbitConfig, p: PublisherConfig): seq<Declaration> {
    PublisherDeclarations(p) + ConsumerDeclarations(cfg)
  }

  function BindingsOf(list: seq<Declaration>): set<Binding> {
    set d | d in list :: Binding(d.key, d.queue)
  }

  // --- declaring a list -------------------------------------------------------

  /** No two declarations contradict each other. */
  predicate Consistent(list: seq<Declaration>) {
    forall d, e :: d in list && e in list && d.queue == e.queue ==> d.args == e.args
  }

  /** The list can be declared on a broker that has these queues. */
  predicate Declarable(queues: Queues, list: seq<Declaration>) {
    Consistent(list) && forall d :: d in list ==> Accepts(queues, d)
  }

  predicate Holds(queues: Queues, list: seq<Declaration>) {
    forall d :: d in list ==> d.queue in queues && queues[d.queue] == d.args
  }

  ghost predicate Extends(before: Queues, after: Queues) {
    forall q :: q in before ==> q in after && after[q] == before[q]
  }

  /** The queues of before and of the list, and no others. */
  ghost predicate Declared(before: Queues, after: Queues, list: seq<Declaration>) {
    && Extends(before, after) && Holds(after, list)
    && forall q :: q in after ==> q in before || exists d :: d in list && d.queue == q
  }

  lemma DeclarableStep(before: Queues, after: Queues, list: seq<Declaration>, d: Declaration)
    requires Declarable(before, list) && Declared(before, after, list)
    ensures Declarable(before, list + [d]) <==> Accepts(after, d)
  {
    var more := list + [d];
    assert forall x :: x in more <==> x in list || x == d;
    if Declarable(before, more) && d.queue in after && d.queue !in before {
      var e :| e in list && e.queue == d.queue;
      assert d in more && e in more;
    }
    if Accepts(after, d) {
      forall e | e in list && e.queue == d.queue ensures e.args == d.args { }
    }
  }

  lemma DeclaredStep(before: Queues, after: Queues, list: seq<Declaration>, d: Declaration)
    requires Declared(before, after, list) && Accepts(after, d)
    ensures Declared(before, after[d.queue := d.args], list + [d])
  {
    var now, more := after[d.queue := d.args], list + [d];
    forall q | q in now && q !in before ensures exists e :: e in more && e.queue == q {
      if q == d.queue { assert d in more; } else { var e :| e in list && e.queue == q; assert e in more; }
    }
  }

  lemma BindingsStep(list: seq<Declaration>, d: Declaration)
    ensures BindingsOf(list + [d]) == BindingsOf(list) + {Binding(d.key, d.queue)}
  {
  }

  lemma DeclarablePrefix(queues: Queues, list: seq<Declaration>, longer: seq<Declaration>)
    requires list <= longer && Declarable(queues, longer)
    ensures Declarable(queues, list)
  {
    assert forall d :: d in list ==> d in longer;
  }

  lemma {:induction false} ConsumerRetryGrows(cfg: RabbitConfig, i: nat, n: nat)
    requires i <= n <= |cfg.retryQueues|
    ensures ConsumerRetry(cfg, i) <= ConsumerRetry(cfg, n)
  {
    if i < n { ConsumerRetryGrows(cfg, i, n - 1); }
  }

  lemma {:induction false} PublisherRetryGrows(p: PublisherConfig, i: nat, n: nat)
    requires i <= n <= |p.retryQueues|
    ensures PublisherRetry(p, i) <= PublisherRetry(p, n)
  {
    if i < n { PublisherRetryGrows(p, i, n - 1); }
  }

  /** The broker has what it had before and the declarations of the list so far. */
  ghost predicate Progress(broker: Broker, before: Queues, bound: set<Binding>, list: seq<Declaration>)
    reads broker
  {
    Declarable(before, list) && Declared(before, broker.queues, list) && broker.bindings == bound + BindingsOf(list)
  }

  /** One more declaration: the whole list fails if this one does. */
  method DeclareNext(broker: Broker, d: Declaration, ghost before: Queues, ghost bound: set<Binding>,
                     ghost list: seq<Declaration>, ghost whole: seq<Declaration>)
    returns (ok: bool)
    requires Progress(broker, before, bound, list) && list + [d] <= whole
    modifies broker
    ensures ok ==> Progress(broker, before, bound, list + [d])
    ensures !ok ==> !Declarable(before, whole)
  {
    DeclarableStep(before, broker.queues, list, d);
    if Accepts(broker.queues, d) { DeclaredStep(before, broker.queues, list, d); }
    BindingsStep(list, d);
    if Declarable(before, whole) { DeclarablePrefix(before, list + [d], whole); }
    ok := broker.Declare(d);
  }

  lemma NothingDeclared(queues: Queues)
    ensures Declarable(queues, []) && Declared(queues, queues, []) && BindingsOf([]) == {}
  {
  }

  /** The main and the dead queue, with which both sides begin. */
  method DeclareEnds(broker: Broker, mainQueue: string, mainKey: string, deadQueue: string, deadKey: string,
                     ghost whole: seq<Declaration>)
    returns (ok: bool)
    requires EndDeclarations(mainQueue, mainKey, deadQueue, deadKey) <= whole
    modifies broker
    ensures ok ==> Progress(broker, old(broker.queues), old(broker.bindings),
                            EndDeclarations(mainQueue, mainKey, deadQueue, deadKey))
    ensures !ok ==> !Declarable(old(broker.queues), whole)
  {
    ghost var before, bound := broker.queues, broker.bindings;
    var ends := EndDeclarations(mainQueue, mainKey, deadQueue, deadKey);
    NothingDeclared(before);
    assert [] + [ends[0]] <= whole && [] + [ends[0]] + [ends[1]] == ends;
    ok := DeclareNext(broker, ends[0], before, bound, [], whole);
    if !ok { return; }
    ok := DeclareNext(broker, ends[1], before, bound, [ends[0]], whole);
  }

  /** The loop over cfg.RetryQueues. */
  method DeclareRetryQueues(broker: Broker, cfg: RabbitConfig, ghost before: Queues, ghost bound: set<Binding>,
                            ghost front: seq<Declaration>)
    returns (ok: bool)
    requires Progress(broker, before, bound, front)
    modifies broker
    ensures ok == Declarable(before, front + ConsumerRetry(cfg, |cfg.retryQueues|))
    ensures ok ==> Progress(broker, before, bound, front + ConsumerRetry(cfg, |cfg.retryQueues|))
  {
    hide Progress;
    hide Declarable;
    ghost var n := |cfg.retryQueues|;
    assert front + ConsumerRetry(cfg, 0) == front;
    var i := 0;
    while i < |cfg.retryQueues|
      invariant 0 <= i <= n
      invariant Progress(broker, before, bound, front + ConsumerRetry(cfg, i))
    {
      var queue := cfg.retryQueues[i];
      if i < |cfg.retryRoutingKeys| && !Blank(queue) {
        var d := RetryDeclaration(queue, RetryTtl(i), cfg.retryRoutingKeys[i], cfg.mainRoutingKey);
        ConsumerRetryGrows(cfg, i + 1, n);
        assert front + ConsumerRetry(cfg, i + 1) == (front + ConsumerRetry(cfg, i)) + [d];
        ok := DeclareNext(broker, d, before, bound, front + ConsumerRetry(cfg, i), front + ConsumerRetry(cfg, n));
        if !ok { return; }
      } else {
        assert ConsumerRetry(cfg, i + 1) == ConsumerRetry(cfg, i);
      }
      i := i + 1;
    }
    ProgressParts(broker, before, bound, front + ConsumerRetry(cfg, n));
    ok := true;
  }

  lemma ProgressParts(broker: Broker, before: Queues, bound: set<Binding>, list: seq<Declaration>)
    requires Progress(broker, before, bound, list)
    ensures Declarable(before, list) && Declared(before, broker.queues, list)
    ensures broker.bindings == bound + BindingsOf(list)
  {
  }

  /** declareRabbitTopology, on a broker with any declarations: when it succeeds, and what it leaves. */
  method DeclareRabbitTopology(broker: Broker, cfg: RabbitConfig) returns (ok: bool)
    modifies broker
    ensures ok == Declarable(old(broker.queues), ConsumerDeclarations(cfg))
    ensures ok ==> Declared(old(broker.queues), broker.queues, ConsumerDeclarations(cfg))
    ensures ok ==> broker.bindings == old(broker.bindings) + BindingsOf(ConsumerDeclarations(cfg))
  {
    hide Declarable;
    hide Declared;
    hide Progress;
    ghost var before, bound, whole := broker.queues, broker.bindings, ConsumerDeclarations(cfg);
    ok := DeclareEnds(broker, cfg.mainQueue, cfg.mainRoutingKey, cfg.deadQueue, cfg.deadRoutingKey, whole);
    if !ok { return; }
    ok := DeclareRetryQueues(broker, cfg, before, bound,
                             EndDeclarations(cfg.mainQueue, cfg.mainRoutingKey, cfg.deadQueue, cfg.deadRoutingKey));
    if ok { ProgressParts(broker, before, bound, whole); }
  }

  /** The loop over the publisher's retry queues. */
  method DeclarePublisherRetries(broker: Broker, p: PublisherConfig, ghost before: Queues, ghost bound: set<Binding>,
                                 ghost front: seq<Declaration>)
    returns (ok: bool)
    requires Progress(broker, before, bound, front)
    modifies broker
    ensures ok == Declarable(before, front + PublisherRetry(p, |p.retryQueues|))
    ensures ok ==> Progress(broker, before, bound, front + PublisherRetry(p, |p.retryQueues|))
  {
    hide Progress;
    hide Declarable;
    ghost var n := |p.retryQueues|;
    assert front + PublisherRetry(p, 0) == front;
    for i := 0 to |p.retryQueues|
      invariant Progress(broker, before, bound, front + PublisherRetry(p, i))
    {
      var retry := p.retryQueues[i];
      if retry.name == "" || retry.key == "" || retry.ttl <= 0 {
        assert PublisherRetry(p, i + 1) == PublisherRetry(p, i);
        continue;
      }
      var d := RetryDeclaration(retry.name, ToInt32(retry.ttl / NANOS_IN_A_MILLI), retry.key, p.mainRoutingKey);
      PublisherRetryGrows(p, i + 1, n);
      assert front + PublisherRetry(p, i + 1) == (front + PublisherRetry(p, i)) + [d];
      ok := DeclareNext(broker, d, before, bound, front + PublisherRetry(p, i), front + PublisherRetry(p, n));
      if !ok { return; }
    }
    ProgressParts(broker, before, bound, front + PublisherRetry(p, n));
    ok := true;
  }

  /** declareTopology, which every publisher session begins with. */
  method DeclareTopology(broker: Broker, p: PublisherConfig) returns (ok: bool)
    modifies broker
    ensures ok == Declarable(old(broker.queues), PublisherDeclarations(p))
    ensures ok ==> Declared(old(broker.queues), broker.queues, PublisherDeclarations(p))
    ensures ok ==> broker.bindings == old(broker.bindings) + BindingsOf(PublisherDeclarations(p))
  {
    hide Declarable;
    hide Declared;
    hide Progress;
    ghost var before, bound, whole := broker.queues, broker.bindings, PublisherDeclarations(p);
    ok := DeclareEnds(broker, MAIN_QUEUE, p.mainRoutingKey, DEAD_QUEUE, p.deadRoutingKey, whole);
    if !ok { return; }
    ok := DeclarePublisherRetries(broker, p, before, bound,
                                  EndDeclarations(MAIN_QUEUE, p.mainRoutingKey, DEAD_QUEUE, p.deadRoutingKey));
    if ok { ProgressParts(broker, before, bound, whole); }
  }

  // --- both sides on one broker -----------------------------------------------

  /** What the sides that have declared by now declare. */
  function Seen(cfg: RabbitConfig, p: PublisherConfig, consumers: seq<bool>): seq<Declaration> {
    (if false in consumers then PublisherDeclarations(p) else [])
    + if true in consumers then ConsumerDeclarations(cfg) else []
  }

  lemma DeclareMore(mid: Queues, list: seq<Declaration>, more: seq<Declaration>, both: seq<Declaration>)
    requires Declarable(map[], list) && Declared(map[], mid, list)
    requires forall d :: d in both <==> d in list || d in more
    ensures Declarable(mid, more) <==> Declarable(map[], both)
    ensures forall after :: Declared(mid, after, more) ==> Declared(map[], after, both)
    ensures BindingsOf(both) == BindingsOf(list) + BindingsOf(more)
  {
    if Declarable(mid, more) {
      forall d, e | d in both && e in both && d.queue == e.queue ensures d.args == e.args {
        if d in list && e in more { assert Accepts(mid, e); }
        if e in list && d in more { assert Accepts(mid, d); }
      }
    }
    if Declarable(map[], both) {
      forall d | d in more ensures Accepts(mid, d) {
        assert Accepts(map[], d);
        if d.queue in mid { var e :| e in list && e.queue == d.queue; }
      }
    }
    forall after | Declared(mid, after, more) ensures Declared(map[], after, both) {
      forall q | q in after ensures exists d :: d in both && d.queue == q {
        if q in mid { var d :| d in list && d.queue == q; assert d in both; }
        else { var d :| d in more && d.queue == q; assert d in both; }
      }
    }
  }

  /**
    Publisher and consumer sessions declare in any order and as often as they like. They all
    succeed exactly when no two of their declarations contradict each other.
   */
  method DeclareAll(broker: Broker, cfg: RabbitConfig, p: PublisherConfig, consumers: seq<bool>) returns (ok: bool)
    requires broker.queues == map[] && broker.bindings == {}
    modifies broker
    ensures ok == Declarable(map[], Seen(cfg, p, consumers))
    ensures ok ==> Declared(map[], broker.queues, Seen(cfg, p, consumers))
    ensures ok ==> broker.bindings == BindingsOf(Seen(cfg, p, consumers))
  {
    hide Declarable;
    hide Declared;
    hide BindingsOf;
    hide ConsumerDeclarations;
    hide PublisherDeclarations;
    NothingDeclared(map[]);
    assert Seen(cfg, p, consumers[..0]) == [];
    for i := 0 to |consumers|
      invariant Declarable(map[], Seen(cfg, p, consumers[..i]))
      invariant Declared(map[], broker.queues, Seen(cfg, p, consumers[..i]))
      invariant broker.bindings == BindingsOf(Seen(cfg, p, consumers[..i]))
    {
      ghost var mid, list := broker.queues, Seen(cfg, p, consumers[..i]);
      ghost var more := if consumers[i] then ConsumerDeclarations(cfg) else PublisherDeclarations(p);
      assert consumers[..i + 1] == consumers[..i] + [consumers[i]];
      DeclareMore(mid, list, more, Seen(cfg, p, consumers[..i + 1]));
      if consumers[i] {
        ok := DeclareRabbitTopology(broker, cfg);
      } else {
        ok := DeclareTopology(broker, p);
      }
      if !ok {
        SeenGrows(cfg, p, consumers, i + 1);
        return;
      }
    }
    assert consumers[..|consumers|] == consumers;
    ok := true;
  }

  lemma SeenGrows(cfg: RabbitConfig, p: PublisherConfig, consumers: seq<bool>, n: nat)
    requires n <= |consumers|
    ensures Declarable(map[], Seen(cfg, p, consumers)) ==> Declarable(map[], Seen(cfg, p, consumers[..n]))
  {
    hide ConsumerDeclarations;
    hide PublisherDeclarations;
    assert forall x :: x in consumers[..n] ==> x in consumers;
    assert forall d :: d in Seen(cfg, p, consumers[..n]) ==> d in Seen(cfg, p, consumers);
  }

  /** Both sides are configured for the same main and dead queue and key. */
  predicate Agree(cfg: RabbitConfig, p: PublisherConfig) {
    && cfg.mainQueue == MAIN_QUEUE && cfg.mainRoutingKey == p.mainRoutingKey
    && cfg.deadQueue == DEAD_QUEUE && cfg.deadRoutingKey == p.deadRoutingKey
  }

  /** Both sides can declare what they want on one broker. */
  predicate CanDeclare(cfg: RabbitConfig, p: PublisherConfig) {
    Declarable(map[], AllDeclarations(cfg, p))
  }

  /** Both sides have declared. */
  predicate TopologyDeclared(cfg: RabbitConfig, p: PublisherConfig, queues: Queues, bindings: set<Binding>) {
    Agree(cfg, p) && Holds(queues, AllDeclarations(cfg, p)) && bindings == BindingsOf(AllDeclarations(cfg, p))
  }

  /** Two sides that can declare name no retry queue like the main or the dead queue, and none with two TTLs. */
  lemma {:induction false} RetryNamesFree(cfg: RabbitConfig, p: PublisherConfig)
    requires CanDeclare(cfg, p) && Agree(cfg, p)
    ensures forall d :: d in ConsumerRetry(cfg, |cfg.retryQueues|) + PublisherRetry(p, |p.retryQueues|) ==>
      d.queue != cfg.mainQueue && d.queue != cfg.deadQueue && d.args.deadLetterKey == Some(cfg.mainRoutingKey)
  {
    var ends := EndDeclarations(cfg.mainQueue, cfg.mainRoutingKey, cfg.deadQueue, cfg.deadRoutingKey);
    assert ends[0] in AllDeclarations(cfg, p) && ends[1] in AllDeclarations(cfg, p);
    ConsumerRetryArgs(cfg, |cfg.retryQueues|);
    PublisherRetryArgs(p, |p.retryQueues|);
  }

  lemma {:induction false} ConsumerRetryArgs(cfg: RabbitConfig, n: nat)
    requires n <= |cfg.retryQueues|
    ensures forall d :: d in ConsumerRetry(cfg, n) ==> d.args.ttl.Some? && d.args.deadLetterKey == Some(cfg.mainRoutingKey)
  {
    if n > 0 { ConsumerRetryArgs(cfg, n - 1); }
  }

  lemma {:induction false} PublisherRetryArgs(p: PublisherConfig, n: nat)
    requires n <= |p.retryQueues|
    ensures forall d :: d in PublisherRetry(p, n) ==> d.args.ttl.Some? && d.args.deadLetterKey == Some(p.mainRoutingKey)
  {
    if n > 0 { PublisherRetryArgs(p, n - 1); }
  }

  // --- where a routing key leads --------------------------------------------

  /** The queues a direct exchange copies a message with this key to. */
  function QueuesFor(list: seq<Declaration>, key: string): (queues: seq<string>) {
    if list == [] then []
    else
      var before, last := QueuesFor(list[..|list| - 1], key), list[|list| - 1];
      if last.key == key && last.queue !in before then before + [last.queue] else before
  }

  lemma {:induction false} QueuesForExact(list: seq<Declaration>, key: string)
    ensures forall q :: q in QueuesFor(list, key) <==> Binding(key, q) in BindingsOf(list)
    ensures forall i, j :: 0 <= i < j < |QueuesFor(list, key)| ==> QueuesFor(list, key)[i] != QueuesFor(list, key)[j]
  {
    if list != [] {
      var before, last := list[..|list| - 1], list[|list| - 1];
      QueuesForExact(before, key);
      assert list == before + [last];
      assert BindingsOf(list) == BindingsOf(before) + {Binding(last.key, last.queue)};
    }
  }

  ghost predicate BoundTo(cfg: RabbitConfig, p: PublisherConfig, key: string, queue: string) {
    Binding(key, queue) in BindingsOf(AllDeclarations(cfg, p))
  }

  /** A message published with this key reaches the main queue, at once or after waiting in a retry queue. */
  ghost predicate ReturnsToMain(cfg: RabbitConfig, queues: Queues, bindings: set<Binding>, key: string) {
    exists q :: Binding(key, q) in bindings && q in queues
                && (q == cfg.mainQueue
                    || (queues[q].ttl.Some? && queues[q].deadLetterKey.Some?
                        && Binding(queues[q].deadLetterKey.value, cfg.mainQueue) in bindings))
  }

  /** Something else than the dead queue carries the key. */
  ghost predicate KeyCovered(cfg: RabbitConfig, p: PublisherConfig, key: string) {
    exists q :: BoundTo(cfg, p, key, q) && q != cfg.deadQueue
  }

  lemma KeyCoveredIffReturns(cfg: RabbitConfig, p: PublisherConfig, queues: Queues, bindings: set<Binding>, key: string)
    requires TopologyDeclared(cfg, p, queues, bindings)
    ensures KeyCovered(cfg, p, key) <==> ReturnsToMain(cfg, queues, bindings, key)
  {
    var all := AllDeclarations(cfg, p);
    var ends := EndDeclarations(cfg.mainQueue, cfg.mainRoutingKey, cfg.deadQueue, cfg.deadRoutingKey);
    assert ends[0] in all && ends[1] in all;
    assert Binding(cfg.mainRoutingKey, cfg.mainQueue) in bindings;
    ConsumerRetryArgs(cfg, |cfg.retryQueues|);
    PublisherRetryArgs(p, |p.retryQueues|);
    if KeyCovered(cfg, p, key) {
      var q :| BoundTo(cfg, p, key, q) && q != cfg.deadQueue;
      var d :| d in all && d.key == key && d.queue == q;
      assert q == cfg.mainQueue || d.args.ttl.Some?;
    }
    if ReturnsToMain(cfg, queues, bindings, key) {
      var q :| Binding(key, q) in bindings && q in queues
               && (q == cfg.mainQueue
                   || (queues[q].ttl.Some? && queues[q].deadLetterKey.Some?
                       && Binding(queues[q].deadLetterKey.value, cfg.mainQueue) in bindings));
      assert BoundTo(cfg, p, key, q);
    }
  }

  /** What an operator can check: the keys of the first three levels lead back to the main queue. */
  ghost predicate RetryKeysCovered(cfg: RabbitConfig, p: PublisherConfig) {
    forall level: nat :: level < |cfg.retryRoutingKeys| && level < 3 ==> KeyCovered(cfg, p, cfg.retryRoutingKeys[level])
  }

  /** Every retry key that a worker can choose leads back to the main queue exactly when these are covered. */
  lemma ChosenKeysReturnIff(cfg: RabbitConfig, p: PublisherConfig, queues: Queues, bindings: set<Binding>)
    requires TopologyDeclared(cfg, p, queues, bindings) && cfg.retryRoutingKeys != []
    ensures (forall attempt :: attempt >= 2 ==> ReturnsToMain(cfg, queues, bindings, PickRetryRoutingKey(attempt, cfg)))
            <==> RetryKeysCovered(cfg, p)
  {
    hide KeyCovered;
    hide ReturnsToMain;
    hide TopologyDeclared;
    var n := |cfg.retryRoutingKeys|;
    forall level: nat | level < n
      ensures KeyCovered(cfg, p, cfg.retryRoutingKeys[level])
              <==> ReturnsToMain(cfg, queues, bindings, cfg.retryRoutingKeys[level])
    {
      KeyCoveredIffReturns(cfg, p, queues, bindings, cfg.retryRoutingKeys[level]);
    }
    if forall attempt :: attempt >= 2 ==> ReturnsToMain(cfg, queues, bindings, PickRetryRoutingKey(attempt, cfg)) {
      forall level: nat | level < n && level < 3 ensures KeyCovered(cfg, p, cfg.retryRoutingKeys[level]) {
        var attempt := if level == 0 then 2 else if level == 1 then 3 else 5;
        assert PickRetryLevel(attempt, n) == level;
        assert ReturnsToMain(cfg, queues, bindings, PickRetryRoutingKey(attempt, cfg));
      }
    }
  }

  /**
    Default retry keys are covered when the consumer's or the publisher's queue list is left empty,
    whatever queues the other side names.
   */
  lemma DefaultConfigCovered(cfg: RabbitConfig, p: PublisherConfig)
    requires cfg.retryRoutingKeys == [] && (cfg.retryQueues == [] || p.retryQueues == [])
    requires NormalizeRabbitConfig(cfg).deadQueue == DEAD_QUEUE
    ensures RetryKeysCovered(NormalizeRabbitConfig(cfg), NormalizePublisherConfig(p))
  {
    var r, q := NormalizeRabbitConfig(cfg), NormalizePublisherConfig(p);
    forall level: nat | level < 3 ensures KeyCovered(r, q, r.retryRoutingKeys[level]) {
      var name := DEFAULT_RETRY[level];
      if cfg.retryQueues == [] {
        assert Trimmed(r.retryQueues[level]);
        assert IsRetrySlot(r, level);
        SlotListed(r, level, 3);
      } else {
        PublisherListed(q, level, 3);
      }
      assert BoundTo(r, q, name, name);
      assert |name| > |DEAD_QUEUE|;
    }
  }

  lemma {:induction false} PublisherListed(p: PublisherConfig, i: nat, n: nat)
    requires i < n <= |p.retryQueues| && IsPublisherRetry(p.retryQueues[i])
    ensures exists d :: d in PublisherRetry(p, n) && d.key == p.retryQueues[i].key && d.queue == p.retryQueues[i].name
  {
    if i < n - 1 {
      PublisherListed(p, i, n - 1);
    } else {
      var list := PublisherRetry(p, n);
      assert list[|list| - 1] in list;
    }
  }

  lemma {:induction false} SlotListed(cfg: RabbitConfig, level: nat, n: nat)
    requires level < n <= |cfg.retryQueues| && IsRetrySlot(cfg, level)
    ensures exists d :: d in ConsumerRetry(cfg, n) && d.key == cfg.retryRoutingKeys[level]
                        && d.queue == cfg.retryQueues[level]
  {
    if level < n - 1 {
      SlotListed(cfg, level, n - 1);
    } else {
      var list := ConsumerRetry(cfg, n);
      assert list[|list| - 1] in list;
    }
  }

  /** What both sides declare when only the main key is configured. */
  function DefaultList(key: string): seq<Declaration> {
    EndDeclarations(MAIN_QUEUE, key, DEAD_QUEUE, DEAD_KEY)
    + [RetryDeclaration(RETRY_5S, 5000, RETRY_5S, key), RetryDeclaration(RETRY_30S, 30000, RETRY_30S, key),
       RetryDeclaration(RETRY_120S, 120000, RETRY_120S, key)]
  }

  lemma NamesDiffer()
    ensures |MAIN_QUEUE| == 18 && |DEAD_QUEUE| == 17 && |RETRY_5S| == 22 && |RETRY_30S| == 23 && |RETRY_120S| == 24
    ensures |DEAD_KEY| == 18 && |EVENT_KEY| == 13
    ensures !IsSpace(RETRY_5S[0]) && !IsSpace(RETRY_30S[0]) && !IsSpace(RETRY_120S[0])
  {
  }

  /** Five declarations of different queues, all but the first with longer keys than that of events. */
  ghost predicate FiveQueues(list: seq<Declaration>, key: string) {
    && |list| == 5 && (forall i, j :: 0 <= i < j < 5 ==> |list[i].queue| != |list[j].queue|)
    && (forall i :: 0 <= i < 5 ==> list[i].args.ttl.Some? ==> list[i].args.ttl.value >= 0)
    && list[0].key == key && forall i :: 0 < i < 5 ==> |list[i].key| > |EVENT_KEY|
  }

  lemma DefaultFive(key: string)
    ensures FiveQueues(DefaultList(key), key)
  {
    NamesDiffer();
  }

  lemma FiveDeclarable(cfg: RabbitConfig, p: PublisherConfig, list: seq<Declaration>, key: string)
    requires FiveQueues(list, key) && AllDeclarations(cfg, p) == list + list
    ensures CanDeclare(cfg, p)
    ensures key != EVENT_KEY ==> forall q :: !BoundTo(cfg, p, EVENT_KEY, q)
  {
    hide AllDeclarations;
    assert forall d :: d in list + list <==> d in list;
    forall d | d in list ensures Accepts(map[], d) && (d.key == key || |d.key| > |EVENT_KEY|) {
      var i :| 0 <= i < 5 && list[i] == d;
    }
  }

  lemma ConsumerThree(cfg: RabbitConfig, a: string, b: string, c: string)
    requires cfg.retryQueues == [a, b, c] == cfg.retryRoutingKeys && !Blank(a) && !Blank(b) && !Blank(c)
    ensures ConsumerRetry(cfg, 3)
            == [RetryDeclaration(a, RetryTtl(0), a, cfg.mainRoutingKey), RetryDeclaration(b, RetryTtl(1), b, cfg.mainRoutingKey),
                RetryDeclaration(c, RetryTtl(2), c, cfg.mainRoutingKey)]
  {
    hide Blank;
    hide RetryTtl;
    var none, key := ConsumerRetry(cfg, 0), cfg.mainRoutingKey;
    assert ConsumerRetry(cfg, 1) == [RetryDeclaration(a, RetryTtl(0), a, key)];
    assert ConsumerRetry(cfg, 2) == [RetryDeclaration(a, RetryTtl(0), a, key), RetryDeclaration(b, RetryTtl(1), b, key)];
  }

  function PublisherDeclaration(q: RetryQueue, mainKey: string): Declaration {
    RetryDeclaration(q.name, ToInt32(q.ttl / NANOS_IN_A_MILLI), q.key, mainKey)
  }

  lemma PublisherThree(p: PublisherConfig, a: RetryQueue, b: RetryQueue, c: RetryQueue)
    requires p.retryQueues == [a, b, c] && IsPublisherRetry(a) && IsPublisherRetry(b) && IsPublisherRetry(c)
    ensures PublisherRetry(p, 3) == [PublisherDeclaration(a, p.mainRoutingKey), PublisherDeclaration(b, p.mainRoutingKey),
                                     PublisherDeclaration(c, p.mainRoutingKey)]
  {
    hide IsPublisherRetry;
    hide ToInt32;
    var none, key := PublisherRetry(p, 0), p.mainRoutingKey;
    assert PublisherRetry(p, 1) == [PublisherDeclaration(a, key)];
    assert PublisherRetry(p, 2) == [PublisherDeclaration(a, key), PublisherDeclaration(b, key)];
  }

  lemma DefaultConsumer(cfg: RabbitConfig, key: string)
    requires cfg.retryQueues == DEFAULT_RETRY && cfg.retryRoutingKeys == DEFAULT_RETRY && cfg.mainRoutingKey == key
    ensures ConsumerRetry(cfg, 3) == DefaultList(key)[2..]
  {
    NamesDiffer();
    ConsumerThree(cfg, RETRY_5S, RETRY_30S, RETRY_120S);
    hide ConsumerRetry;
  }

  lemma DefaultPublisher(key: string)
    requires key != ""
    ensures PublisherRetry(NormalizePublisherConfig(PublisherConfig(key, "", [])), 3) == DefaultList(key)[2..]
  {
    NamesDiffer();
    var p := NormalizePublisherConfig(PublisherConfig(key, "", []));
    PublisherThree(p, p.retryQueues[0], p.retryQueues[1], p.retryQueues[2]);
    hide PublisherRetry;
  }

  /** They can be declared, and nothing is bound to the key of events unless it is the main key. */
  lemma DefaultDeclarations(key: string)
    requires key != ""
    ensures var cfg := NormalizeRabbitConfig(RabbitConfig("", key, "", "", [], [], 0));
      var p := NormalizePublisherConfig(PublisherConfig(key, "", []));
      && CanDeclare(cfg, p)
      && (key != EVENT_KEY ==> forall q :: !BoundTo(cfg, p, EVENT_KEY, q))
  {
    var cfg := NormalizeRabbitConfig(RabbitConfig("", key, "", "", [], [], 0));
    var p := NormalizePublisherConfig(PublisherConfig(key, "", []));
    var list := DefaultList(key);
    DefaultConsumer(cfg, key);
    DefaultPublisher(key);
    DefaultFive(key);
    hide ConsumerRetry;
    hide PublisherRetry;
    hide FiveQueues;
    assert list[..2] == EndDeclarations(MAIN_QUEUE, key, DEAD_QUEUE, DEAD_KEY) && list[..2] + list[2..] == list;
    FiveDeclarable(cfg, p, list, key);
  }
}
