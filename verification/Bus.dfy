/** The event bus: the broker's bounded fan-out (internal/bus/broker.go) and the
    per-connection message loop that guards it (internal/bus/server.go). */
module Bus {
  import opened Text
  import opened Decimal
  import opened Topics

  const CAPACITY := 256

  datatype Sender = Sender(uid: Uid, kind: SenderKind)

  datatype Event = Event(topic: string, body: Body, sender: Option<Sender>)

  datatype Client = Client(uid: Uid, patterns: set<string>)

  /** `clients` are the registered subscribers. A channel outlives its registration,
      so `queues` keeps what is still buffered for every id ever handed out. */
  datatype BrokerState = BrokerState(clients: map<nat, Client>, queues: map<nat, seq<Event>>, nextID: nat)

  const EMPTY := BrokerState(map[], map[], 0)

  // ---------- the broker operations, on values ----------

  function Registered(b: BrokerState, uid: Uid): BrokerState {
    BrokerState(b.clients[b.nextID := Client(uid, {})], b.queues[b.nextID := []], b.nextID + 1)
  }

  function Unregistered(b: BrokerState, id: nat): BrokerState {
    b.(clients := b.clients - {id})
  }

  function Subscribed(b: BrokerState, id: nat, pattern: string): BrokerState {
    if id !in b.clients then b
    else b.(clients := b.clients[id := Client(b.clients[id].uid, b.clients[id].patterns + {pattern})])
  }

  function Unsubscribed(b: BrokerState, id: nat, pattern: string): BrokerState {
    if id !in b.clients then b
    else b.(clients := b.clients[id := Client(b.clients[id].uid, b.clients[id].patterns - {pattern})])
  }

  predicate MatchesAny(patterns: set<string>, topic: string) {
    exists p :: p in patterns && TopicMatch(p, topic)
  }

  predicate Receives(b: BrokerState, id: nat, senderID: nat, topic: string) {
    id in b.clients && id != senderID && MatchesAny(b.clients[id].patterns, topic)
  }

  function Stamp(b: BrokerState, senderID: nat, override: Option<Sender>): Option<Sender> {
    if override.Some? then override
    else if senderID in b.clients then Some(Sender(b.clients[senderID].uid, Peer))
    else None
  }

  function Offer(queue: seq<Event>, e: Event): seq<Event> {
    if |queue| < CAPACITY then queue + [e] else queue
  }

  function Delivered(b: BrokerState, senderID: nat, override: Option<Sender>, topic: string, body: Body): BrokerState {
    var e := Event(topic, body, Stamp(b, senderID, override));
    b.(queues := map id | id in b.queues :: if Receives(b, id, senderID, topic) then Offer(b.queues[id], e) else b.queues[id])
  }

  /** The broker object; each method is one critical section of its mutex. */
  class Broker {
    var clients: map<nat, Client>
    var queues: map<nat, seq<Event>>
    var nextID: nat
    const strictProvenance: bool

    ghost function View(): BrokerState
      reads this
    {
      BrokerState(clients, queues, nextID)
    }

    ghost predicate Valid()
      reads this
    {
      clients.Keys <= queues.Keys
    }

    constructor (strict: bool)
      ensures View() == EMPTY && Valid() && strictProvenance == strict
    {
      clients, queues, nextID, strictProvenance := map[], map[], 0, strict;
    }

    method Register(uid: Uid) returns (id: nat)
      requires Valid()
      modifies this
      ensures id == old(nextID) && View() == Registered(old(View()), uid) && Valid()
    {
      id := nextID;
      nextID := nextID + 1;
      clients := clients[id := Client(uid, {})];
      queues := queues[id := []];
    }

    method Unregister(id: nat)
      requires Valid()
      modifies this
      ensures View() == Unregistered(old(View()), id) && Valid()
    {
      if id in clients {
        clients := clients - {id};
      }
      assert id !in old(clients) ==> old(clients) - {id} == old(clients);
    }

    method Subscribe(id: nat, pattern: string)
      requires Valid()
      modifies this
      ensures View() == Subscribed(old(View()), id, pattern) && Valid()
    {
      if id in clients {
        clients := clients[id := Client(clients[id].uid, clients[id].patterns + {pattern})];
      }
    }

    method Unsubscribe(id: nat, pattern: string)
      requires Valid()
      modifies this
      ensures View() == Unsubscribed(old(View()), id, pattern) && Valid()
    {
      if id in clients {
        clients := clients[id := Client(clients[id].uid, clients[id].patterns - {pattern})];
      }
    }

    /** The subscribers are visited in any order; the outcome does not depend on it. */
    method PublishWithSender(senderID: nat, override: Option<Sender>, topic: string, body: Body)
      requires Valid()
      modifies this
      ensures View() == Delivered(old(View()), senderID, override, topic, body) && Valid()
    {
      var sender := override;
      if override.None? && senderID in clients {
        sender := Some(Sender(clients[senderID].uid, Peer));
      }
      var stamped := Event(topic, body, sender);
      var todo := clients.Keys;
      while todo != {}
        invariant todo <= clients.Keys && clients == old(clients) && nextID == old(nextID)
        invariant queues.Keys == old(queues).Keys
        invariant forall id :: id in queues ==>
          queues[id] == (if id !in todo && Receives(old(View()), id, senderID, topic)
                         then Offer(old(queues)[id], stamped) else old(queues)[id])
      {
        var id :| id in todo;
        todo := todo - {id};
        if id == senderID {
          continue;
        }
        if MatchesAny(clients[id].patterns, topic) {
          if |queues[id]| < CAPACITY {
            queues := queues[id := queues[id] + [stamped]];
          }
        }
      }
    }

    /** One turn of the decode loop of serveConn; `alive` is false when the loop ends
        and the connection is cleaned up. */
    method Serve(id: nat, uid: Uid, msg: ClientMsg) returns (alive: bool)
      requires Valid()
      modifies this
      ensures alive == Accepted(strictProvenance, uid, msg)
      ensures View() == Handle(old(View()), strictProvenance, id, uid, msg) && Valid()
    {
      hide AgentPublishOk, TopicPublishOk, AgentSubscribeOk, TopicSubscribeOk;
      match msg {
        case Pub(topic, body, _, _) =>
          var effective := EffectiveSender(uid, msg);
          if effective.None? {
            Unregister(id);
            return false;
          }
          var (sender, delegated) := effective.value;
          if !AgentPublishOk(sender.uid, topic, body) {
            Unregister(id);
            return false;
          }
          if strictProvenance && !TopicPublishOk(sender.uid, sender.kind, topic) {
            Unregister(id);
            return false;
          }
          PublishWithSender(id, if delegated then Some(sender) else None, topic, body);
        case Sub(pattern) =>
          if !AgentSubscribeOk(uid, pattern) {
            Unregister(id);
            return false;
          }
          if strictProvenance && !TopicSubscribeOk(uid, Peer, pattern) {
            Unregister(id);
            return false;
          }
          Subscribe(id, pattern);
        case Unsub(pattern) =>
          Unsubscribe(id, pattern);
        case OtherOp =>
      }
      alive := true;
    }

    /** The writer goroutine takes the oldest buffered event. */
    method Drain(id: nat) returns (e: Option<Event>)
      requires Valid()
      modifies this`queues
      ensures View() == Drained(old(View()), id) && Valid()
      ensures e == Head(old(View()), id)
    {
      e := None;
      if id in queues && queues[id] != [] {
        e := Some(queues[id][0]);
        queues := queues[id := queues[id][1..]];
      }
    }
  }

  // ---------- the connection loop ----------

  datatype ClientMsg =
    | Pub(topic: string, body: Body, senderUid: Option<Uid>, senderKind: Option<string>)
    | Sub(pattern: string)
    | Unsub(pattern: string)
    | OtherOp

  /** Only a root peer may name another sender, and only as a delegation. */
  function EffectiveSender(peer: Uid, msg: ClientMsg): Option<(Sender, bool)>
    requires msg.Pub?
  {
    if peer != 0 || msg.senderUid.None? then Some((Sender(peer, Peer), false))
    else if msg.senderKind.Some? && msg.senderKind.value != "delegated" then None
    else Some((Sender(msg.senderUid.value, Delegated), true))
  }

  predicate Accepted(strict: bool, uid: Uid, msg: ClientMsg) {
    match msg
    case Pub(topic, body, _, _) =>
      var effective := EffectiveSender(uid, msg);
      && effective.Some?
      && AgentPublishOk(effective.value.0.uid, topic, body)
      && (strict ==> TopicPublishOk(effective.value.0.uid, effective.value.0.kind, topic))
    case Sub(pattern) => AgentSubscribeOk(uid, pattern) && (strict ==> TopicSubscribeOk(uid, Peer, pattern))
    case Unsub(_) => true
    case OtherOp => true
  }

  function Override(uid: Uid, msg: ClientMsg): Option<Sender>
    requires msg.Pub? && EffectiveSender(uid, msg).Some?
  {
    var (sender, delegated) := EffectiveSender(uid, msg).value;
    if delegated then Some(sender) else None
  }

  function Handle(b: BrokerState, strict: bool, id: nat, uid: Uid, msg: ClientMsg): BrokerState {
    if !Accepted(strict, uid, msg) then Unregistered(b, id)
    else
      match msg
      case Pub(topic, body, _, _) => Delivered(b, id, Override(uid, msg), topic, body)
      case Sub(pattern) => Subscribed(b, id, pattern)
      case Unsub(pattern) => Unsubscribed(b, id, pattern)
      case OtherOp => b
  }

  function Head(b: BrokerState, id: nat): Option<Event> {
    if id in b.queues && b.queues[id] != [] then Some(b.queues[id][0]) else None
  }

  function Drained(b: BrokerState, id: nat): BrokerState {
    if Head(b, id).None? then b else b.(queues := b.queues[id := b.queues[id][1..]])
  }

  // ---------- runs ----------

  /** A connection may still deliver a decoded message after it was cleaned up, so
      messages and drains may name any id ever handed out. */
  datatype Step = Connect(uid: Uid) | Message(id: nat, msg: ClientMsg) | Disconnect(id: nat) | Take(id: nat)

  datatype System = System(broker: BrokerState, uids: map<nat, Uid>)

  function Next(s: System, strict: bool, step: Step): System {
    match step
    case Connect(uid) => System(Registered(s.broker, uid), s.uids[s.broker.nextID := uid])
    case Message(id, msg) => if id in s.uids then s.(broker := Handle(s.broker, strict, id, s.uids[id], msg)) else s
    case Disconnect(id) => s.(broker := Unregistered(s.broker, id))
    case Take(id) => s.(broker := Drained(s.broker, id))
  }

  function Run(strict: bool, trace: seq<Step>): System {
    if trace == [] then System(EMPTY, map[])
    else Next(Run(strict, trace[..|trace| - 1]), strict, trace[|trace| - 1])
  }

  predicate Publishes(s: System, strict: bool, step: Step) {
    step.Message? && step.id in s.uids && step.msg.Pub? && Accepted(strict, s.uids[step.id], step.msg)
  }

  function Published(s: System, strict: bool, step: Step): Event
    requires Publishes(s, strict, step)
  {
    Event(step.msg.topic, step.msg.body, Stamp(s.broker, step.id, Override(s.uids[step.id], step.msg)))
  }

  /** Every event ever published in a run, with the kernel uid of the connection it came over. */
  function Origins(strict: bool, trace: seq<Step>): set<(Event, Uid)> {
    if trace == [] then {}
    else
      var s, step := Run(strict, trace[..|trace| - 1]), trace[|trace| - 1];
      Origins(strict, trace[..|trace| - 1]) +
      if Publishes(s, strict, step) then {(Published(s, strict, step), s.uids[step.id])} else {}
  }

  // ---------- who can have put what in whose queue ----------

  ghost predicate Trusted(e: Event, via: Uid) {
    && (PrivilegedTopic(e.topic) ==> via == 0)
    && (e.sender.Some? && e.sender.value.kind == Delegated ==> via == 0)
    && (e.sender.Some? && e.sender.value.kind == Peer ==> e.sender.value.uid == via)
    && Attributed(e, via)
  }

  /** Topic and payload of an agent message name the same sender, and so do its stamp,
      if it has one, and its connection, unless that is root's. */
  ghost predicate Attributed(e: Event, via: Uid) {
    HasPrefix(e.topic, AGENT_MESSAGE_PREFIX) ==>
      && e.body.Envelope?
      && ParseAgentMessageTopic(e.topic) == Some(Address(e.body.fromUid, e.body.toUid, e.body.kind))
      && (e.sender.Some? ==> e.body.fromUid == e.sender.value.uid)
      && (via != 0 ==> e.body.fromUid == via)
  }

  ghost predicate Restricted(topic: string) {
    topic in PRIVILEGED_SUBSCRIBE
  }

  ghost predicate Shape(s: System) {
    && s.broker.clients.Keys <= s.broker.queues.Keys == s.uids.Keys
    && (forall id :: id in s.uids ==> id < s.broker.nextID)
    && (forall id :: id in s.broker.clients ==> s.broker.clients[id].uid == s.uids[id])
  }

  ghost predicate Guarded(s: System)
    requires Shape(s)
  {
    && (forall id, p :: id in s.broker.clients && p in s.broker.clients[id].patterns ==> TopicSubscribeOk(s.uids[id], Peer, p))
    && (forall id, e :: id in s.broker.queues && e in s.broker.queues[id] && s.uids[id] != 0 ==> !Restricted(e.topic))
  }

  ghost predicate Sourced(s: System, origins: set<(Event, Uid)>) {
    && (forall id, e :: id in s.broker.queues && e in s.broker.queues[id] ==> Known(e, origins))
    && (forall o :: o in origins ==> Trusted(o.0, o.1))
  }

  ghost predicate Known(e: Event, origins: set<(Event, Uid)>) {
    exists u: Uid :: (e, u) in origins
  }

  lemma NextShape(s: System, strict: bool, step: Step)
    requires Shape(s)
    ensures Shape(Next(s, strict, step))
  {
    hide Accepted, Receives, Override;
  }

  lemma PublishedTrusted(s: System, step: Step)
    requires Shape(s) && Publishes(s, true, step)
    ensures Trusted(Published(s, true, step), s.uids[step.id])
  {
    hide TopicPublishOk, PrivilegedTopic, ParseAgentMessageTopic, HasPrefix;
    var (sender, _) := EffectiveSender(s.uids[step.id], step.msg).value;
    PublishOkMeaning(sender.uid, sender.kind, step.msg.topic);
  }

  /** What a queue holds after a step was there before or is the event just published. */
  lemma NextQueue(s: System, strict: bool, step: Step, id: nat, e: Event)
    requires Shape(s) && id in Next(s, strict, step).broker.queues && e in Next(s, strict, step).broker.queues[id]
    ensures (id in s.broker.queues && e in s.broker.queues[id])
      || (Publishes(s, strict, step) && e == Published(s, strict, step) && Receives(s.broker, id, step.id, step.msg.topic))
  {
    hide Accepted, Receives, Override;
  }

  lemma NextGuarded(s: System, step: Step)
    requires Shape(s) && Guarded(s)
    ensures Guarded(Next(s, true, step))
  {
    hide TopicSubscribeOk, TopicPublishOk, AgentPublishOk, AgentSubscribeOk, Override, TopicMatch;
    var t := Next(s, true, step);
    forall id, p | id in t.broker.clients && p in t.broker.clients[id].patterns
      ensures TopicSubscribeOk(t.uids[id], Peer, p)
    {
    }
    forall id, e | id in t.broker.queues && e in t.broker.queues[id] && t.uids[id] != 0
      ensures !Restricted(e.topic)
    {
      NextQueue(s, true, step, id, e);
      if !(id in s.broker.queues && e in s.broker.queues[id]) {
        var p :| p in s.broker.clients[id].patterns && TopicMatch(p, e.topic);
        SubscribeBlocks(s.uids[id], p, e.topic);
      }
    }
  }

  lemma SubscribeBlocks(uid: Uid, pattern: string, topic: string)
    requires uid != 0 && TopicSubscribeOk(uid, Peer, pattern) && TopicMatch(pattern, topic)
    ensures !Restricted(topic)
  {
    hide TopicMatch;
  }

  lemma NextSourced(s: System, step: Step, origins: set<(Event, Uid)>)
    requires Shape(s) && Sourced(s, origins)
    ensures Sourced(Next(s, true, step),
              origins + if Publishes(s, true, step) then {(Published(s, true, step), s.uids[step.id])} else {})
  {
    hide Accepted, Trusted, Published, Next;
    var added := if Publishes(s, true, step) then {(Published(s, true, step), s.uids[step.id])} else {};
    var t := Next(s, true, step);
    if Publishes(s, true, step) {
      PublishedTrusted(s, step);
    }
    forall id, e | id in t.broker.queues && e in t.broker.queues[id]
      ensures Known(e, origins + added)
    {
      NextQueue(s, true, step, id, e);
      if id in s.broker.queues && e in s.broker.queues[id] {
        assert Known(e, origins);
        var u: Uid :| (e, u) in origins;
        assert (e, u) in origins + added;
      } else {
        assert (e, s.uids[step.id]) in origins + added;
      }
    }
  }

  lemma {:induction false} RunInvariant(trace: seq<Step>)
    ensures Shape(Run(true, trace)) && Guarded(Run(true, trace)) && Sourced(Run(true, trace), Origins(true, trace))
  {
    hide Next, Publishes, Published, Guarded, Sourced;
    if trace == [] {
      EmptyRun();
    } else {
      var before, step := trace[..|trace| - 1], trace[|trace| - 1];
      RunInvariant(before);
      NextShape(Run(true, before), true, step);
      NextGuarded(Run(true, before), step);
      NextSourced(Run(true, before), step, Origins(true, before));
    }
  }

  lemma EmptyRun()
    ensures var s := System(EMPTY, map[]); Shape(s) && Guarded(s) && Sourced(s, {})
  {
  }

  /** Safety of a strict broker over every run. Whatever sits in a queue was published
      over some connection; privileged topics and delegated stamps only ever came over
      a root connection; a peer stamp is the connection's own uid; an agent
      message is attributed to one sender throughout; and no client that is not root
      holds an escalation decision or request. */
  lemma QueuedEventsAreTrusted(trace: seq<Step>, id: nat, e: Event)
    requires id in Run(true, trace).broker.queues && e in Run(true, trace).broker.queues[id]
    ensures exists via: Uid :: (e, via) in Origins(true, trace)
    ensures forall via: Uid :: (e, via) in Origins(true, trace) ==>
      && (via != 0 ==>
           && !HasPrefix(e.topic, "agent.lifecycle.") && !HasPrefix(e.topic, "agent.work.assigned")
           && !HasPrefix(e.topic, "compositor.surface.") && !HasPrefix(e.topic, "shell.action.")
           && !HasPrefix(e.topic, "audit.") && !HasPrefix(e.topic, "admin.escalation."))
      && (e.sender.Some? && e.sender.value.kind == Delegated ==> via == 0)
      && (e.sender.Some? && e.sender.value.kind == Peer ==> e.sender.value.uid == via)
      && (HasPrefix(e.topic, AGENT_MESSAGE_PREFIX) && via != 0 ==> e.body.Envelope? && e.body.fromUid == via)
    ensures HasPrefix(e.topic, AGENT_MESSAGE_PREFIX) ==>
      && e.body.Envelope?
      && e.topic == AgentMessageTopic(Address(e.body.fromUid, e.body.toUid, e.body.kind))
      && (e.sender.Some? ==> e.body.fromUid == e.sender.value.uid)
    ensures id in Run(true, trace).uids
    ensures Run(true, trace).uids[id] != 0 ==>
      e.topic != "admin.escalation.decided" && e.topic != "admin.escalation.requested"
  {
    hide Run, Origins, PrivilegedTopic, HasPrefix, AgentMessageTopic, ParseAgentMessageTopic, TopicSubscribeOk;
    RunInvariant(trace);
    assert Known(e, Origins(true, trace));
    var u: Uid :| (e, u) in Origins(true, trace);
    assert Trusted(e, u);
    forall via: Uid | (e, via) in Origins(true, trace)
      ensures Trusted(e, via)
    {
      assert Trusted((e, via).0, (e, via).1);
    }
    SixFamilies(e.topic);
    if HasPrefix(e.topic, AGENT_MESSAGE_PREFIX) {
      PrintOfParsed(e.topic);
    }
  }

  lemma SixFamilies(topic: string)
    ensures !PrivilegedTopic(topic) <==>
      && !HasPrefix(topic, "agent.lifecycle.") && !HasPrefix(topic, "agent.work.assigned")
      && !HasPrefix(topic, "compositor.surface.") && !HasPrefix(topic, "shell.action.")
      && !HasPrefix(topic, "audit.") && !HasPrefix(topic, "admin.escalation.")
  {
    hide HasPrefix;
    assert PRIVILEGED_PUBLISH[0] == "agent.lifecycle." && PRIVILEGED_PUBLISH[1] == "agent.work.assigned";
    assert PRIVILEGED_PUBLISH[2] == "compositor.surface." && PRIVILEGED_PUBLISH[3] == "shell.action.";
    assert PRIVILEGED_PUBLISH[4] == "audit." && PRIVILEGED_PUBLISH[5] == "admin.escalation.";
  }

  lemma PublishedAttributed(s: System, strict: bool, step: Step)
    requires Shape(s) && Publishes(s, strict, step)
    ensures Attributed(Published(s, strict, step), s.uids[step.id])
  {
    hide TopicPublishOk, ParseAgentMessageTopic, HasPrefix;
  }

  lemma {:induction false} QueuedIsPublished(strict: bool, trace: seq<Step>, id: nat, e: Event)
    requires id in Run(strict, trace).broker.queues && e in Run(strict, trace).broker.queues[id]
    ensures exists via: Uid :: (e, via) in Origins(strict, trace)
  {
    if trace != [] {
      hide Next, Publishes, Published;
      var before, step := trace[..|trace| - 1], trace[|trace| - 1];
      RunShape(strict, before);
      NextQueue(Run(strict, before), strict, step, id, e);
      if id in Run(strict, before).broker.queues && e in Run(strict, before).broker.queues[id] {
        QueuedIsPublished(strict, before, id, e);
        var via: Uid :| (e, via) in Origins(strict, before);
        assert (e, via) in Origins(strict, trace);
      } else {
        assert (e, Run(strict, before).uids[step.id]) in Origins(strict, trace);
      }
    }
  }

  lemma {:induction false} RunShape(strict: bool, trace: seq<Step>)
    ensures Shape(Run(strict, trace))
  {
    if trace != [] {
      hide Next;
      RunShape(strict, trace[..|trace| - 1]);
      NextShape(Run(strict, trace[..|trace| - 1]), strict, trace[|trace| - 1]);
    }
  }

  lemma {:induction false} OriginsAttributed(strict: bool, trace: seq<Step>, e: Event, via: Uid)
    requires (e, via) in Origins(strict, trace)
    ensures Attributed(e, via)
  {
    hide Next, Publishes, Published, Attributed;
    var before, step := trace[..|trace| - 1], trace[|trace| - 1];
    RunShape(strict, before);
    if (e, via) in Origins(strict, before) {
      OriginsAttributed(strict, before, e, via);
    } else {
      PublishedAttributed(Run(strict, before), strict, step);
    }
  }

  /** Strict or not: every queued agent message has a well-formed topic that agrees with
      its envelope, and names its connection's uid unless that connection is root's. */
  lemma AgentMessagesAgree(strict: bool, trace: seq<Step>, id: nat, e: Event)
    requires id in Run(strict, trace).broker.queues && e in Run(strict, trace).broker.queues[id]
    requires HasPrefix(e.topic, AGENT_MESSAGE_PREFIX)
    ensures e.body.Envelope? && e.topic == AgentMessageTopic(Address(e.body.fromUid, e.body.toUid, e.body.kind))
    ensures e.sender.Some? ==> e.body.fromUid == e.sender.value.uid
    ensures exists via: Uid :: (e, via) in Origins(strict, trace)
    ensures forall via: Uid :: (e, via) in Origins(strict, trace) && via != 0 ==> e.body.fromUid == via
  {
    hide Run, Origins, HasPrefix, AgentMessageTopic, ParseAgentMessageTopic;
    QueuedIsPublished(strict, trace, id, e);
    forall via: Uid | (e, via) in Origins(strict, trace)
      ensures Attributed(e, via)
    {
      OriginsAttributed(strict, trace, e, via);
    }
    PrintOfParsed(e.topic);
  }

  // ---------- first in, first out, with drops ----------

  /** How many connections a run has opened; ids are handed out in that order. */
  function Connections(trace: seq<Step>): nat {
    if trace == [] then 0
    else Connections(trace[..|trace| - 1]) + if trace[|trace| - 1].Connect? then 1 else 0
  }

  /** The uid of connection `id`, read off the trace. */
  function UidOf(trace: seq<Step>, id: nat): Option<Uid> {
    if trace == [] then None
    else
      var before, step := trace[..|trace| - 1], trace[|trace| - 1];
      if step.Connect? && Connections(before) == id then Some(step.uid) else UidOf(before, id)
  }

  /** What client `id` is subscribed to, read off the trace: None when it is not
      registered, because it never connected, disconnected, or was refused. */
  function Subscriptions(strict: bool, trace: seq<Step>, id: nat): Option<set<string>> {
    if trace == [] then None
    else
      var before, step := trace[..|trace| - 1], trace[|trace| - 1];
      var current := Subscriptions(strict, before, id);
      match step
      case Connect(_) => if Connections(before) == id then Some({}) else current
      case Disconnect(i) => if i == id then None else current
      case Take(_) => current
      case Message(i, msg) =>
        if i != id || UidOf(before, id).None? then current
        else if !Accepted(strict, UidOf(before, id).value, msg) then None
        else if current.None? then None
        else if msg.Sub? then Some(current.value + {msg.pattern})
        else if msg.Unsub? then Some(current.value - {msg.pattern})
        else current
  }

  predicate Wanted(strict: bool, before: seq<Step>, step: Step, id: nat) {
    && Publishes(Run(strict, before), strict, step) && step.id != id
    && Subscriptions(strict, before, id).Some? && MatchesAny(Subscriptions(strict, before, id).value, step.msg.topic)
  }

  /** The published events client `id` was subscribed to when they were published,
      its own excepted. */
  function WantedEvents(strict: bool, trace: seq<Step>, id: nat): seq<Event> {
    if trace == [] then []
    else
      var before, step := trace[..|trace| - 1], trace[|trace| - 1];
      WantedEvents(strict, before, id) +
      if Wanted(strict, before, step, id) then [Published(Run(strict, before), strict, step)] else []
  }

  function Pending(strict: bool, trace: seq<Step>, id: nat): seq<Event> {
    var queues := Run(strict, trace).broker.queues;
    if id in queues then queues[id] else []
  }

  /** The same, without the events that met a full channel. */
  function KeptEvents(strict: bool, trace: seq<Step>, id: nat): seq<Event> {
    if trace == [] then []
    else
      var before, step := trace[..|trace| - 1], trace[|trace| - 1];
      KeptEvents(strict, before, id) +
      if Wanted(strict, before, step, id) && |Pending(strict, before, id)| < CAPACITY
      then [Published(Run(strict, before), strict, step)] else []
  }

  /** What the writer of connection `id` has taken so far. */
  function TakenEvents(strict: bool, trace: seq<Step>, id: nat): seq<Event> {
    if trace == [] then []
    else
      var before, step := trace[..|trace| - 1], trace[|trace| - 1];
      TakenEvents(strict, before, id) +
      if step == Take(id) && Pending(strict, before, id) != [] then [Pending(strict, before, id)[0]] else []
  }

  ghost predicate Subsequence(a: seq<Event>, b: seq<Event>) {
    if a == [] then true
    else if b == [] then false
    else if a[|a| - 1] == b[|b| - 1] && Subsequence(a[..|a| - 1], b[..|b| - 1]) then true
    else Subsequence(a, b[..|b| - 1])
  }

  ghost predicate NeverFull(strict: bool, trace: seq<Step>, id: nat) {
    forall k :: 0 <= k <= |trace| ==> |Pending(strict, trace[..k], id)| < 256
  }

  /** The broker's tables are what the trace says they should be. */
  ghost predicate TablesAgree(strict: bool, trace: seq<Step>, id: nat) {
    var s := Run(strict, trace);
    && s.broker.nextID == Connections(trace)
    && (id in s.uids <==> UidOf(trace, id).Some?)
    && (id in s.uids ==> s.uids[id] == UidOf(trace, id).value && id < Connections(trace))
    && (id in s.broker.clients <==> Subscriptions(strict, trace, id).Some?)
    && (id in s.broker.clients ==> s.broker.clients[id].patterns == Subscriptions(strict, trace, id).value)
    && (id in s.broker.clients ==> id in s.uids)
    && (id in s.broker.queues <==> id in s.uids)
  }

  lemma DeliveryKeepsTables(b: BrokerState)
    ensures forall id, o, t, x :: Delivered(b, id, o, t, x).clients == b.clients && Delivered(b, id, o, t, x).nextID == b.nextID
    ensures forall id, o, t, x :: Delivered(b, id, o, t, x).queues.Keys == b.queues.Keys
  {
    hide Receives, Stamp, Offer;
  }

  /** Ids, uids and channels are those of the connections made. */
  ghost predicate UidsAgree(strict: bool, trace: seq<Step>, id: nat) {
    var s := Run(strict, trace);
    && s.broker.nextID == Connections(trace)
    && (id in s.uids <==> UidOf(trace, id).Some?)
    && (id in s.uids ==> s.uids[id] == UidOf(trace, id).value && id < Connections(trace))
    && (id in s.broker.queues <==> id in s.uids)
  }

  lemma {:induction false} UidsFollowTrace(strict: bool, trace: seq<Step>, id: nat)
    ensures UidsAgree(strict, trace, id)
  {
    hide Accepted, Override, Delivered;
    if trace != [] {
      UidsFollowTrace(strict, trace[..|trace| - 1], id);
      DeliveryKeepsTables(Run(strict, trace[..|trace| - 1]).broker);
    }
  }

  ghost predicate ClientsAgree(strict: bool, trace: seq<Step>, id: nat) {
    var s := Run(strict, trace);
    && (id in s.broker.clients <==> Subscriptions(strict, trace, id).Some?)
    && (id in s.broker.clients ==> s.broker.clients[id].patterns == Subscriptions(strict, trace, id).value)
    && (id in s.broker.clients ==> id in s.uids)
  }

  lemma {:induction false} ClientsFollowTrace(strict: bool, trace: seq<Step>, id: nat)
    ensures ClientsAgree(strict, trace, id)
  {
    hide Accepted, Override, Delivered, UidOf, Connections;
    if trace != [] {
      ClientsFollowTrace(strict, trace[..|trace| - 1], id);
      UidsFollowTrace(strict, trace[..|trace| - 1], id);
      DeliveryKeepsTables(Run(strict, trace[..|trace| - 1]).broker);
    }
  }

  lemma TablesFollowTrace(strict: bool, trace: seq<Step>, id: nat)
    ensures TablesAgree(strict, trace, id)
  {
    hide Run, UidOf, Connections, Subscriptions;
    UidsFollowTrace(strict, trace, id);
    ClientsFollowTrace(strict, trace, id);
  }

  lemma TakenStep(strict: bool, trace: seq<Step>, id: nat)
    requires trace != []
    ensures var before, step := trace[..|trace| - 1], trace[|trace| - 1];
      var p := Pending(strict, before, id);
      && !(step == Take(id) && Wanted(strict, before, step, id))
      && TakenEvents(strict, trace, id) ==
           if step == Take(id) && p != [] then TakenEvents(strict, before, id) + [p[0]] else TakenEvents(strict, before, id)
  {
    hide Pending, Run, MatchesAny, Subscriptions, Accepted;
  }

  lemma QueueGlue(t: seq<Event>, p: seq<Event>, k: seq<Event>)
    requires t + p == k
    ensures p != [] ==> (t + [p[0]]) + p[1..] == k
    ensures forall e :: t + (p + [e]) == k + [e]
  {
    forall e
      ensures t + (p + [e]) == k + [e]
    {
      assert t + (p + [e]) == (t + p) + [e];
    }
    if p != [] {
      assert (t + [p[0]]) + p[1..] == t + p;
    }
  }

  lemma {:induction false} Conservation(strict: bool, trace: seq<Step>, id: nat)
    ensures TakenEvents(strict, trace, id) + Pending(strict, trace, id) == KeptEvents(strict, trace, id)
  {
    if trace != [] {
      hide Pending, TakenEvents, KeptEvents, WantedEvents, Wanted, Published, Publishes, Run;
      var before, step := trace[..|trace| - 1], trace[|trace| - 1];
      Conservation(strict, before, id);
      PendingStep(strict, trace, id);
      KeptStep(strict, trace, id);
      TakenStep(strict, trace, id);
      QueueGlue(TakenEvents(strict, before, id), Pending(strict, before, id), KeptEvents(strict, before, id));
    }
  }

  /** One step's effect on what is pending for `id`. */
  lemma PendingStep(strict: bool, trace: seq<Step>, id: nat)
    requires trace != []
    ensures var before, step := trace[..|trace| - 1], trace[|trace| - 1];
      var p := Pending(strict, before, id);
      Pending(strict, trace, id) ==
        if Wanted(strict, before, step, id) then Offer(p, Published(Run(strict, before), strict, step))
        else if step == Take(id) && p != [] then p[1..]
        else p
  {
    hide Accepted, Override, MatchesAny, UidOf, Subscriptions;
    var before := trace[..|trace| - 1];
    TablesFollowTrace(strict, before, id);
  }

  lemma SubsequenceExtends(a: seq<Event>, b: seq<Event>, e: Event)
    requires Subsequence(a, b)
    ensures Subsequence(a, b + [e])
  {
    assert (b + [e])[..|b + [e]| - 1] == b;
  }

  /** One step's effect on the two lists. */
  lemma KeptStep(strict: bool, trace: seq<Step>, id: nat)
    requires trace != []
    ensures var before, step := trace[..|trace| - 1], trace[|trace| - 1];
      var k, w := KeptEvents(strict, before, id), WantedEvents(strict, before, id);
      if Wanted(strict, before, step, id) then
        && Publishes(Run(strict, before), strict, step)
        && var e := Published(Run(strict, before), strict, step);
        && WantedEvents(strict, trace, id) == w + [e]
        && KeptEvents(strict, trace, id) == if |Pending(strict, before, id)| < CAPACITY then k + [e] else k
      else KeptEvents(strict, trace, id) == k && WantedEvents(strict, trace, id) == w
  {
    hide Published, Run, Pending, Publishes, MatchesAny, Subscriptions;
  }

  lemma SubsequenceBoth(a: seq<Event>, b: seq<Event>, e: Event)
    requires Subsequence(a, b)
    ensures Subsequence(a + [e], b + [e])
  {
    assert (b + [e])[..|b + [e]| - 1] == b;
    assert (a + [e])[..|a + [e]| - 1] == a;
  }

  lemma {:induction false} KeptIsSubsequence(strict: bool, trace: seq<Step>, id: nat)
    ensures Subsequence(KeptEvents(strict, trace, id), WantedEvents(strict, trace, id))
  {
    if trace != [] {
      hide Published, Wanted, Run, KeptEvents, WantedEvents, Subsequence;
      var before, step := trace[..|trace| - 1], trace[|trace| - 1];
      KeptIsSubsequence(strict, before, id);
      KeptStep(strict, trace, id);
      var k, w := KeptEvents(strict, before, id), WantedEvents(strict, before, id);
      if Wanted(strict, before, step, id) {
        var e := Published(Run(strict, before), strict, step);
        SubsequenceBoth(k, w, e);
        SubsequenceExtends(k, w, e);
      }
    }
  }

  lemma {:induction false} KeptIsAll(strict: bool, trace: seq<Step>, id: nat)
    requires NeverFull(strict, trace, id)
    ensures KeptEvents(strict, trace, id) == WantedEvents(strict, trace, id)
  {
    hide Wanted, Published, Pending;
    if trace != [] {
      var before := trace[..|trace| - 1];
      assert forall k :: 0 <= k <= |before| ==> before[..k] == trace[..k];
      assert NeverFull(strict, before, id);
      assert trace[..|trace| - 1] == before;
      KeptIsAll(strict, before, id);
    }
  }

  /** Delivery over every run, strict or not: what a client has received followed by
      what is queued for it is an order-preserving subsequence of the events it was
      subscribed to and did not publish itself, and all of them if its channel was
      never full. */
  lemma DeliveryIsFifo(strict: bool, trace: seq<Step>, id: nat)
    ensures Subsequence(TakenEvents(strict, trace, id) + Pending(strict, trace, id), WantedEvents(strict, trace, id))
    ensures NeverFull(strict, trace, id) ==>
      TakenEvents(strict, trace, id) + Pending(strict, trace, id) == WantedEvents(strict, trace, id)
    ensures |Pending(strict, trace, id)| <= 256
  {
    assert CAPACITY == 256;
    hide *;
    Conservation(strict, trace, id);
    KeptIsSubsequence(strict, trace, id);
    PendingBounded(strict, trace, id);
    if NeverFull(strict, trace, id) {
      KeptIsAll(strict, trace, id);
    }
  }

  lemma {:induction false} PendingBounded(strict: bool, trace: seq<Step>, id: nat)
    ensures |Pending(strict, trace, id)| <= CAPACITY
  {
    hide Next, Wanted, Published;
    if trace != [] {
      PendingBounded(strict, trace[..|trace| - 1], id);
      PendingStep(strict, trace, id);
    }
  }

  /** An event goes missing only when it met a full channel, and nothing is added to
      the channel of a client that is not registered. */
  lemma DropOnlyWhenFull(strict: bool, trace: seq<Step>, step: Step, id: nat)
    requires Wanted(strict, trace, step, id)
    ensures Pending(strict, trace + [step], id) ==
      if |Pending(strict, trace, id)| == 256 then Pending(strict, trace, id)
      else Pending(strict, trace, id) + [Published(Run(strict, trace), strict, step)]
  {
    hide Next, Wanted, Published;
    assert (trace + [step])[..|trace|] == trace;
    PendingBounded(strict, trace, id);
    PendingStep(strict, trace + [step], id);
  }

  lemma NothingForTheUnregistered(strict: bool, trace: seq<Step>, step: Step, id: nat)
    requires Subscriptions(strict, trace, id).None?
    ensures exists k: nat ::
      k <= |Pending(strict, trace, id)| && Pending(strict, trace + [step], id) == Pending(strict, trace, id)[k..]
  {
    hide Next, Published, Publishes, Subscriptions;
    assert (trace + [step])[..|trace|] == trace;
    PendingStep(strict, trace + [step], id);
    var p := Pending(strict, trace, id);
    var k: nat := if step == Take(id) && p != [] then 1 else 0;
    assert Pending(strict, trace + [step], id) == p[k..];
  }
}
