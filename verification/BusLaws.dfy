/** The bus's guards in plain terms (internal/bus/server.go, provenance.go,
    agent_message.go, match.go): exactly which messages a connection may send, and what
    stamp its events carry. */
module BusLaws {
  import opened Text
  import opened Decimal
  import opened Topics
  import opened Bus

  // ---------- matching ----------

  /** On dot-free segments: as many, and each the same or a wildcard. */
  lemma MatchMeans(pattern: seq<string>, topic: seq<string>)
    requires pattern != [] && topic != []
    requires forall i :: 0 <= i < |pattern| ==> Free(pattern[i], '.')
    requires forall i :: 0 <= i < |topic| ==> Free(topic[i], '.')
    ensures TopicMatch(Join(pattern, "."), Join(topic, ".")) <==>
      |pattern| == |topic| && forall i :: 0 <= i < |pattern| ==> pattern[i] == "*" || pattern[i] == topic[i]
  {
    hide Split, Free;
    assert ['.'] == ".";
    SplitJoin(pattern, '.');
    SplitJoin(topic, '.');
  }

  // ---------- publishing ----------

  /** The topic lies in none of the families only root may publish to. */
  predicate OpenTopic(topic: string) {
    && !HasPrefix(topic, "agent.lifecycle.") && !HasPrefix(topic, "agent.work.assigned")
    && !HasPrefix(topic, "compositor.surface.") && !HasPrefix(topic, "shell.action.")
    && !HasPrefix(topic, "audit.") && !HasPrefix(topic, "admin.escalation.")
  }

  /** The body is the envelope of this topic, sent by this uid. */
  ghost predicate OwnEnvelope(who: Uid, topic: string, body: Body) {
    exists to: Uid, kind: string, raw: string ::
      && body == Envelope(who, to, kind, raw)
      && kind != "" && kind != "*" && Free(kind, '.')
      && topic == "agent.message." + Dec(who) + "." + Dec(to) + "." + kind
  }

  /** An agent message is accepted exactly when topic and envelope name the publisher. */
  lemma AgentPublishIff(who: Uid, topic: string, body: Body)
    ensures AgentPublishOk(who, topic, body) <==> !HasPrefix(topic, "agent.message.") || OwnEnvelope(who, topic, body)
  {
    hide Dec, HasPrefix, ParseAgentMessageTopic, Free;
    if HasPrefix(topic, "agent.message.") {
      if AgentPublishOk(who, topic, body) {
        var a := ParseAgentMessageTopic(topic).value;
        PrintOfParsed(topic);
        ParseOfPrinted(a);
        assert body == Envelope(who, a.toUid, a.kind, body.raw);
        assert OwnEnvelope(who, topic, body);
      }
      if OwnEnvelope(who, topic, body) {
        var to: Uid, kind: string, raw: string :|
          && body == Envelope(who, to, kind, raw)
          && kind != "" && kind != "*" && Free(kind, '.')
          && topic == "agent.message." + Dec(who) + "." + Dec(to) + "." + kind;
        ParseOfPrinted(Address(who, to, kind));
        assert topic == AgentMessageTopic(Address(who, to, kind));
      }
    }
  }

  /** Who a publish speaks for: the connection's own uid, unless root names another and
      calls it a delegation or nothing at all. */
  lemma SpeaksFor(uid: Uid, topic: string, body: Body, named: Option<Uid>, kind: Option<string>)
    ensures EffectiveSender(uid, Pub(topic, body, named, kind)) ==
      if uid != 0 || named.None? then Some((Sender(uid, Peer), false))
      else if kind.None? || kind.value == "delegated" then Some((Sender(named.value, Delegated), true))
      else None
  {
  }

  /** Exactly the publishes a broker accepts. A strict one keeps the reserved families for
      root and what root delegates. */
  lemma PublishAcceptedIff(strict: bool, uid: Uid, topic: string, body: Body, named: Option<Uid>, kind: Option<string>)
    ensures Accepted(strict, uid, Pub(topic, body, named, kind)) <==>
      && (uid != 0 || named.None? || kind.None? || kind.value == "delegated")
      && (!HasPrefix(topic, "agent.message.") || OwnEnvelope(if uid != 0 || named.None? then uid else named.value, topic, body))
      && (strict && uid != 0 ==> OpenTopic(topic))
  {
    hide HasPrefix, TopicPublishOk, AgentPublishOk, PrivilegedTopic, OwnEnvelope;
    var who := if uid != 0 || named.None? then uid else named.value;
    AgentPublishIff(who, topic, body);
    SixFamilies(topic);
    PublishOkMeaning(who, Peer, topic);
    PublishOkMeaning(who, Delegated, topic);
  }

  // ---------- subscribing ----------

  /** Five segments after the prefix's two: a sender or any, the subscriber, a kind. */
  predicate OwnPattern(uid: Uid, pattern: string) {
    var p := Split(pattern, '.');
    && |p| == 5 && p[0] == "agent" && p[1] == "message"
    && (p[2] == "*" || Canonical(p[2])) && p[3] == Dec(uid) && p[4] != ""
  }

  /** Exactly the subscriptions a broker accepts. */
  lemma SubscribeAcceptedIff(strict: bool, uid: Uid, pattern: string)
    ensures Accepted(strict, uid, Sub(pattern)) <==>
      uid == 0 ||
      (&& (!HasPrefix(pattern, "agent.message.") || OwnPattern(uid, pattern))
       && (strict ==> !TopicMatch(pattern, "admin.escalation.decided") && !TopicMatch(pattern, "admin.escalation.requested")))
  {
    hide Split, Dec, Canonical, HasPrefix, TopicMatch;
    PrintedIsCanonical(uid);
    StarIsNoNumeral(uid);
    assert PRIVILEGED_SUBSCRIBE[0] == "admin.escalation.decided" && PRIVILEGED_SUBSCRIBE[1] == "admin.escalation.requested";
  }

  /** Everything else a client sends is accepted. */
  lemma OthersAccepted(strict: bool, uid: Uid, pattern: string)
    ensures Accepted(strict, uid, Unsub(pattern)) && Accepted(strict, uid, OtherOp)
  {
  }

  // ---------- stamps ----------

  /** What an accepted publish puts into the channel of every other subscriber with room:
      its topic and body, stamped with the uid root delegated to, or else with the
      publisher's own as long as it is registered. */
  lemma PublishStamps(strict: bool, trace: seq<Step>, id: nat, topic: string, body: Body, named: Option<Uid>, kind: Option<string>, other: nat)
    requires id in Run(strict, trace).uids && Accepted(strict, Run(strict, trace).uids[id], Pub(topic, body, named, kind))
    requires Wanted(strict, trace, Message(id, Pub(topic, body, named, kind)), other) && |Pending(strict, trace, other)| < 256
    ensures var uid := Run(strict, trace).uids[id];
      var stamp := if uid == 0 && named.Some? then Some(Sender(named.value, Delegated))
                   else if id in Run(strict, trace).broker.clients then Some(Sender(uid, Peer))
                   else None;
      Pending(strict, trace + [Message(id, Pub(topic, body, named, kind))], other) == Pending(strict, trace, other) + [Event(topic, body, stamp)]
  {
    hide Run, Pending, Wanted;
    var s, step := Run(strict, trace), Message(id, Pub(topic, body, named, kind));
    RunShape(strict, trace);
    DropOnlyWhenFull(strict, trace, step, other);
    SpeaksFor(s.uids[id], topic, body, named, kind);
    assert Published(s, strict, step) == Event(topic, body, Stamp(s.broker, id, Override(s.uids[id], step.msg)));
  }

  /** When an accepted publish is for a client: it is not the publisher's own connection,
      and one of the patterns the client holds by then matches the topic. */
  lemma WantedIff(strict: bool, trace: seq<Step>, id: nat, topic: string, body: Body, named: Option<Uid>, kind: Option<string>, other: nat)
    requires id in Run(strict, trace).uids && Accepted(strict, Run(strict, trace).uids[id], Pub(topic, body, named, kind))
    ensures Wanted(strict, trace, Message(id, Pub(topic, body, named, kind)), other) <==>
      && other != id && other in Run(strict, trace).broker.clients
      && exists p :: p in Run(strict, trace).broker.clients[other].patterns && TopicMatch(p, topic)
  {
    hide Run, Subscriptions, TopicMatch, Accepted;
    TablesFollowTrace(strict, trace, other);
  }
}
