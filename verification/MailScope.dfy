/** Whose agent messages a subscription can bring in (internal/bus/agent_message.go,
    internal/bus/match.go): the subscription check looks only at patterns that spell the
    agent-message prefix out, and wildcards can stand for it. */
module MailScope {
  import opened Text
  import opened Decimal
  import opened Topics
  import opened Bus

  // ---------- what a pattern can match ----------

  /** Some publishable agent message on this topic is addressed to somebody else. */
  ghost predicate Foreign(uid: Uid, topic: string) {
    HasPrefix(topic, AGENT_MESSAGE_PREFIX) &&
    exists publisher: Uid, body: Body :: AgentPublishOk(publisher, topic, body) && body.Envelope? && body.toUid != uid
  }

  predicate Spells(segment: string, word: string) {
    segment == "*" || segment == word
  }

  /** The pattern's segments leave room for an agent-message topic. */
  predicate ReachesMail(p: seq<string>) {
    && |p| == 5 && Spells(p[0], "agent") && Spells(p[1], "message")
    && WildcardOrCanonical(p[2]) && WildcardOrCanonical(p[3]) && p[4] != ""
  }

  /** They do, and the recipient is not fixed to this uid. */
  predicate Escapes(uid: Uid, pattern: string) {
    var p := Split(pattern, '.');
    ReachesMail(p) && p[3] != Dec(uid)
  }

  function Other(uid: Uid): Uid {
    if uid == 0 then 1 else 0
  }

  /** An address of somebody else that such a pattern matches. */
  function ForeignAddress(uid: Uid, p: seq<string>): Address
    requires ReachesMail(p)
  {
    Address(if p[2] == "*" then uid else ParseUint32(p[2]).value,
            if p[3] == "*" then Other(uid) else ParseUint32(p[3]).value,
            if p[4] == "*" then "note" else p[4])
  }

  lemma WildOrPrinted(segment: string)
    requires WildcardOrCanonical(segment)
    ensures segment == "*" || segment == Dec(ParseUint32(segment).value)
  {
  }

  lemma ForeignSegments(uid: Uid, p: seq<string>)
    requires ReachesMail(p) && p[3] != Dec(uid) && Free(p[4], '.')
    ensures var a := ForeignAddress(uid, p);
      && a.toUid != uid && a.kind != "" && a.kind != "*" && Free(a.kind, '.')
      && SegmentsMatch(p, Segments(a))
  {
    hide Dec, Canonical, ParseUint32;
    var a := ForeignAddress(uid, p);
    WildOrPrinted(p[2]);
    WildOrPrinted(p[3]);
    var t := Segments(a);
    assert p[0] == "*" || p[0] == t[0];
    assert p[1] == "*" || p[1] == t[1];
    assert p[2] == "*" || p[2] == t[2];
    assert p[3] == "*" || p[3] == t[3];
    assert p[4] == "*" || p[4] == t[4];
  }

  lemma TopicSegments(a: Address)
    requires a.kind != "" && a.kind != "*" && Free(a.kind, '.')
    ensures Split(AgentMessageTopic(a), '.') == Segments(a)
    ensures ParseAgentMessageTopic(AgentMessageTopic(a)) == Some(a)
    ensures HasPrefix(AgentMessageTopic(a), AGENT_MESSAGE_PREFIX)
  {
    PrefixOfTopic(a);
    hide Split, Dec;
    PrintedSegments(a);
    SplitFree(a.kind, '.');
    ParseOfPrinted(a);
    assert Segments(a)[..4] + [a.kind] == Segments(a);
  }

  lemma PrefixOfTopic(a: Address)
    ensures HasPrefix(AgentMessageTopic(a), AGENT_MESSAGE_PREFIX)
  {
    hide Dec;
    var rest := Dec(a.fromUid) + "." + Dec(a.toUid) + "." + a.kind;
    assert AgentMessageTopic(a) == AGENT_MESSAGE_PREFIX + rest;
  }

  function BodyTo(a: Address): Body {
    Envelope(a.fromUid, a.toUid, a.kind, "")
  }

  lemma EscapeMatches(uid: Uid, pattern: string) returns (a: Address)
    requires Escapes(uid, pattern)
    ensures TopicMatch(pattern, AgentMessageTopic(a)) && HasPrefix(AgentMessageTopic(a), AGENT_MESSAGE_PREFIX)
    ensures AgentPublishOk(a.fromUid, AgentMessageTopic(a), BodyTo(a)) && a.toUid != uid
    ensures Foreign(uid, AgentMessageTopic(a))
  {
    hide Split, Dec, Canonical, AgentMessageTopic, HasPrefix, SegmentsMatch;
    var p := Split(pattern, '.');
    a := ForeignAddress(uid, p);
    ForeignSegments(uid, p);
    TopicSegments(a);
    assert BodyTo(a).Envelope? && BodyTo(a).toUid != uid;
  }

  lemma ForeignMatchEscapes(uid: Uid, pattern: string, topic: string)
    requires TopicMatch(pattern, topic) && Foreign(uid, topic)
    ensures Escapes(uid, pattern)
  {
    hide Split, Dec, Canonical, HasPrefix;
    var p, t := Split(pattern, '.'), Split(topic, '.');
    var publisher: Uid, body: Body :| AgentPublishOk(publisher, topic, body) && body.Envelope? && body.toUid != uid;
    assert ParseAgentMessageTopic(topic).Some?;
    assert forall i :: 0 <= i < 5 ==> p[i] == "*" || p[i] == t[i];
    assert p[0] == "*" || p[0] == t[0];
    assert p[1] == "*" || p[1] == t[1];
    assert p[2] == "*" || p[2] == t[2];
    assert p[3] == "*" || p[3] == t[3];
    assert p[4] == "*" || p[4] == t[4];
    PrintedIsCanonical(uid);
    StarIsNoNumeral(uid);
  }

  /** A pattern matches somebody else's publishable agent message if and only if its
      segments reach agent messages without fixing the recipient to this uid. */
  lemma MatchesForeignIff(uid: Uid, pattern: string)
    ensures (exists topic :: TopicMatch(pattern, topic) && Foreign(uid, topic)) <==> Escapes(uid, pattern)
  {
    hide TopicMatch, Foreign, Escapes;
    if Escapes(uid, pattern) {
      var a := EscapeMatches(uid, pattern);
    }
    if topic :| TopicMatch(pattern, topic) && Foreign(uid, topic) {
      ForeignMatchEscapes(uid, pattern, topic);
    }
  }

  /** Of the patterns accepted for a client that is not root only those escape that have
      a wildcard where the prefix would be. */
  lemma AcceptedEscapesAreWild(uid: Uid, pattern: string)
    requires uid != 0 && AgentSubscribeOk(uid, pattern) && Escapes(uid, pattern)
    ensures Split(pattern, '.')[0] == "*" || Split(pattern, '.')[1] == "*"
  {
    hide Split, Dec, Canonical;
    var p := Split(pattern, '.');
    if p[0] != "*" && p[1] != "*" {
      FiveSegmentsHavePrefix(pattern);
    }
  }

  /** Such patterns are accepted, by a strict broker too. */
  lemma WildcardSlipsThrough(uid: Uid)
    requires uid != 0
    ensures Accepted(true, uid, Sub("agent.*.*.*.*")) && Escapes(uid, "agent.*.*.*.*")
  {
    hide Split, Dec, Canonical;
    var parts := ["agent", "*", "*", "*", "*"];
    JoinFive("agent", "*", "*", "*", "*");
    JoinFour("agent", "*", "*", "*");
    assert Join(parts, ['.']) == "agent.*.*.*.*";
    SplitJoin(parts, '.');
    StarIsNoNumeral(uid);
    NoPrefix();
    ThreeSegments("decided");
    ThreeSegments("requested");
    assert "admin.escalation." + "decided" == "admin.escalation.decided";
    assert "admin.escalation." + "requested" == "admin.escalation.requested";
  }

  lemma NoPrefix()
    ensures !HasPrefix("agent.*.*.*.*", AGENT_MESSAGE_PREFIX)
  {
  }

  lemma ThreeSegments(word: string)
    requires Free(word, '.')
    ensures |Split("admin.escalation." + word, '.')| == 3
  {
    hide Split;
    assert "admin.escalation." + word == "admin" + ['.'] + ("escalation" + ['.'] + word);
    SplitCons("admin", '.', "escalation" + ['.'] + word);
    SplitCons("escalation", '.', word);
    SplitFree(word, '.');
  }

  // ---------- what a queue can hold ----------

  /** No subscription client `id` asks for escapes. */
  ghost predicate Scoped(trace: seq<Step>, id: nat, uid: Uid) {
    forall k :: 0 <= k < |trace| && trace[k].Message? && trace[k].id == id && trace[k].msg.Sub? ==>
      !Escapes(uid, trace[k].msg.pattern)
  }

  lemma ScopedFront(trace: seq<Step>, id: nat, uid: Uid)
    requires trace != [] && Scoped(trace, id, uid)
    ensures Scoped(trace[..|trace| - 1], id, uid)
  {
    hide Escapes;
    assert forall k :: 0 <= k < |trace| - 1 ==> trace[..|trace| - 1][k] == trace[k];
  }

  ghost predicate PatternsScoped(s: System, id: nat, uid: Uid) {
    id in s.broker.clients ==> forall p :: p in s.broker.clients[id].patterns ==> !Escapes(uid, p)
  }

  lemma {:induction false} RunPatternsScoped(strict: bool, trace: seq<Step>, id: nat, uid: Uid)
    requires Scoped(trace, id, uid)
    ensures PatternsScoped(Run(strict, trace), id, uid)
  {
    if trace != [] {
      ScopedFront(trace, id, uid);
      RunPatternsScoped(strict, trace[..|trace| - 1], id, uid);
      StepPatternsScoped(Run(strict, trace[..|trace| - 1]), strict, trace[|trace| - 1], id, uid);
    }
  }

  lemma StepPatternsScoped(s: System, strict: bool, step: Step, id: nat, uid: Uid)
    requires PatternsScoped(s, id, uid)
    requires step.Message? && step.id == id && step.msg.Sub? ==> !Escapes(uid, step.msg.pattern)
    ensures PatternsScoped(Next(s, strict, step), id, uid)
  {
    hide Escapes, Accepted, Override, Delivered;
    DeliveryKeepsTables(s.broker);
  }

  /** A client that asks for no escaping subscription holds only agent messages addressed
      to it: in every run, of a strict broker or not, root's clients included. */
  lemma {:induction false} OwnMailOnly(strict: bool, trace: seq<Step>, id: nat, uid: Uid, e: Event)
    requires Scoped(trace, id, uid) && HasPrefix(e.topic, AGENT_MESSAGE_PREFIX)
    requires id in Run(strict, trace).broker.queues && e in Run(strict, trace).broker.queues[id]
    ensures e.body.Envelope? && e.body.toUid == uid
  {
    if trace != [] {
      hide Next, Publishes, Published, Escapes, HasPrefix, Scoped, Receives;
      var before, step := trace[..|trace| - 1], trace[|trace| - 1];
      var s := Run(strict, before);
      RunShape(strict, before);
      ScopedFront(trace, id, uid);
      NextQueue(s, strict, step, id, e);
      if id in s.broker.queues && e in s.broker.queues[id] {
        OwnMailOnly(strict, before, id, uid, e);
      } else {
        RunPatternsScoped(strict, before, id, uid);
        NewMailIsOwn(s, strict, step, id, uid);
      }
    }
  }

  lemma NewMailIsOwn(s: System, strict: bool, step: Step, id: nat, uid: Uid)
    requires PatternsScoped(s, id, uid) && Publishes(s, strict, step) && Receives(s.broker, id, step.id, step.msg.topic)
    requires HasPrefix(step.msg.topic, AGENT_MESSAGE_PREFIX)
    ensures var e := Published(s, strict, step); e.body.Envelope? && e.body.toUid == uid
  {
    hide Escapes, TopicMatch, TopicPublishOk, HasPrefix, ParseAgentMessageTopic;
    var sender := EffectiveSender(s.uids[step.id], step.msg).value.0;
    assert AgentPublishOk(sender.uid, step.msg.topic, step.msg.body);
    var p :| p in s.broker.clients[id].patterns && TopicMatch(p, step.msg.topic);
    if step.msg.body.toUid != uid {
      assert Foreign(uid, step.msg.topic);
      ForeignMatchEscapes(uid, p, step.msg.topic);
    }
  }

  // ---------- the condition is exact ----------

  lemma DiffersAt(s: string, p: string, k: nat)
    requires k < |s| && k < |p| && s[k] != p[k]
    ensures !HasPrefix(s, p)
  {
    assert |p| <= |s| ==> s[..|p|][k] == s[k];
  }

  lemma MailIsNotPrivileged(a: Address)
    ensures !PrivilegedTopic(AgentMessageTopic(a))
  {
    hide AgentMessageTopic;
    PrefixOfTopic(a);
    var topic := AgentMessageTopic(a);
    assert topic[..14] == AGENT_MESSAGE_PREFIX;
    assert topic[0] == 'a' && topic[1] == 'g' && topic[6] == 'm';
    forall i | 0 <= i < |PRIVILEGED_PUBLISH|
      ensures !HasPrefix(topic, PRIVILEGED_PUBLISH[i])
    {
      var f := PRIVILEGED_PUBLISH[i];
      DiffersAt(topic, f, if f[0] != 'a' then 0 else if f[1] != 'g' then 1 else 6);
    }
  }

  /** The shortest run in which the pattern brings in somebody else's message. */
  function Leak(uid: Uid, pattern: string, a: Address): seq<Step> {
    [Connect(uid), Message(0, Sub(pattern)), Connect(a.fromUid), Message(1, Pub(AgentMessageTopic(a), BodyTo(a), None, None))]
  }

  lemma LeakRuns(strict: bool, uid: Uid, pattern: string, a: Address)
    requires Accepted(strict, uid, Sub(pattern))
    requires TopicMatch(pattern, AgentMessageTopic(a)) && AgentPublishOk(a.fromUid, AgentMessageTopic(a), BodyTo(a))
    ensures var s := Run(strict, Leak(uid, pattern, a));
      && 0 in s.uids && s.uids[0] == uid && 0 in s.broker.queues
      && Event(AgentMessageTopic(a), BodyTo(a), Some(Sender(a.fromUid, Peer))) in s.broker.queues[0]
  {
    hide AgentMessageTopic, TopicMatch, AgentPublishOk, TopicPublishOk, TopicSubscribeOk, AgentSubscribeOk;
    MailIsNotPrivileged(a);
    PublishOkMeaning(a.fromUid, Peer, AgentMessageTopic(a));
    var trace := Leak(uid, pattern, a);
    var s1 := System(Registered(EMPTY, uid), map[0 := uid]);
    var s2 := s1.(broker := Subscribed(s1.broker, 0, pattern));
    var s3 := System(Registered(s2.broker, a.fromUid), s2.uids[1 := a.fromUid]);
    assert trace[..3][..2][..1] == [Connect(uid)] && [Connect(uid)][..0] == [];
    assert Run(strict, []) == System(EMPTY, map[]);
    assert Run(strict, [Connect(uid)]) == s1;
    assert trace[..2][..1] == [Connect(uid)] && trace[..3][..2] == trace[..2];
    assert Run(strict, trace[..2]) == s2;
    assert Run(strict, trace[..3]) == s3;
    assert Accepted(strict, a.fromUid, trace[3].msg);
    assert Receives(s3.broker, 0, 1, AgentMessageTopic(a));
  }

  /** Client `id` has this uid, and the only subscription it asks for is this pattern. */
  ghost predicate Subscriber(strict: bool, trace: seq<Step>, id: nat, uid: Uid, pattern: string) {
    && id in Run(strict, trace).uids && Run(strict, trace).uids[id] == uid
    && forall k :: 0 <= k < |trace| && trace[k].Message? && trace[k].id == id && trace[k].msg.Sub? ==> trace[k].msg.pattern == pattern
  }

  /** Its queue holds somebody else's agent message. */
  ghost predicate HoldsForeign(strict: bool, trace: seq<Step>, id: nat, uid: Uid) {
    exists e ::
      && id in Run(strict, trace).broker.queues && e in Run(strict, trace).broker.queues[id]
      && HasPrefix(e.topic, AGENT_MESSAGE_PREFIX) && !(e.body.Envelope? && e.body.toUid == uid)
  }

  /** For every accepted pattern: some run brings somebody else's agent message into the
      queue of a client that subscribes to nothing else, if and only if the pattern
      escapes. */
  lemma HoldsOwnMailIff(strict: bool, uid: Uid, pattern: string)
    requires Accepted(strict, uid, Sub(pattern))
    ensures (exists trace, id :: Subscriber(strict, trace, id, uid, pattern) && HoldsForeign(strict, trace, id, uid))
            <==> Escapes(uid, pattern)
  {
    hide Run, Escapes, HasPrefix, Accepted, AgentMessageTopic;
    if Escapes(uid, pattern) {
      var a := EscapeMatches(uid, pattern);
      var trace := Leak(uid, pattern, a);
      LeakRuns(strict, uid, pattern, a);
      assert Subscriber(strict, trace, 0, uid, pattern);
      assert HoldsForeign(strict, trace, 0, uid);
    } else {
      forall trace: seq<Step>, id: nat | Subscriber(strict, trace, id, uid, pattern)
        ensures !HoldsForeign(strict, trace, id, uid)
      {
        OnlyOwn(strict, trace, id, uid, pattern);
      }
    }
  }

  lemma OnlyOwn(strict: bool, trace: seq<Step>, id: nat, uid: Uid, pattern: string)
    requires Subscriber(strict, trace, id, uid, pattern) && !Escapes(uid, pattern)
    ensures !HoldsForeign(strict, trace, id, uid)
  {
    hide Run, Escapes, HasPrefix;
    assert Scoped(trace, id, uid);
    forall e | id in Run(strict, trace).broker.queues && e in Run(strict, trace).broker.queues[id] && HasPrefix(e.topic, AGENT_MESSAGE_PREFIX)
      ensures e.body.Envelope? && e.body.toUid == uid
    {
      OwnMailOnly(strict, trace, id, uid, e);
    }
  }
}
