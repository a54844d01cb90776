/** Topic matching, agent-message addressing and the topic-family access rules
    (internal/bus/match.go, internal/schema/agent_message.go,
    internal/bus/agent_message.go, internal/bus/provenance.go). */
module Topics {
  import opened Text
  import opened Decimal

  // ---------- matching ----------

  /** Segment by segment; "*" stands for exactly one segment. */
  predicate SegmentsMatch(pattern: seq<string>, topic: seq<string>) {
    |pattern| == |topic| && forall i :: 0 <= i < |pattern| ==> pattern[i] == "*" || pattern[i] == topic[i]
  }

  predicate TopicMatch(pattern: string, topic: string) {
    SegmentsMatch(Split(pattern, '.'), Split(topic, '.'))
  }

  // ---------- addressing ----------

  const AGENT_MESSAGE_PREFIX := "agent.message."

  datatype Address = Address(fromUid: Uid, toUid: Uid, kind: string)

  datatype Pattern = Pattern(fromSegment: string, toSegment: string, kind: string)

  function AgentMessageTopic(a: Address): string {
    AGENT_MESSAGE_PREFIX + Dec(a.fromUid) + "." + Dec(a.toUid) + "." + a.kind
  }

  function ParseAgentMessageTopic(topic: string): Option<Address> {
    ParseTopicSegments(Split(topic, '.'))
  }

  function ParseTopicSegments(parts: seq<string>): Option<Address> {
    if |parts| != 5 then None
    else if parts[0] != "agent" || parts[1] != "message" || parts[4] == "" || parts[4] == "*" then None
    else if !Canonical(parts[2]) || !Canonical(parts[3]) then None
    else Some(Address(ParseUint32(parts[2]).value, ParseUint32(parts[3]).value, parts[4]))
  }

  function ParseAgentMessagePattern(pattern: string): Option<Pattern> {
    ParsePatternSegments(Split(pattern, '.'))
  }

  function ParsePatternSegments(parts: seq<string>): Option<Pattern> {
    if |parts| != 5 then None
    else if parts[0] != "agent" || parts[1] != "message" || parts[4] == "" then None
    else if !WildcardOrCanonical(parts[2]) || !WildcardOrCanonical(parts[3]) then None
    else Some(Pattern(parts[2], parts[3], parts[4]))
  }

  predicate WildcardOrCanonical(segment: string) {
    segment == "*" || Canonical(segment)
  }

  // ---------- the printer and the parser are inverse ----------

  function Segments(a: Address): seq<string> {
    ["agent", "message", Dec(a.fromUid), Dec(a.toUid), a.kind]
  }

  lemma PrintedSegments(a: Address)
    ensures AgentMessageTopic(a) == Join(Segments(a)[..4], ['.']) + ['.'] + a.kind
    ensures Split(AgentMessageTopic(a), '.') == Segments(a)[..4] + Split(a.kind, '.')
  {
    hide Split, Dec;
    var f, t, k := Dec(a.fromUid), Dec(a.toUid), a.kind;
    DecFree(a.fromUid, '.');
    DecFree(a.toUid, '.');
    var t3 := t + ['.'] + k;
    var t2 := f + ['.'] + t3;
    var t1 := "message" + ['.'] + t2;
    assert AGENT_MESSAGE_PREFIX == "agent" + ['.'] + ("message" + ['.']);
    assert AgentMessageTopic(a) == "agent" + ['.'] + t1;
    SplitCons("agent", '.', t1);
    SplitCons("message", '.', t2);
    SplitCons(f, '.', t3);
    SplitCons(t, '.', k);
    assert ["agent"] + (["message"] + ([f] + ([t] + Split(k, '.')))) == Segments(a)[..4] + Split(k, '.');
    JoinFour("agent", "message", f, t);
    assert Segments(a)[..4] == ["agent", "message", f, t];
    assert "agent" + ['.'] + t1 == ("agent" + ['.'] + "message" + ['.'] + f + ['.'] + t) + ['.'] + k;
  }

  lemma JoinFour(a: string, b: string, c: string, d: string)
    ensures Join([a, b, c, d], ['.']) == a + ['.'] + b + ['.'] + c + ['.'] + d
  {
    assert [a, b, c, d][1..] == [b, c, d];
    assert [b, c, d][1..] == [c, d];
    assert [c, d][1..] == [d];
    var cd := c + ['.'] + d;
    assert Join([c, d], ['.']) == cd;
    assert b + ['.'] + cd == b + ['.'] + c + ['.'] + d;
    assert a + ['.'] + (b + ['.'] + c + ['.'] + d) == a + ['.'] + b + ['.'] + c + ['.'] + d;
  }

  predicate GoodKind(kind: string) {
    kind != "" && kind != "*" && |Split(kind, '.')| == 1
  }

  lemma GoodKindMeaning(kind: string)
    ensures GoodKind(kind) <==> kind != "" && kind != "*" && Free(kind, '.')
  {
    if Free(kind, '.') {
      SplitFree(kind, '.');
    }
    if |Split(kind, '.')| == 1 {
      JoinSplit(kind, '.');
      assert kind == Split(kind, '.')[0];
    }
  }

  /** A printed topic parses back to its own address exactly when the kind is
      non-empty, has no dot and is not the wildcard. */
  lemma ParseOfPrinted(a: Address)
    ensures ParseAgentMessageTopic(AgentMessageTopic(a)) == Some(a)
            <==> a.kind != "" && a.kind != "*" && Free(a.kind, '.')
  {
    hide Split, Canonical, Dec;
    PrintedSegments(a);
    GoodKindMeaning(a.kind);
    var parts := Split(AgentMessageTopic(a), '.');
    if |Split(a.kind, '.')| == 1 {
      JoinSplit(a.kind, '.');
      assert a.kind == Split(a.kind, '.')[0];
      assert parts == Segments(a)[..4] + [a.kind] == Segments(a);
      PrintedIsCanonical(a.fromUid);
      PrintedIsCanonical(a.toUid);
    }
  }

  lemma PrintedIsCanonical(n: Uid)
    ensures Canonical(Dec(n)) && ParseUint32(Dec(n)) == Some(n)
  {
    ParseOfDec(n);
  }

  /** Every topic that parses is the printed form of what it parses to. */
  lemma PrintOfParsed(topic: string)
    requires ParseAgentMessageTopic(topic).Some?
    ensures AgentMessageTopic(ParseAgentMessageTopic(topic).value) == topic
  {
    hide Split, Dec;
    var parts := Split(topic, '.');
    var a := ParseAgentMessageTopic(topic).value;
    assert parts == Segments(a);
    PrintedSegments(a);
    JoinSplit(topic, '.');
    JoinFour(parts[0], parts[1], parts[2], parts[3]);
    JoinFive(parts[0], parts[1], parts[2], parts[3], parts[4]);
    assert parts[..4] == [parts[0], parts[1], parts[2], parts[3]];
    assert parts == [parts[0], parts[1], parts[2], parts[3], parts[4]];
  }

  lemma JoinFive(a: string, b: string, c: string, d: string, e: string)
    ensures Join([a, b, c, d, e], ['.']) == Join([a, b, c, d], ['.']) + ['.'] + e
  {
    assert [a, b, c, d, e][1..] == [b, c, d, e];
    JoinFour(b, c, d, e);
    JoinFour(a, b, c, d);
  }

  // ---------- publish and subscribe checks on agent messages ----------

  /** A message body as the broker sees it: absent, not decodable as an envelope,
      or an envelope. Decoding itself is not part of this model. */
  datatype Body = Absent | Opaque(raw: string) | Envelope(fromUid: Uid, toUid: Uid, kind: string, raw: string)

  /** validateAgentMessagePublish: no error. */
  predicate AgentPublishOk(publisher: Uid, topic: string, body: Body) {
    if !HasPrefix(topic, AGENT_MESSAGE_PREFIX) then true
    else
      match ParseAgentMessageTopic(topic)
      case None => false
      case Some(address) =>
        match body
        case Absent => false
        case Opaque(_) => false
        case Envelope(f, t, kind, _) =>
          f == publisher && f == address.fromUid && t == address.toUid && kind == address.kind
  }

  /** validateAgentMessageSubscription: no error. */
  predicate AgentSubscribeOk(peer: Uid, pattern: string) {
    if peer == 0 || !HasPrefix(pattern, AGENT_MESSAGE_PREFIX) then true
    else
      match ParseAgentMessagePattern(pattern)
      case None => false
      case Some(parsed) => parsed.toSegment == Dec(peer)
  }

  /** What an accepted scoped pattern can match: five segments, the recipient fixed
      to the subscriber. Such a topic is well formed exactly when its sender segment
      is a printed uid and its kind is neither empty nor the wildcard. */
  lemma ScopedPatternMatches(peer: Uid, pattern: string, topic: string)
    requires peer != 0 && HasPrefix(pattern, AGENT_MESSAGE_PREFIX) && AgentSubscribeOk(peer, pattern)
    requires TopicMatch(pattern, topic)
    ensures var parts := Split(topic, '.');
      && |parts| == 5 && parts[0] == "agent" && parts[1] == "message" && parts[3] == Dec(peer)
      && (ParseAgentMessageTopic(topic).Some? <==> Canonical(parts[2]) && parts[4] != "" && parts[4] != "*")
      && (ParseAgentMessageTopic(topic).Some? ==> ParseAgentMessageTopic(topic).value.toUid == peer)
  {
    hide Split, Canonical, Dec;
    PrintedIsCanonical(peer);
    DecFree(peer, '*');
    var p, t := Split(pattern, '.'), Split(topic, '.');
    assert forall i :: 0 <= i < 5 ==> p[i] == "*" || p[i] == t[i];
    assert p[3] != "*" by { StarIsNoNumeral(peer); }
    assert p[0] == t[0] && p[1] == t[1] && p[3] == t[3];
  }

  lemma StarIsNoNumeral(n: Uid)
    ensures Dec(n) != "*"
  {
    assert IsDigit(Dec(n)[0]);
  }

  /** An accepted scoped pattern matches well-formed topics only, if and only if
      neither its sender nor its kind segment is the wildcard. */
  lemma OnlyWellFormedIffNoWildcard(peer: Uid, pattern: string)
    requires peer != 0 && HasPrefix(pattern, AGENT_MESSAGE_PREFIX) && AgentSubscribeOk(peer, pattern)
    ensures ParseAgentMessagePattern(pattern).Some?
    ensures (forall topic :: TopicMatch(pattern, topic) ==> ParseAgentMessageTopic(topic).Some?)
            <==> ParseAgentMessagePattern(pattern).value.fromSegment != "*" && ParseAgentMessagePattern(pattern).value.kind != "*"
  {
    hide Split, Canonical, Dec;
    var p := Split(pattern, '.');
    if p[2] != "*" && p[4] != "*" {
      forall topic | TopicMatch(pattern, topic)
        ensures ParseAgentMessageTopic(topic).Some?
      {
        ScopedPatternMatches(peer, pattern, topic);
        var t := Split(topic, '.');
        assert p[2] == t[2] && p[4] == t[4];
      }
    } else {
      var topic := if p[4] == "*" then pattern else Join(["agent", "message", "x", p[3], p[4]], ['.']);
      if p[4] == "*" {
        assert SegmentsMatch(p, p);
      } else {
        var parts := ["agent", "message", "x", p[3], p[4]];
        assert Free("x", '.') && Free("agent", '.') && Free("message", '.');
        SplitJoin(parts, '.');
        XIsNoNumeral();
      }
      assert TopicMatch(pattern, topic) && ParseAgentMessageTopic(topic).None?;
    }
  }

  lemma XIsNoNumeral()
    ensures !Canonical("x")
  {
    assert !IsDigit("x"[0]);
  }

  /** With the publish check in force the gap closes: any published topic an accepted
      scoped pattern matches is well formed, addressed to the subscriber, and agrees
      with the envelope it carries. */
  lemma PublishedMatchIsAddressed(peer: Uid, pattern: string, publisher: Uid, topic: string, body: Body)
    requires peer != 0 && HasPrefix(pattern, AGENT_MESSAGE_PREFIX) && AgentSubscribeOk(peer, pattern)
    requires TopicMatch(pattern, topic) && AgentPublishOk(publisher, topic, body)
    ensures body.Envelope? && body.toUid == peer && body.fromUid == publisher
    ensures topic == AgentMessageTopic(Address(publisher, peer, body.kind))
  {
    hide Split, Canonical, Dec, ParseTopicSegments;
    ScopedPatternMatches(peer, pattern, topic);
    FiveSegmentsHavePrefix(topic);
    PrintOfParsed(topic);
  }

  lemma FiveSegmentsHavePrefix(topic: string)
    requires var parts := Split(topic, '.'); |parts| == 5 && parts[0] == "agent" && parts[1] == "message"
    ensures HasPrefix(topic, AGENT_MESSAGE_PREFIX)
  {
    hide Split;
    var p := Split(topic, '.');
    JoinSplit(topic, '.');
    assert p == [p[0], p[1], p[2], p[3], p[4]];
    JoinFive(p[0], p[1], p[2], p[3], p[4]);
    JoinFour(p[0], p[1], p[2], p[3]);
    var rest := p[2] + ['.'] + p[3] + ['.'] + p[4];
    assert topic == "agent" + ['.'] + "message" + ['.'] + rest;
    assert AGENT_MESSAGE_PREFIX == "agent" + ['.'] + "message" + ['.'];
  }

  // ---------- topic families ----------

  datatype SenderKind = Peer | Delegated

  const PRIVILEGED_PUBLISH: seq<string> := [
    "agent.lifecycle.", "agent.work.assigned", "compositor.surface.", "shell.action.", "audit.", "admin.escalation."]

  const PRIVILEGED_SUBSCRIBE: seq<string> := ["admin.escalation.decided", "admin.escalation.requested"]

  predicate IsRootOrDelegated(uid: Uid, kind: SenderKind) {
    uid == 0 || kind == Delegated
  }

  predicate PrivilegedTopic(topic: string) {
    exists i :: 0 <= i < |PRIVILEGED_PUBLISH| && HasPrefix(topic, PRIVILEGED_PUBLISH[i])
  }

  /** validateTopicPublish: no error. The source walks the families in order and
      decides at the first that matches. */
  predicate TopicPublishOk(uid: Uid, kind: SenderKind, topic: string) {
    FamiliesOk(PRIVILEGED_PUBLISH, topic, IsRootOrDelegated(uid, kind))
  }

  predicate FamiliesOk(families: seq<string>, topic: string, isRoot: bool) {
    if families == [] then true
    else if HasPrefix(topic, families[0]) then isRoot
    else FamiliesOk(families[1..], topic, isRoot)
  }

  lemma {:induction false} FamiliesMeaning(families: seq<string>, topic: string, isRoot: bool)
    ensures FamiliesOk(families, topic, isRoot)
            <==> isRoot || forall i :: 0 <= i < |families| ==> !HasPrefix(topic, families[i])
  {
    if families != [] {
      FamiliesMeaning(families[1..], topic, isRoot);
      assert forall i :: 0 < i < |families| ==> families[i] == families[1..][i - 1];
      assert (forall i :: 0 <= i < |families| ==> !HasPrefix(topic, families[i]))
        <==> !HasPrefix(topic, families[0]) && forall i :: 0 <= i < |families[1..]| ==> !HasPrefix(topic, families[1..][i]);
    }
  }

  /** A publish passes exactly when it is privileged by its sender or not at all. */
  lemma PublishOkMeaning(uid: Uid, kind: SenderKind, topic: string)
    ensures TopicPublishOk(uid, kind, topic) <==> IsRootOrDelegated(uid, kind) || !PrivilegedTopic(topic)
  {
    FamiliesMeaning(PRIVILEGED_PUBLISH, topic, IsRootOrDelegated(uid, kind));
  }

  /** validateTopicSubscribe: no error. */
  predicate TopicSubscribeOk(uid: Uid, kind: SenderKind, pattern: string) {
    IsRootOrDelegated(uid, kind) ||
    forall i :: 0 <= i < |PRIVILEGED_SUBSCRIBE| ==> !TopicMatch(pattern, PRIVILEGED_SUBSCRIBE[i])
  }
}
