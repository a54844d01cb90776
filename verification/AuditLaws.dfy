/** What a subscriber of the audit broker is sent, event by event
    (internal/audit/broker.go). */
module AuditLaws {
  import opened AuditRing

  /** The lines meant for subscriber `id`: the end of the history at the moment it joins,
      then every line published while fewer than 256 wait in its channel. */
  function Meant(ringSize: nat, trace: seq<Step>, id: nat): seq<Line> {
    if trace == [] then []
    else
      var before, step := trace[..|trace| - 1], trace[|trace| - 1];
      if step.Subscribe? && Run(before).nextID == id then
        var h := Run(before).history;
        if |h| <= ringSize then h else h[|h| - ringSize..]
      else
        Meant(ringSize, before, id) + if step.Publish? && |Pending(before, id)| < 256 then [step.line] else []
  }

  lemma MeantStep(ringSize: nat, trace: seq<Step>, id: nat)
    requires trace != []
    ensures var before, step := trace[..|trace| - 1], trace[|trace| - 1];
      if step.Subscribe? && Run(before).nextID == id then Meant(ringSize, trace, id) == Last(Run(before).history, ringSize)
      else if step.Publish? && |Pending(before, id)| < 256 then Meant(ringSize, trace, id) == Meant(ringSize, before, id) + [step.line]
      else Meant(ringSize, trace, id) == Meant(ringSize, before, id)
  {
    hide Run, Pending;
  }

  lemma WrittenNext(ringSize: nat, trace: seq<Step>, id: nat)
    requires trace != []
    ensures var before, step := trace[..|trace| - 1], trace[|trace| - 1];
      var p := Pending(before, id);
      Written(ringSize, trace, id) ==
        if step.Subscribe? && Run(before).nextID == id then Last(Run(before).history, ringSize)
        else if step == Take(id) && p != [] then Written(ringSize, before, id) + [p[0]]
        else Written(ringSize, before, id)
  {
    hide Run, Pending, Last;
  }

  lemma Offered(queue: seq<Line>, line: Line)
    ensures Offer(queue, line) == if |queue| < 256 then queue + [line] else queue
  {
  }

  /** In every run, what was written to a subscriber and what waits for it are, in this
      order, exactly the lines meant for it: a full channel turns the new line away and
      keeps what it holds. */
  lemma {:induction false} WrittenIsMeant(ringSize: nat, trace: seq<Step>, id: nat)
    requires id in Run(trace).subs
    ensures Written(ringSize, trace, id) + Pending(trace, id) == Meant(ringSize, trace, id)
  {
    SubscribersNeedSteps(trace, id);
    hide Run, Pending, Last, Written, Meant, Offer;
    var before, step := trace[..|trace| - 1], trace[|trace| - 1];
    PendingStep(trace, id);
    WrittenNext(ringSize, trace, id);
    MeantStep(ringSize, trace, id);
    if !(step.Subscribe? && Run(before).nextID == id) {
      WrittenIsMeant(ringSize, before, id);
      var w, p := Written(ringSize, before, id), Pending(before, id);
      if step.Publish? {
        Offered(p, step.line);
        assert w + (p + [step.line]) == w + p + [step.line];
      } else if step == Take(id) && p != [] {
        GlueTaken(w, p);
      }
    }
  }

  /** A subscriber gets the next number and an empty channel; publishing offers the line to
      each, leaving gets rid of one, and nobody else notices. */
  lemma SubscribersMean(s: State, line: Line, id: nat, other: nat)
    requires other in s.subs && other < s.nextID
    ensures var t := Next(s, Subscribe);
      && t.history == s.history && t.nextID == s.nextID + 1 && s.nextID in t.subs && t.subs[s.nextID] == []
      && other in t.subs && t.subs[other] == s.subs[other]
    ensures var t := Next(s, Publish(line));
      && t.history == s.history + [line] && t.nextID == s.nextID && t.subs.Keys == s.subs.Keys
      && t.subs[other] == if |s.subs[other]| < 256 then s.subs[other] + [line] else s.subs[other]
    ensures var t := Next(s, Unsubscribe(id));
      && t.history == s.history && t.nextID == s.nextID && id !in t.subs
      && (other != id ==> other in t.subs && t.subs[other] == s.subs[other])
  {
  }
}
