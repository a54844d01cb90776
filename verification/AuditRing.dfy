/** The audit broker (internal/audit/broker.go): a circular buffer for late
    subscribers and a bounded live channel for each current one. */
module AuditRing {
  import opened Text
  import opened Arith

  type Line = string

  const CAPACITY := 256

  // ---------- what the broker means: a history and the live channels ----------

  datatype State = State(history: seq<Line>, subs: map<nat, seq<Line>>, nextID: nat)

  function Last(history: seq<Line>, n: nat): (r: seq<Line>)
    ensures |r| == if |history| < n then |history| else n
    ensures r <= history[|history| - |r|..]
  {
    if |history| <= n then history else history[|history| - n..]
  }

  function Offer(queue: seq<Line>, line: Line): seq<Line> {
    if |queue| < CAPACITY then queue + [line] else queue
  }

  function Published(s: State, line: Line): State {
    s.(history := s.history + [line], subs := map id | id in s.subs :: Offer(s.subs[id], line))
  }

  function Subscribed(s: State): State {
    s.(subs := s.subs[s.nextID := []], nextID := s.nextID + 1)
  }

  function Slot(k: nat, n: nat): (r: nat)
    requires n > 0
    ensures r < n
  {
    k % n
  }

  // ---------- the broker itself ----------

  class Broker {
    const ring: array<Line>
    var pos: nat
    var count: nat
    var subs: map<nat, seq<Line>>
    var nextID: nat
    ghost var history: seq<Line>

    ghost function View(): State
      reads this
    {
      State(history, subs, nextID)
    }

    /** Slot k of the ring holds the latest event whose number is k modulo its size. */
    ghost predicate Valid()
      reads this, ring
    {
      && ring.Length > 0
      && pos == Slot(|history|, ring.Length)
      && count == (if |history| < ring.Length then |history| else ring.Length)
      && (forall k :: 0 <= k < |history| && |history| - ring.Length <= k ==> ring[Slot(k, ring.Length)] == history[k])
    }

    constructor (ringSize: nat)
      requires ringSize > 0
      ensures Valid() && ring.Length == ringSize && fresh(ring)
      ensures View() == State([], map[], 0)
    {
      ring := new Line[ringSize](_ => "");
      pos, count, subs, nextID := 0, 0, map[], 0;
      history := [];
    }

    method Publish(line: Line)
      requires Valid()
      modifies this, ring
      ensures Valid() && View() == Published(old(View()), line)
    {
      hide Slot;
      ghost var n, h := ring.Length, |history|;
      ring[pos] := line;
      forall k | 0 <= k < h && h + 1 - n <= k
        ensures Slot(k, n) != Slot(h, n)
      {
        Distinct(k, h, n);
      }
      NextSlot(h, n);
      pos := (pos + 1) % ring.Length;
      if count < ring.Length {
        count := count + 1;
      }
      history := history + [line];
      var todo := subs.Keys;
      while todo != {}
        invariant todo <= subs.Keys == old(subs).Keys
        invariant forall id :: id in subs ==> subs[id] == if id in todo then old(subs)[id] else Offer(old(subs)[id], line)
        modifies this`subs
      {
        var id :| id in todo;
        todo := todo - {id};
        if |subs[id]| < CAPACITY {
          subs := subs[id := subs[id] + [line]];
        }
      }
    }

    /** The ring read from its oldest slot on: the last events, oldest first. */
    method ReadRing() returns (backlog: seq<Line>)
      requires Valid()
      ensures backlog == Last(history, ring.Length)
    {
      hide Slot;
      backlog := [];
      if count > 0 {
        var start, n := 0, count;
        if count >= ring.Length {
          start, n := pos, ring.Length;
        }
        ghost var first: nat := |history| - n;
        if count < ring.Length {
          SlotOfSmall(ring.Length);
        } else {
          SlotBack(|history|, ring.Length);
        }
        for i := 0 to n
          invariant first + n == |history| && backlog == history[first..first + i]
        {
          Wrap(first, start, i, ring.Length);
          assert ring[Slot(first + i, ring.Length)] == history[first + i];
          backlog := backlog + [ring[(start + i) % ring.Length]];
        }
        assert backlog == history[first..] == Last(history, ring.Length);
      }
    }

    method Subscribe() returns (id: nat, backlog: seq<Line>)
      requires Valid()
      modifies this
      ensures Valid() && View() == Subscribed(old(View())) && id == old(nextID)
      ensures backlog == Last(history, ring.Length)
    {
      id := nextID;
      nextID := nextID + 1;
      subs := subs[id := []];
      backlog := ReadRing();
    }

    method Unsubscribe(id: nat)
      requires Valid()
      modifies this`subs
      ensures Valid() && View() == old(View()).(subs := old(subs) - {id})
    {
      subs := subs - {id};
    }

    /** The connection handler takes the oldest live event. */
    method Take(id: nat) returns (line: Option<Line>)
      requires Valid()
      modifies this`subs
      ensures Valid() && View() == Taken(old(View()), id) && line == Head(old(View()), id)
    {
      line := None;
      if id in subs && subs[id] != [] {
        line := Some(subs[id][0]);
        subs := subs[id := subs[id][1..]];
      }
    }
  }

  lemma Distinct(k: nat, h: nat, n: nat)
    requires n > 0 && h + 1 - n <= k < h
    ensures Slot(k, n) != Slot(h, n)
  {
    var q := h / n - k / n;
    assert h - k == n * q + (h % n - k % n);
    assert q >= 1 ==> n * q >= n;
    assert q <= 0 ==> n * q <= 0;
  }

  lemma NextSlot(h: nat, n: nat)
    requires n > 0
    ensures (Slot(h, n) + 1) % n == Slot(h + 1, n)
  {
    var r := h % n + 1;
    assert h + 1 == n * (h / n) + r;
    if r == n {
      DivUnique(h + 1, n, h / n + 1, 0);
      DivUnique(r, n, 1, 0);
    } else {
      DivUnique(h + 1, n, h / n, r);
      DivUnique(r, n, 0, r);
    }
  }

  lemma SlotBack(h: nat, n: nat)
    requires n > 0 && h >= n
    ensures Slot(h - n, n) == Slot(h, n)
  {
    assert h - n == n * (h / n - 1) + h % n;
    DivUnique(h - n, n, h / n - 1, h % n);
  }

  lemma SlotOfSmall(n: nat)
    requires n > 0
    ensures Slot(0, n) == 0
  {
  }

  /** Reading slot start + i gives event first + i, when start is the slot of `first`. */
  lemma Wrap(first: nat, start: nat, i: nat, n: nat)
    requires n > 0 && start == Slot(first, n)
    ensures (start + i) % n == Slot(first + i, n)
  {
    var r := (start + i) % n;
    assert first + i == n * (first / n) + start + i;
    assert start + i == n * ((start + i) / n) + r;
    assert first + i == n * (first / n + (start + i) / n) + r;
    DivUnique(first + i, n, first / n + (start + i) / n, r);
  }

  function Head(s: State, id: nat): Option<Line> {
    if id in s.subs && s.subs[id] != [] then Some(s.subs[id][0]) else None
  }

  function Taken(s: State, id: nat): State {
    if Head(s, id).None? then s else s.(subs := s.subs[id := s.subs[id][1..]])
  }

  // ---------- runs: the hand-over from backlog to live stream ----------

  datatype Step = Publish(line: Line) | Subscribe | Unsubscribe(id: nat) | Take(id: nat)

  function Next(s: State, step: Step): State {
    match step
    case Publish(line) => Published(s, line)
    case Subscribe => Subscribed(s)
    case Unsubscribe(id) => s.(subs := s.subs - {id})
    case Take(id) => Taken(s, id)
  }

  function Run(trace: seq<Step>): State {
    if trace == [] then State([], map[], 0) else Next(Run(trace[..|trace| - 1]), trace[|trace| - 1])
  }

  function Pending(trace: seq<Step>, id: nat): seq<Line> {
    if id in Run(trace).subs then Run(trace).subs[id] else []
  }

  /** What handleSubscriber has written to subscriber `id`: its backlog when it
      joined, then whatever it took from its channel. */
  function Written(ringSize: nat, trace: seq<Step>, id: nat): seq<Line> {
    if trace == [] then []
    else
      var before, step := trace[..|trace| - 1], trace[|trace| - 1];
      if step.Subscribe? && Run(before).nextID == id then Last(Run(before).history, ringSize)
      else if step == Take(id) && Pending(before, id) != [] then Written(ringSize, before, id) + [Pending(before, id)[0]]
      else Written(ringSize, before, id)
  }

  /** How many events had been published when subscriber `id` joined. */
  function Joined(trace: seq<Step>, id: nat): nat {
    if trace == [] then 0
    else
      var before, step := trace[..|trace| - 1], trace[|trace| - 1];
      if step.Subscribe? && Run(before).nextID == id then |Run(before).history| else Joined(before, id)
  }

  /** The number of the first event subscriber `id` is sent. */
  function FirstSent(ringSize: nat, trace: seq<Step>, id: nat): nat {
    if Joined(trace, id) < ringSize then 0 else Joined(trace, id) - ringSize
  }

  /** No event was published while the channel of `id` was full. */
  predicate NoDrop(trace: seq<Step>, id: nat) {
    if trace == [] then true
    else
      var before, step := trace[..|trace| - 1], trace[|trace| - 1];
      NoDrop(before, id) && !(step.Publish? && |Pending(before, id)| >= 256)
  }

  lemma {:induction false} IdsAreUsedOnce(trace: seq<Step>)
    ensures forall id :: id in Run(trace).subs ==> id < Run(trace).nextID
  {
    if trace != [] {
      IdsAreUsedOnce(trace[..|trace| - 1]);
    }
  }

  /** One step's effect on the channel of a subscriber that is there afterwards. */
  lemma PendingStep(trace: seq<Step>, id: nat)
    requires trace != [] && id in Run(trace).subs
    ensures var before, step := trace[..|trace| - 1], trace[|trace| - 1];
      var p := Pending(before, id);
      if step.Subscribe? && Run(before).nextID == id then Pending(trace, id) == []
      else
        && id in Run(before).subs
        && Pending(trace, id) ==
             if step.Publish? then Offer(p, step.line)
             else if step == Take(id) && p != [] then p[1..]
             else p
    ensures var before, step := trace[..|trace| - 1], trace[|trace| - 1];
      Run(trace).history == if step.Publish? then Run(before).history + [step.line] else Run(before).history
  {
    IdsAreUsedOnce(trace[..|trace| - 1]);
  }

  /** One step's effect on what was written and where the stream began. */
  lemma WrittenStep(ringSize: nat, trace: seq<Step>, id: nat)
    requires trace != [] && NoDrop(trace, id)
    ensures var before, step := trace[..|trace| - 1], trace[|trace| - 1];
      var joins := step.Subscribe? && Run(before).nextID == id;
      var p := Pending(before, id);
      && NoDrop(before, id)
      && (step.Publish? ==> |p| < CAPACITY)
      && Joined(trace, id) == (if joins then |Run(before).history| else Joined(before, id))
      && Written(ringSize, trace, id) ==
           if joins then Last(Run(before).history, ringSize)
           else if step == Take(id) && p != [] then Written(ringSize, before, id) + [p[0]]
           else Written(ringSize, before, id)
  {
    hide Run, Pending, Last;
  }

  lemma GluePublished(w: seq<Line>, p: seq<Line>, h: seq<Line>, start: nat, line: Line)
    requires start <= |h| && w + p == h[start..] && |p| < CAPACITY
    ensures w + Offer(p, line) == (h + [line])[start..]
  {
    assert w + (p + [line]) == (w + p) + [line];
    assert h[start..] + [line] == (h + [line])[start..];
  }

  lemma GlueTaken(w: seq<Line>, p: seq<Line>)
    requires p != []
    ensures (w + [p[0]]) + p[1..] == w + p
  {
  }

  lemma SubscribersNeedSteps(trace: seq<Step>, id: nat)
    requires id in Run(trace).subs
    ensures trace != []
  {
  }

  /** While subscriber `id` stays and its channel never fills, what it was sent and
      what is queued for it are together one contiguous suffix of the history: the
      last `ringSize` events before it joined, then every event since, each once. */
  lemma {:induction false} StreamHasNoGap(ringSize: nat, trace: seq<Step>, id: nat)
    requires ringSize > 0 && id in Run(trace).subs && NoDrop(trace, id)
    ensures FirstSent(ringSize, trace, id) <= Joined(trace, id) <= |Run(trace).history|
    ensures Written(ringSize, trace, id) + Pending(trace, id) == Run(trace).history[FirstSent(ringSize, trace, id)..]
  {
    SubscribersNeedSteps(trace, id);
    hide Run, Pending, Last, Written, Joined, NoDrop, Offer;
    var before, step := trace[..|trace| - 1], trace[|trace| - 1];
    var p, h := Pending(before, id), Run(before).history;
    PendingStep(trace, id);
    WrittenStep(ringSize, trace, id);
    if step.Subscribe? && Run(before).nextID == id {
      LastIsSuffix(h, ringSize);
    } else {
      StreamHasNoGap(ringSize, before, id);
      var start := FirstSent(ringSize, before, id);
      if step.Publish? {
        GluePublished(Written(ringSize, before, id), p, h, start, step.line);
      } else if step == Take(id) && p != [] {
        GlueTaken(Written(ringSize, before, id), p);
      }
    }
  }

  lemma LastIsSuffix(h: seq<Line>, n: nat)
    ensures Last(h, n) + [] == h[if |h| < n then 0 else |h| - n..]
  {
  }

  lemma SubsAfterPublish(trace: seq<Step>, line: Line, id: nat)
    requires id in Run(trace).subs
    ensures id in Run(trace + [Publish(line)]).subs
  {
    assert (trace + [Publish(line)])[..|trace|] == trace;
  }

  /** One publish keeps the suffix property exactly when the channel has room. */
  lemma DropMakesGap(ringSize: nat, trace: seq<Step>, line: Line, id: nat)
    requires ringSize > 0 && id in Run(trace).subs && NoDrop(trace, id)
    ensures var after := trace + [Publish(line)];
      var start := FirstSent(ringSize, trace, id);
      start <= |Run(after).history| &&
      (Written(ringSize, after, id) + Pending(after, id) == Run(after).history[start..] <==> NoDrop(after, id))
  {
    var after := trace + [Publish(line)];
    hide Run;
    assert after[..|after| - 1] == trace;
    SubsAfterPublish(trace, line, id);
    PendingStep(after, id);
    StreamHasNoGap(ringSize, trace, id);
    if NoDrop(after, id) {
      StreamHasNoGap(ringSize, after, id);
    }
  }

  /** Events published while the channel of `id` was full. */
  function Drops(trace: seq<Step>, id: nat): nat {
    if trace == [] then 0
    else
      var before, step := trace[..|trace| - 1], trace[|trace| - 1];
      Drops(before, id) + if step.Publish? && |Pending(before, id)| >= 256 then 1 else 0
  }

  lemma {:induction false} NoDropCounts(trace: seq<Step>, id: nat)
    ensures NoDrop(trace, id) <==> Drops(trace, id) == 0
  {
    hide Pending;
    if trace != [] {
      NoDropCounts(trace[..|trace| - 1], id);
    }
  }

  /** An id that was not given out yet has lost nothing. */
  lemma {:induction false} NoDropsBefore(trace: seq<Step>, id: nat)
    requires id >= Run(trace).nextID
    ensures Drops(trace, id) == 0
  {
    if trace != [] {
      var before := trace[..|trace| - 1];
      NoDropsBefore(before, id);
      IdsAreUsedOnce(before);
    }
  }

  /** The same as WrittenStep, in numbers and with drops. */
  lemma CountStep(ringSize: nat, trace: seq<Step>, id: nat)
    requires trace != []
    ensures var before, step := trace[..|trace| - 1], trace[|trace| - 1];
      var joins := step.Subscribe? && Run(before).nextID == id;
      var p := Pending(before, id);
      && Joined(trace, id) == (if joins then |Run(before).history| else Joined(before, id))
      && |Written(ringSize, trace, id)| ==
           (if joins then |Last(Run(before).history, ringSize)|
            else if step == Take(id) && p != [] then |Written(ringSize, before, id)| + 1
            else |Written(ringSize, before, id)|)
      && Drops(trace, id) == Drops(before, id) + (if step.Publish? && |p| >= CAPACITY then 1 else 0)
  {
    hide Run, Pending, Last;
  }

  /** Nothing is lost but what was dropped: sent, queued and dropped lines together are
      as many as the events since the first one the subscriber was sent. */
  lemma {:induction false} EveryEventIsAccountedFor(ringSize: nat, trace: seq<Step>, id: nat)
    requires ringSize > 0 && id in Run(trace).subs
    ensures FirstSent(ringSize, trace, id) <= Joined(trace, id) <= |Run(trace).history|
    ensures |Written(ringSize, trace, id)| + |Pending(trace, id)| + Drops(trace, id) ==
            |Run(trace).history| - FirstSent(ringSize, trace, id)
  {
    SubscribersNeedSteps(trace, id);
    hide Run, Pending, Last, Written, Joined, Drops;
    var before, step := trace[..|trace| - 1], trace[|trace| - 1];
    PendingStep(trace, id);
    CountStep(ringSize, trace, id);
    if step.Subscribe? && Run(before).nextID == id {
      LastIsSuffix(Run(before).history, ringSize);
      NoDropsBefore(before, id);
    } else {
      EveryEventIsAccountedFor(ringSize, before, id);
    }
  }

  /** For every run: what a subscriber was sent and what is queued for it are a
      contiguous suffix of the history if and only if no event ever met its channel
      full. After one drop the stream has a gap for good. */
  lemma SuffixIffNoDrop(ringSize: nat, trace: seq<Step>, id: nat)
    requires ringSize > 0 && id in Run(trace).subs
    ensures var start := FirstSent(ringSize, trace, id);
      start <= |Run(trace).history| &&
      (Written(ringSize, trace, id) + Pending(trace, id) == Run(trace).history[start..] <==> NoDrop(trace, id))
  {
    hide Run, Pending, Written, NoDrop, Drops, FirstSent;
    EveryEventIsAccountedFor(ringSize, trace, id);
    NoDropCounts(trace, id);
    if NoDrop(trace, id) {
      StreamHasNoGap(ringSize, trace, id);
    }
  }
}
