/** The placement request protocol (internal/compositor/bridge.go): placeSurface
    registers a waiter, sends a request, and waits for the plugin's response or for
    the tracked geometry to read back. */
module Placement {
  import opened Text
  import opened Decimal
  import opened Geometry
  import opened Arith

  type SurfaceID = string
  type RequestID = string

  datatype Response = Response(requestID: RequestID, ok: bool)

  /** Waiting in the select loop; returning, its waiter still registered; returned. */
  datatype Phase = Waiting | Returning(ok: bool) | Returned(ok: bool)

  datatype Request = Request(id: RequestID, surfaceID: SurfaceID, target: Rect, readback: bool,
                             channel: seq<Response>, acked: bool, phase: Phase)

  /** `pending` are responses whose waiter was looked up but which were not yet put in
      its channel: the lookup and the send are separate steps. */
  datatype State = State(
    placeSeq: nat,
    requests: map<nat, Request>,
    waiters: map<RequestID, nat>,
    pending: seq<(nat, Response)>,
    geometry: map<SurfaceID, Rect>)

  const START := State(0, map[], map[], [], map[])

  const CAPACITY := 1

  // ---------- read-back tolerance ----------

  predicate Within(current: Rect, target: Rect) {
    && Abs(current.x - target.x) <= 2 && Abs(current.y - target.y) <= 2
    && Abs(current.w - target.w) <= 8 && Abs(current.h - target.h) <= 16
  }

  predicate GeometryMatches(geometry: map<SurfaceID, Rect>, x: SurfaceID, target: Rect) {
    x in geometry && Within(geometry[x], target)
  }

  // ---------- request ids ----------

  /** "place-<nanoseconds>-<sequence number>" */
  function IdOf(nano: nat, n: nat): RequestID {
    Join(["place", Dec(nano), Dec(n)], "-")
  }

  /** The sequence number alone keeps ids apart, whatever the clock does. */
  lemma IdsDiffer(nano: nat, n: nat, nano': nat, n': nat)
    requires n != n'
    ensures IdOf(nano, n) != IdOf(nano', n')
  {
    hide Dec, Split, Join;
    if IdOf(nano, n) == IdOf(nano', n') {
      var a, b := ["place", Dec(nano), Dec(n)], ["place", Dec(nano'), Dec(n')];
      DecFree(nano, '-');
      DecFree(nano', '-');
      DecFree(n, '-');
      DecFree(n', '-');
      SplitJoin(a, '-');
      SplitJoin(b, '-');
      assert a[2] == b[2];
      DecInjective(n, n');
    }
  }

  // ---------- the critical sections, on values ----------

  function Begun(s: State, nano: nat, x: SurfaceID, target: Rect, readback: bool): State {
    var r := s.placeSeq + 1;
    var id := IdOf(nano, r);
    s.(placeSeq := r,
       requests := s.requests[r := Request(id, x, target, readback, [], false, Waiting)],
       waiters := s.waiters[id := r])
  }

  function LookedUp(s: State, resp: Response): State {
    if resp.requestID in s.waiters then s.(pending := s.pending + [(s.waiters[resp.requestID], resp)]) else s
  }

  function Offered(s: State, k: nat): State {
    if k >= |s.pending| then s
    else
      var (r, resp) := s.pending[k];
      var s1 := s.(pending := s.pending[..k] + s.pending[k + 1..]);
      if r in s.requests && |s.requests[r].channel| < CAPACITY
      then s1.(requests := s.requests[r := s.requests[r].(channel := s.requests[r].channel + [resp])])
      else s1
  }

  predicate Active(s: State, r: nat) {
    r in s.requests && s.requests[r].phase == Waiting
  }

  function SetPhase(s: State, r: nat, ok: bool): State
    requires r in s.requests
  {
    s.(requests := s.requests[r := s.requests[r].(phase := Returning(ok))])
  }

  /** The select picks the channel. */
  function Received(s: State, r: nat): State {
    if !Active(s, r) || s.requests[r].channel == [] then s
    else
      var q := s.requests[r];
      var s1 := s.(requests := s.requests[r := q.(channel := q.channel[1..], acked := q.acked || q.channel[0].ok)]);
      if !q.channel[0].ok then SetPhase(s1, r, false)
      else if !q.readback || GeometryMatches(s.geometry, q.surfaceID, q.target) then SetPhase(s1, r, true)
      else s1
  }

  function Ticked(s: State, r: nat): State {
    if Active(s, r) && GeometryMatches(s.geometry, s.requests[r].surfaceID, s.requests[r].target)
    then SetPhase(s, r, true) else s
  }

  /** The deadline, or an error on the initial send. */
  function GaveUp(s: State, r: nat): State {
    if Active(s, r) then SetPhase(s, r, false) else s
  }

  /** The deferred cleanup deletes the waiter. */
  function CleanedUp(s: State, r: nat): State {
    if r in s.requests && s.requests[r].phase.Returning? then
      s.(waiters := s.waiters - {s.requests[r].id},
         requests := s.requests[r := s.requests[r].(phase := Returned(s.requests[r].phase.ok))])
    else s
  }

  // ---------- the bridge's part ----------

  class PlaceTable {
    var placeSeq: nat
    var requests: map<nat, Request>
    var placeWaiters: map<RequestID, nat>
    var pending: seq<(nat, Response)>
    var geometry: map<SurfaceID, Rect>

    ghost function View(): State
      reads this
    {
      State(placeSeq, requests, placeWaiters, pending, geometry)
    }

    constructor ()
      ensures View() == START
    {
      placeSeq, requests, placeWaiters, pending, geometry := 0, map[], map[], [], map[];
    }

    method Begin(nano: nat, x: SurfaceID, target: Rect, readback: bool) returns (r: nat)
      modifies this
      ensures View() == Begun(old(View()), nano, x, target, readback) && r == placeSeq
    {
      placeSeq := placeSeq + 1;
      var id := IdOf(nano, placeSeq);
      requests := requests[placeSeq := Request(id, x, target, readback, [], false, Waiting)];
      placeWaiters := placeWaiters[id := placeSeq];
      r := placeSeq;
    }

    /** handlePlaceResponse, up to the unlock. */
    method LookupWaiter(resp: Response)
      modifies this`pending
      ensures View() == LookedUp(old(View()), resp)
    {
      if resp.requestID in placeWaiters {
        pending := pending + [(placeWaiters[resp.requestID], resp)];
      }
    }

    /** handlePlaceResponse, the non-blocking send on the channel it found. */
    method OfferResponse(k: nat)
      modifies this
      ensures View() == Offered(old(View()), k)
    {
      if k < |pending| {
        var (r, resp) := pending[k];
        pending := pending[..k] + pending[k + 1..];
        if r in requests && |requests[r].channel| < CAPACITY {
          requests := requests[r := requests[r].(channel := requests[r].channel + [resp])];
        }
      }
    }

    /** The select of request `r` picks its channel. */
    method Receive(r: nat)
      modifies this`requests
      ensures View() == Received(old(View()), r)
    {
      hide GeometryMatches;
      if r !in requests || requests[r].phase != Waiting || requests[r].channel == [] {
        return;
      }
      var q := requests[r];
      var resp := q.channel[0];
      q := q.(channel := q.channel[1..]);
      if !resp.ok {
        q := q.(phase := Returning(false));
      } else {
        q := q.(acked := true);
        if !q.readback || GeometryMatches(geometry, q.surfaceID, q.target) {
          q := q.(phase := Returning(true));
        }
      }
      requests := requests[r := q];
    }

    /** It picks the ticker. */
    method Tick(r: nat)
      modifies this`requests
      ensures View() == Ticked(old(View()), r)
    {
      if r in requests && requests[r].phase == Waiting && GeometryMatches(geometry, requests[r].surfaceID, requests[r].target) {
        requests := requests[r := requests[r].(phase := Returning(true))];
      }
    }

    /** It picks the deadline, or the request was never sent. */
    method GiveUp(r: nat)
      modifies this`requests
      ensures View() == GaveUp(old(View()), r)
    {
      if r in requests && requests[r].phase == Waiting {
        requests := requests[r := requests[r].(phase := Returning(false))];
      }
    }

    method Cleanup(r: nat)
      modifies this
      ensures View() == CleanedUp(old(View()), r)
    {
      if r in requests && requests[r].phase.Returning? {
        placeWaiters := placeWaiters - {requests[r].id};
        requests := requests[r := requests[r].(phase := Returned(requests[r].phase.ok))];
      }
    }
  }

  /** What the select of placeSurface wakes up on, with the geometry tracked then. */
  datatype Wake = ResponseArrived(ok: bool, geometry: map<SurfaceID, Rect>) | Ticking(geometry: map<SurfaceID, Rect>) | Deadline

  datatype Outcome = Success | Rejected | ReadbackTimeout | PlaceTimeout | StillWaiting

  predicate Succeeds(w: Wake, x: SurfaceID, target: Rect, readback: bool) {
    match w
    case ResponseArrived(ok, g) => ok && (!readback || GeometryMatches(g, x, target))
    case Ticking(g) => GeometryMatches(g, x, target)
    case Deadline => false
  }

  predicate Fails(w: Wake) {
    w.Deadline? || (w.ResponseArrived? && !w.ok)
  }

  /** The waiting loop of placeSurface on one sequence of wake-ups: the first that
      decides gives the outcome; a deadline is a read-back timeout exactly when an
      acceptance had been received. */
  method AwaitPlacement(x: SurfaceID, target: Rect, readback: bool, wakes: seq<Wake>) returns (outcome: Outcome, k: nat)
    ensures k <= |wakes| && (outcome == StillWaiting <==> k == |wakes|)
    ensures forall i :: 0 <= i < k ==> !Succeeds(wakes[i], x, target, readback) && !Fails(wakes[i])
    ensures k < |wakes| ==> (outcome == Success <==> Succeeds(wakes[k], x, target, readback))
    ensures outcome == Success && readback ==> !wakes[k].Deadline? && GeometryMatches(wakes[k].geometry, x, target)
    ensures outcome == Rejected <==> k < |wakes| && wakes[k].ResponseArrived? && !wakes[k].ok
    ensures outcome == ReadbackTimeout <==> k < |wakes| && wakes[k].Deadline? && exists i :: 0 <= i < k && wakes[i].ResponseArrived?
    ensures outcome == PlaceTimeout <==> k < |wakes| && wakes[k].Deadline? && forall i :: 0 <= i < k ==> !wakes[i].ResponseArrived?
  {
    k := 0;
    var acked := false;
    while k < |wakes|
      invariant k <= |wakes|
      invariant forall i :: 0 <= i < k ==> !Succeeds(wakes[i], x, target, readback) && !Fails(wakes[i])
      invariant acked <==> exists i :: 0 <= i < k && wakes[i].ResponseArrived?
    {
      match wakes[k] {
        case ResponseArrived(ok, g) =>
          if !ok {
            return Rejected, k;
          }
          if !readback || GeometryMatches(g, x, target) {
            return Success, k;
          }
          acked := true;
        case Ticking(g) =>
          if GeometryMatches(g, x, target) {
            return Success, k;
          }
        case Deadline =>
          return if acked then ReadbackTimeout else PlaceTimeout, k;
      }
      k := k + 1;
    }
    outcome := StillWaiting;
  }

  // ---------- runs ----------

  datatype Step =
    | Begin(nano: nat, surfaceID: SurfaceID, target: Rect, readback: bool)
    | PluginResponds(resp: Response)
    | Deliver(k: nat)
    | Receive(r: nat)
    | TickStep(r: nat)
    | GiveUp(r: nat)
    | Cleanup(r: nat)
    | GeometryChanges(geometry: map<SurfaceID, Rect>)

  function Next(s: State, step: Step): State {
    match step
    case Begin(nano, x, target, readback) => Begun(s, nano, x, target, readback)
    case PluginResponds(resp) => LookedUp(s, resp)
    case Deliver(k) => Offered(s, k)
    case Receive(r) => Received(s, r)
    case TickStep(r) => Ticked(s, r)
    case GiveUp(r) => GaveUp(s, r)
    case Cleanup(r) => CleanedUp(s, r)
    case GeometryChanges(geometry) => s.(geometry := geometry)
  }

  function Run(trace: seq<Step>): State {
    if trace == [] then START else Next(Run(trace[..|trace| - 1]), trace[|trace| - 1])
  }

  ghost predicate Numbered(s: State, r: nat) {
    r in s.requests ==> 1 <= r <= s.placeSeq && exists nano: nat :: s.requests[r].id == IdOf(nano, r)
  }

  ghost predicate Waits(s: State, r: nat) {
    r in s.requests && !s.requests[r].phase.Returned?
  }

  /** Waiters and running requests are the same things; what is buffered or on its way
      to a request carries that request's id; a channel holds one response at most. */
  ghost predicate Orderly(s: State) {
    && (forall r :: r in s.requests ==> Numbered(s, r))
    && (forall id :: id in s.waiters ==> Waits(s, s.waiters[id]) && s.requests[s.waiters[id]].id == id)
    && (forall r :: Waits(s, r) ==> s.requests[r].id in s.waiters && s.waiters[s.requests[r].id] == r)
    && (forall k :: 0 <= k < |s.pending| ==> s.pending[k].0 in s.requests && s.pending[k].1.requestID == s.requests[s.pending[k].0].id)
    && (forall r :: r in s.requests ==> |s.requests[r].channel| <= CAPACITY)
    && (forall r, m :: r in s.requests && m in s.requests[r].channel ==> m.requestID == s.requests[r].id)
  }

  lemma FreshId(s: State, nano: nat)
    requires Orderly(s)
    ensures IdOf(nano, s.placeSeq + 1) !in s.waiters
    ensures forall r :: r in s.requests ==> s.requests[r].id != IdOf(nano, s.placeSeq + 1)
  {
    hide IdOf;
    forall r | r in s.requests
      ensures s.requests[r].id != IdOf(nano, s.placeSeq + 1)
    {
      assert Numbered(s, r);
      var t: nat :| s.requests[r].id == IdOf(t, r);
      IdsDiffer(t, r, nano, s.placeSeq + 1);
    }
  }

  lemma BegunOrderly(s: State, nano: nat, x: SurfaceID, target: Rect, readback: bool)
    requires Orderly(s)
    ensures Orderly(Begun(s, nano, x, target, readback))
  {
    hide IdOf, Within;
    FreshId(s, nano);
    var t := Begun(s, nano, x, target, readback);
    assert forall r :: Waits(t, r) <==> Waits(s, r) || r == t.placeSeq by {
      assert t.placeSeq in s.requests ==> Numbered(s, t.placeSeq);
    }
    forall r | r in t.requests
      ensures Numbered(t, r)
    {
      if r == t.placeSeq {
        assert t.requests[r].id == IdOf(nano, r);
      } else {
        assert Numbered(s, r);
      }
    }
  }

  /** Replacing a request by one with the same id, still waiting, keeps order. */
  lemma EditOrderly(s: State, r: nat, q: Request)
    requires Orderly(s) && r in s.requests && q.id == s.requests[r].id
    requires q.phase.Returned? == s.requests[r].phase.Returned?
    requires |q.channel| <= CAPACITY && forall m :: m in q.channel ==> m.requestID == q.id
    ensures Orderly(s.(requests := s.requests[r := q]))
  {
    hide IdOf;
    var t := s.(requests := s.requests[r := q]);
    forall p | p in t.requests
      ensures Numbered(t, p)
    {
      assert Numbered(s, p);
    }
    assert forall p :: Waits(t, p) <==> Waits(s, p);
  }

  lemma CleanedUpOrderly(s: State, r: nat)
    requires Orderly(s)
    ensures Orderly(CleanedUp(s, r))
  {
    hide IdOf;
    var t := CleanedUp(s, r);
    forall p | p in t.requests
      ensures Numbered(t, p)
    {
      assert Numbered(s, p);
    }
    if r in s.requests && s.requests[r].phase.Returning? {
      assert Waits(s, r);
      forall p | Waits(t, p)
        ensures t.requests[p].id in t.waiters && t.waiters[t.requests[p].id] == p
      {
        assert Waits(s, p);
      }
    }
  }

  lemma OfferedOrderly(s: State, k: nat)
    requires Orderly(s)
    ensures Orderly(Offered(s, k))
  {
    hide IdOf;
    if k < |s.pending| {
      var (r, resp) := s.pending[k];
      var s1 := s.(pending := s.pending[..k] + s.pending[k + 1..]);
      assert Orderly(s1) by {
        assert forall p :: Numbered(s1, p) <==> Numbered(s, p);
        assert forall p :: Waits(s1, p) <==> Waits(s, p);
      }
      if |s.requests[r].channel| < CAPACITY {
        EditOrderly(s1, r, s.requests[r].(channel := s.requests[r].channel + [resp]));
      }
    }
  }

  lemma ReceivedOrderly(s: State, r: nat)
    requires Orderly(s)
    ensures Orderly(Received(s, r))
  {
    hide IdOf, GeometryMatches, Orderly;
    if Active(s, r) && s.requests[r].channel != [] {
      var q := s.requests[r];
      var q1 := q.(channel := q.channel[1..], acked := q.acked || q.channel[0].ok);
      assert |q1.channel| <= CAPACITY && forall m :: m in q1.channel ==> m.requestID == q1.id by { ChannelOf(s, r); }
      EditOrderly(s, r, q1);
      var s1 := s.(requests := s.requests[r := q1]);
      EditOrderly(s1, r, q1.(phase := Returning(true)));
      EditOrderly(s1, r, q1.(phase := Returning(false)));
    }
  }

  lemma ChannelOf(s: State, r: nat)
    requires Orderly(s) && r in s.requests
    ensures |s.requests[r].channel| <= CAPACITY && forall m :: m in s.requests[r].channel ==> m.requestID == s.requests[r].id
  {
  }

  lemma {:induction false} RunOrderly(trace: seq<Step>)
    ensures Orderly(Run(trace))
  {
    hide IdOf, GeometryMatches, Begun, Received, Offered, CleanedUp;
    if trace != [] {
      var s, step := Run(trace[..|trace| - 1]), trace[|trace| - 1];
      RunOrderly(trace[..|trace| - 1]);
      match step {
        case Begin(nano, x, target, readback) => BegunOrderly(s, nano, x, target, readback);
        case PluginResponds(resp) => LookedUpOrderly(s, resp);
        case Deliver(k) => OfferedOrderly(s, k);
        case Receive(r) => ReceivedOrderly(s, r);
        case TickStep(r) =>
          if Active(s, r) {
            EditOrderly(s, r, s.requests[r].(phase := Returning(true)));
          }
        case GiveUp(r) =>
          if Active(s, r) {
            EditOrderly(s, r, s.requests[r].(phase := Returning(false)));
          }
        case Cleanup(r) => CleanedUpOrderly(s, r);
        case GeometryChanges(g) => GeometryOrderly(s, g);
      }
    }
  }

  lemma LookedUpOrderly(s: State, resp: Response)
    requires Orderly(s)
    ensures Orderly(LookedUp(s, resp))
  {
    hide IdOf;
    var t := LookedUp(s, resp);
    assert forall p :: Numbered(t, p) <==> Numbered(s, p);
    assert forall p :: Waits(t, p) <==> Waits(s, p);
  }

  lemma GeometryOrderly(s: State, g: map<SurfaceID, Rect>)
    requires Orderly(s)
    ensures Orderly(s.(geometry := g))
  {
    hide IdOf;
    var t := s.(geometry := g);
    assert forall p :: Numbered(t, p) <==> Numbered(s, p);
    assert forall p :: Waits(t, p) <==> Waits(s, p);
  }

  /** In every run: two requests never share an id; a waiter is registered exactly as
      long as its request has not returned; at most one response is buffered for a
      request, and whatever is buffered or on its way carries that request's id. */
  lemma ProtocolSafety(trace: seq<Step>, r: nat)
    requires r in Run(trace).requests
    ensures var s := Run(trace);
      && (forall p :: p in s.requests && p != r ==> s.requests[p].id != s.requests[r].id)
      && (s.requests[r].id in s.waiters <==> !s.requests[r].phase.Returned?)
      && |s.requests[r].channel| <= 1
      && (forall m :: m in s.requests[r].channel ==> m.requestID == s.requests[r].id)
      && (forall k :: 0 <= k < |s.pending| && s.pending[k].0 == r ==> s.pending[k].1.requestID == s.requests[r].id)
  {
    hide Run, IdOf;
    RunOrderly(trace);
    var s := Run(trace);
    forall p | p in s.requests && p != r
      ensures s.requests[p].id != s.requests[r].id
    {
      assert Numbered(s, p) && Numbered(s, r);
      var a: nat :| s.requests[p].id == IdOf(a, p);
      var b: nat :| s.requests[r].id == IdOf(b, r);
      IdsDiffer(a, p, b, r);
    }
    if s.requests[r].id in s.waiters {
      var p := s.waiters[s.requests[r].id];
      assert Waits(s, p) && s.requests[p].id == s.requests[r].id;
    } else {
      assert !Waits(s, r);
    }
  }

  ghost predicate Succeeded(s: State, r: nat) {
    r in s.requests && !s.requests[r].phase.Waiting? && s.requests[r].phase.ok
  }

  /** Only a response or a tick can complete a request successfully. */
  lemma SuccessCause(s: State, step: Step, r: nat)
    requires !Succeeded(s, r) && Succeeded(Next(s, step), r)
    ensures step == Receive(r) || step == TickStep(r)
  {
    hide IdOf, GeometryMatches;
  }

  lemma ReceivedSuccess(s: State, r: nat)
    requires !Succeeded(s, r) && Succeeded(Received(s, r), r) && Received(s, r).requests[r].readback
    ensures r in s.requests && s.requests[r].surfaceID == Received(s, r).requests[r].surfaceID
    ensures s.requests[r].target == Received(s, r).requests[r].target
    ensures GeometryMatches(s.geometry, s.requests[r].surfaceID, s.requests[r].target)
  {
    hide IdOf, GeometryMatches;
  }

  lemma TickedSuccess(s: State, r: nat)
    requires !Succeeded(s, r) && Succeeded(Ticked(s, r), r)
    ensures r in s.requests && s.requests[r].surfaceID == Ticked(s, r).requests[r].surfaceID
    ensures s.requests[r].target == Ticked(s, r).requests[r].target
    ensures GeometryMatches(s.geometry, s.requests[r].surfaceID, s.requests[r].target)
  {
    hide IdOf, GeometryMatches;
  }

  /** One step completes a request that reads back only in a state that matches. */
  lemma SuccessStep(s: State, step: Step, r: nat)
    requires !Succeeded(s, r) && Succeeded(Next(s, step), r) && Next(s, step).requests[r].readback
    ensures r in s.requests && s.requests[r].surfaceID == Next(s, step).requests[r].surfaceID
    ensures s.requests[r].target == Next(s, step).requests[r].target
    ensures GeometryMatches(s.geometry, s.requests[r].surfaceID, s.requests[r].target)
  {
    hide GeometryMatches, Received, Ticked, Begun, LookedUp, Offered, GaveUp, CleanedUp;
    SuccessCause(s, step, r);
    if step == Receive(r) {
      ReceivedSuccess(s, r);
    } else {
      TickedSuccess(s, r);
    }
  }

  lemma RequestsKeep(s: State, step: Step, r: nat)
    requires Orderly(s) && r in s.requests
    ensures r in Next(s, step).requests
    ensures var q, p := s.requests[r], Next(s, step).requests[r];
      q.surfaceID == p.surfaceID && q.target == p.target && q.readback == p.readback && q.id == p.id
  {
    hide IdOf, GeometryMatches;
    assert Numbered(s, r);
  }

  /** The surface's geometry is known and within tolerance of the target. */
  ghost predicate CloseTo(g: map<SurfaceID, Rect>, x: SurfaceID, target: Rect) {
    && x in g && -2 <= g[x].x - target.x <= 2 && -2 <= g[x].y - target.y <= 2
    && -8 <= g[x].w - target.w <= 8 && -16 <= g[x].h - target.h <= 16
  }

  lemma MatchesMeans(g: map<SurfaceID, Rect>, x: SurfaceID, target: Rect)
    ensures GeometryMatches(g, x, target) <==> CloseTo(g, x, target)
  {
  }

  /** Step k completes request r: it was still waiting, a response or a tick reached it
      while the tracked geometry was within tolerance, and it succeeded. */
  ghost predicate Completes(trace: seq<Step>, r: nat, k: nat, x: SurfaceID, target: Rect) {
    && k < |trace|
    && (trace[k] == Receive(r) || trace[k] == TickStep(r))
    && Active(Run(trace[..k]), r) && CloseTo(Run(trace[..k]).geometry, x, target)
    && Succeeded(Run(trace[..k + 1]), r)
  }

  lemma SuccessStays(s: State, step: Step, r: nat)
    requires Orderly(s) && Succeeded(s, r)
    ensures Succeeded(Next(s, step), r)
  {
    hide IdOf, GeometryMatches;
    assert Numbered(s, r);
  }

  /** Only a waiting request can become a successful one. */
  lemma WasActive(s: State, step: Step, r: nat)
    requires !Succeeded(s, r) && Succeeded(Next(s, step), r)
    ensures Active(s, r)
  {
    hide GeometryMatches;
    SuccessCause(s, step, r);
  }

  lemma CompletesLonger(trace: seq<Step>, step: Step, r: nat, k: nat, x: SurfaceID, target: Rect)
    requires Completes(trace, r, k, x, target)
    ensures Completes(trace + [step], r, k, x, target)
  {
    hide Run, Active, Succeeded, GeometryMatches;
    assert (trace + [step])[..k] == trace[..k] && (trace + [step])[..k + 1] == trace[..k + 1];
  }

  lemma {:induction false} SuccessLasts(trace: seq<Step>, r: nat, k: nat)
    requires k <= |trace| && Succeeded(Run(trace[..k]), r)
    ensures Succeeded(Run(trace), r)
  {
    hide Run, Succeeded;
    if k == |trace| {
      assert trace[..k] == trace;
    } else {
      var before := trace[..|trace| - 1];
      assert before[..k] == trace[..k];
      SuccessLasts(before, r, k);
      RunOrderly(before);
      RunLast(trace);
      SuccessStays(Run(before), trace[|trace| - 1], r);
    }
  }

  lemma CompletedSucceeds(trace: seq<Step>, r: nat, k: nat, x: SurfaceID, target: Rect)
    requires Completes(trace, r, k, x, target)
    ensures Succeeded(Run(trace), r)
  {
    hide Run, Succeeded, GeometryMatches, Active;
    SuccessLasts(trace, r, k + 1);
  }

  lemma {:induction false} CompletingStep(trace: seq<Step>, r: nat) returns (k: nat)
    requires Succeeded(Run(trace), r) && Run(trace).requests[r].readback
    ensures Completes(trace, r, k, Run(trace).requests[r].surfaceID, Run(trace).requests[r].target)
  {
    NeedsSteps(trace, r);
    hide Run, GeometryMatches, IdOf, Orderly, Completes;
    var before, step := trace[..|trace| - 1], trace[|trace| - 1];
    assert before + [step] == trace;
    RunOrderly(before);
    RunLast(trace);
    if Succeeded(Run(before), r) {
      RequestsKeep(Run(before), step, r);
      k := CompletingStep(before, r);
      CompletesLonger(before, step, r, k, Run(trace).requests[r].surfaceID, Run(trace).requests[r].target);
    } else {
      k := |before|;
      LastCompletes(before, step, r);
    }
  }

  lemma LastCompletes(before: seq<Step>, step: Step, r: nat)
    requires !Succeeded(Run(before), r) && Succeeded(Run(before + [step]), r) && Run(before + [step]).requests[r].readback
    ensures Completes(before + [step], r, |before|, Run(before + [step]).requests[r].surfaceID, Run(before + [step]).requests[r].target)
  {
    var trace := before + [step];
    RunLast(trace);
    hide Run, GeometryMatches, IdOf, Next, Succeeded, Active;
    assert trace[..|before|] == before && trace[..|before| + 1] == trace;
    hide CloseTo;
    var s := Run(before);
    MatchesMeans(s.geometry, Run(trace).requests[r].surfaceID, Run(trace).requests[r].target);
    SuccessCause(s, step, r);
    SuccessStep(s, step, r);
    WasActive(s, step, r);
  }

  /** A placement with read-back reports success if and only if some step of the run
      completed it: at that step it was waiting, and the tracked geometry was within 2, 2,
      8 and 16 pixels of its target. */
  lemma SuccessMeansPlaced(trace: seq<Step>, r: nat)
    requires r in Run(trace).requests && Run(trace).requests[r].readback
    ensures Succeeded(Run(trace), r) <==>
      exists k :: Completes(trace, r, k, Run(trace).requests[r].surfaceID, Run(trace).requests[r].target)
  {
    hide Run, GeometryMatches, Succeeded, Completes;
    var q := Run(trace).requests[r];
    if Succeeded(Run(trace), r) {
      var k := CompletingStep(trace, r);
    }
    if exists k :: Completes(trace, r, k, q.surfaceID, q.target) {
      var k :| Completes(trace, r, k, q.surfaceID, q.target);
      CompletedSucceeds(trace, r, k, q.surfaceID, q.target);
    }
  }

  // ---------- the waiting loop as a schedule of the protocol ----------

  /** One wake-up, as protocol steps: the geometry of that moment, then the response
      looked up, delivered and received, or the tick, or the deadline. */
  function Woken(s: State, r: nat, w: Wake): State
    requires r in s.requests
  {
    match w
    case ResponseArrived(ok, g) =>
      var found := Next(Next(s, GeometryChanges(g)), PluginResponds(Response(s.requests[r].id, ok)));
      Next(Next(found, Deliver(|s.pending|)), Receive(r))
    case Ticking(g) => Next(Next(s, GeometryChanges(g)), TickStep(r))
    case Deadline => Next(s, GiveUp(r))
  }

  /** Request r waits for the same placement, with nothing buffered. */
  ghost predicate WaitsFor(s: State, r: nat, x: SurfaceID, target: Rect, readback: bool) {
    && Orderly(s) && Active(s, r) && s.requests[r].channel == []
    && s.requests[r].surfaceID == x && s.requests[r].target == target && s.requests[r].readback == readback
  }

  lemma DeliveredAlone(s: State, r: nat, ok: bool)
    requires Orderly(s) && Active(s, r) && s.requests[r].channel == []
    ensures var resp := Response(s.requests[r].id, ok);
      Offered(LookedUp(s, resp), |s.pending|) == s.(requests := s.requests[r := s.requests[r].(channel := [resp])])
  {
    assert Waits(s, r);
    var resp := Response(s.requests[r].id, ok);
    var t := LookedUp(s, resp);
    assert t.pending[..|s.pending|] + t.pending[|s.pending| + 1..] == s.pending;
    assert s.requests[r].channel + [resp] == [resp];
  }

  /** One wake-up decides as the loop decides, and otherwise leaves the request waiting,
      with an acceptance remembered. */
  lemma WakeDecides(s: State, r: nat, x: SurfaceID, target: Rect, readback: bool, w: Wake)
    requires WaitsFor(s, r, x, target, readback)
    ensures var t := Woken(s, r, w);
      && r in t.requests
      && (Succeeds(w, x, target, readback) ==> t.requests[r].phase == Returning(true))
      && (Fails(w) ==> t.requests[r].phase == Returning(false))
      && (!Succeeds(w, x, target, readback) && !Fails(w) ==>
           WaitsFor(t, r, x, target, readback) && t.requests[r].acked == (s.requests[r].acked || w.ResponseArrived?))
  {
    hide GeometryMatches, IdOf, Orderly, Offered, LookedUp;
    match w {
      case ResponseArrived(ok, g) =>
        var s1 := s.(geometry := g);
        GeometryOrderly(s, g);
        DeliveredAlone(s1, r, ok);
        LookedUpOrderly(s1, Response(s.requests[r].id, ok));
        OfferedOrderly(LookedUp(s1, Response(s.requests[r].id, ok)), |s.pending|);
        ReceivedOrderly(Offered(LookedUp(s1, Response(s.requests[r].id, ok)), |s.pending|), r);
      case Ticking(g) => GeometryOrderly(s, g);
      case Deadline =>
    }
  }

  function AllWoken(s: State, r: nat, wakes: seq<Wake>): State {
    if wakes == [] then s
    else
      var t := AllWoken(s, r, wakes[..|wakes| - 1]);
      if r in t.requests then Woken(t, r, wakes[|wakes| - 1]) else t
  }

  /** The loop run on the protocol: from any state in which the request waits, wake-ups
      that decide nothing leave it waiting, and the first that decides gives the request
      the phase the loop's outcome says. */
  lemma {:induction false} AwaitFollowsProtocol(s: State, r: nat, x: SurfaceID, target: Rect, readback: bool, wakes: seq<Wake>, k: nat)
    requires WaitsFor(s, r, x, target, readback) && k <= |wakes|
    requires forall i :: 0 <= i < k ==> !Succeeds(wakes[i], x, target, readback) && !Fails(wakes[i])
    ensures var t := AllWoken(s, r, wakes[..k]);
      WaitsFor(t, r, x, target, readback) &&
      (t.requests[r].acked <==> s.requests[r].acked || exists i :: 0 <= i < k && wakes[i].ResponseArrived?)
    ensures k < |wakes| && (Succeeds(wakes[k], x, target, readback) || Fails(wakes[k])) ==>
      var t := AllWoken(s, r, wakes[..k + 1]);
      r in t.requests && t.requests[r].phase == Returning(Succeeds(wakes[k], x, target, readback))
    decreases k
  {
    hide Woken, Succeeds, Fails, Orderly;
    if k > 0 {
      AwaitFollowsProtocol(s, r, x, target, readback, wakes, k - 1);
      assert wakes[..k][..k - 1] == wakes[..k - 1];
      WakeDecides(AllWoken(s, r, wakes[..k - 1]), r, x, target, readback, wakes[k - 1]);
    }
    if k < |wakes| {
      assert wakes[..k + 1][..k] == wakes[..k];
      WakeDecides(AllWoken(s, r, wakes[..k]), r, x, target, readback, wakes[k]);
      NotBoth(wakes[k], x, target, readback);
    }
  }

  lemma NotBoth(w: Wake, x: SurfaceID, target: Rect, readback: bool)
    ensures !(Succeeds(w, x, target, readback) && Fails(w))
  {
  }

  lemma RunLast(trace: seq<Step>)
    requires trace != []
    ensures Run(trace) == Next(Run(trace[..|trace| - 1]), trace[|trace| - 1])
  {
  }

  lemma NeedsSteps(trace: seq<Step>, r: nat)
    requires r in Run(trace).requests
    ensures trace != []
  {
  }
}
