/** The placement protocol's rules in plain terms (internal/compositor/bridge.go). */
module PlacementLaws {
  import opened Text
  import opened Decimal
  import opened Geometry
  import opened Placement

  /** Read back within 2 pixels in position, 8 in width and 16 in height. */
  lemma GeometryMeans(geometry: map<SurfaceID, Rect>, x: SurfaceID, target: Rect)
    ensures GeometryMatches(geometry, x, target) <==>
      && x in geometry
      && -2 <= geometry[x].x - target.x <= 2 && -2 <= geometry[x].y - target.y <= 2
      && -8 <= geometry[x].w - target.w <= 8 && -16 <= geometry[x].h - target.h <= 16
  {
  }

  /** The id of the n-th request. */
  lemma IdReads(nano: nat, n: nat)
    ensures IdOf(nano, n) == "place-" + Dec(nano) + "-" + Dec(n)
  {
    hide Dec;
    var parts := ["place", Dec(nano), Dec(n)];
    assert parts[1..] == [Dec(nano), Dec(n)] && parts[1..][1..] == [Dec(n)];
    assert Join(parts[1..], "-") == Dec(nano) + "-" + Dec(n);
    assert Join(parts, "-") == "place" + "-" + (Dec(nano) + "-" + Dec(n));
    assert "place" + "-" == "place-";
  }

  /** A response that reaches a waiting request ends it in failure when it is a refusal, and
      in success when it is an acceptance and either no read-back is wanted or the
      geometry matches; otherwise the request waits on, the acceptance remembered. */
  lemma ResponseDecides(s: State, r: nat)
    requires r in s.requests && s.requests[r].phase == Waiting && s.requests[r].channel != []
    ensures var q, p := s.requests[r], Received(s, r).requests[r];
      && p.channel == q.channel[1..]
      && p.phase == (if !q.channel[0].ok then Returning(false)
                     else if !q.readback || GeometryMatches(s.geometry, q.surfaceID, q.target) then Returning(true)
                     else Waiting)
      && p.acked == (q.acked || q.channel[0].ok)
      && Received(s, r).waiters == s.waiters && Received(s, r).geometry == s.geometry
      && (forall o :: o in s.requests && o != r ==> o in Received(s, r).requests && Received(s, r).requests[o] == s.requests[o])
  {
    hide GeometryMatches;
  }

  /** A tick ends a waiting request in success exactly when the geometry matches; giving up
      ends it in failure; neither touches any other request. */
  lemma TickAndGiveUp(s: State, r: nat)
    requires r in s.requests && s.requests[r].phase == Waiting
    ensures Ticked(s, r) == if GeometryMatches(s.geometry, s.requests[r].surfaceID, s.requests[r].target)
                            then s.(requests := s.requests[r := s.requests[r].(phase := Returning(true))]) else s
    ensures GaveUp(s, r) == s.(requests := s.requests[r := s.requests[r].(phase := Returning(false))])
  {
    hide GeometryMatches;
  }

  /** What the waiting loop goes by: an acceptance that needs no read-back or matches, or a
      tick that matches, succeeds; a refusal or the deadline fails. */
  lemma WakeMeans(w: Wake, x: SurfaceID, target: Rect, readback: bool)
    ensures Succeeds(w, x, target, readback) <==>
      || (w.ResponseArrived? && w.ok && (!readback || GeometryMatches(w.geometry, x, target)))
      || (w.Ticking? && GeometryMatches(w.geometry, x, target))
    ensures Fails(w) <==> w.Deadline? || (w.ResponseArrived? && !w.ok)
  {
    hide GeometryMatches;
  }

  /** A request that wants no read-back succeeds as soon as an acceptance reaches it, and
      only an acceptance or a matching tick makes it succeed. */
  lemma SuccessWithoutReadback(s: State, step: Step, r: nat)
    requires r in s.requests && s.requests[r].phase == Waiting && !s.requests[r].readback
    ensures Succeeded(Next(s, Receive(r)), r) <==> s.requests[r].channel != [] && s.requests[r].channel[0].ok
    ensures Succeeded(Next(s, step), r) ==>
      || (step == Receive(r) && s.requests[r].channel != [] && s.requests[r].channel[0].ok)
      || (step == TickStep(r) && GeometryMatches(s.geometry, s.requests[r].surfaceID, s.requests[r].target))
  {
    hide GeometryMatches, IdOf;
    if Succeeded(Next(s, step), r) {
      SuccessCause(s, step, r);
    }
  }

  /** A new request carries what was asked for, waits with an empty channel under the next
      number, and is the only thing that changes. */
  lemma BeginMeans(s: State, nano: nat, x: SurfaceID, target: Rect, readback: bool)
    ensures var t, r := Begun(s, nano, x, target, readback), s.placeSeq + 1;
      && t.placeSeq == r && r in t.requests
      && var q := t.requests[r];
        && q.surfaceID == x && q.target == target && q.readback == readback && q.channel == [] && !q.acked && q.phase == Waiting
        && q.id in t.waiters && t.waiters[q.id] == r
        && (forall m :: m != r ==> (m in t.requests <==> m in s.requests) && (m in s.requests ==> t.requests[m] == s.requests[m]))
        && t == s.(placeSeq := r, requests := t.requests, waiters := s.waiters[q.id := r])
  {
    hide IdOf;
  }

  /** A response goes to the request that waits under its id, if any; it is buffered when
      nothing is buffered there yet, and dropped otherwise. */
  lemma DeliveryMeans(s: State, resp: Response, k: nat)
    ensures var t := LookedUp(s, resp);
      && t == s.(pending := t.pending)
      && t.pending == if resp.requestID in s.waiters then s.pending + [(s.waiters[resp.requestID], resp)] else s.pending
    ensures k < |s.pending| && s.pending[k].0 in s.requests ==>
      var r, was, t := s.pending[k].0, s.requests[s.pending[k].0].channel, Offered(s, k);
      && t.pending == s.pending[..k] + s.pending[k + 1..] && r in t.requests
      && t.requests[r].channel == (if was == [] then [s.pending[k].1] else was)
  {
  }
}
