/** The lease store's rules in plain terms (internal/supervisor/state.go, policy.go). */
module LeaseLaws {
  import opened Text
  import opened Leases

  /** Adding refuses a known worker id and changes nothing else. */
  lemma AddMeans(leases: Table, l: Lease)
    ensures Step(leases, Add(l)) == if l.workerId in leases then leases else leases[l.workerId := l]
  {
  }

  /** A state change goes through exactly from running to released, expired or terminated
      and from released to terminated, and changes only that lease's state. */
  lemma UpdateMeans(leases: Table, id: string, to: State)
    ensures Step(leases, Update(id, to)) ==
      if && id in leases
         && ((leases[id].state == Running && (to == Released || to == Expired || to == Terminated))
             || (leases[id].state == Released && to == Terminated))
      then leases[id := leases[id].(state := to)] else leases
  {
  }

  lemma RemoveMeans(leases: Table, id: string, o: string)
    ensures o in Step(leases, Remove(id)) <==> o in leases && o != id
    ensures o in leases && o != id ==> Step(leases, Remove(id))[o] == leases[o]
  {
  }

  /** Exactly the running leases with an expiry before now expire. */
  lemma ExpireMeans(leases: Table, now: int, id: string)
    ensures id in Step(leases, Expire(now)) <==> id in leases
    ensures id in leases ==>
      var l := leases[id];
      var due := l.state == Running && l.expiresAt.Some? && l.expiresAt.value < now;
      && (id in DueIds(leases, now) <==> due)
      && Step(leases, Expire(now))[id] == if due then l.(state := Expired) else l
  {
  }

  /** A session's count: its leases that are running. */
  lemma CountMeans(leases: Table, session: string)
    ensures Active(leases, session) == set id | id in leases && leases[id].session == session && leases[id].state == Running
  {
  }

  /** A lease is admitted exactly when there is no limit or the session's running leases
      are fewer than it, and its worker id is new. */
  lemma AdmitMeans(leases: Table, l: Lease, limit: int)
    ensures Step(leases, Admit(l, limit)) ==
      if (limit <= 0 || |set id | id in leases && leases[id].session == l.session && leases[id].state == Running| < limit)
         && l.workerId !in leases
      then leases[l.workerId := l] else leases
  {
    CountMeans(leases, l.session);
  }

  /** With room, a running lease of a new worker raises its session's count by one. */
  lemma AdmitRaisesCount(leases: Table, l: Lease, limit: int)
    requires WithinBudget(leases, l.session, limit) && l.workerId !in leases && l.state == Running
    ensures |Active(Step(leases, Admit(l, limit)), l.session)| == |Active(leases, l.session)| + 1
  {
    assert Active(Step(leases, Admit(l, limit)), l.session) == Active(leases, l.session) + {l.workerId};
  }

  /** A lease may be reused exactly under the session or lease policy, for the profile it
      was made for, by its own session unless the policy is lease, under a profile with
      network policy and runtime, while it is running and not past its expiry. */
  lemma ReusableIff(l: Lease, req: Request, p: Profile, now: int)
    ensures CanReuse(l, req, p, now).None? <==>
      && (p.reusePolicy == "session" || p.reusePolicy == "lease")
      && l.profile == req.workerProfile
      && (p.reusePolicy == "session" ==> l.session == req.session)
      && p.netAccess != "" && p.runtime != ""
      && (l.expiresAt.Some? ==> now <= l.expiresAt.value)
      && l.state == Running
  {
  }

  /** The reason given is the first that applies. */
  lemma RefusalMeans(l: Lease, req: Request, p: Profile, now: int)
    requires CanReuse(l, req, p, now).Some?
    ensures var r := CanReuse(l, req, p, now).value;
      var known := p.reusePolicy == "session" || p.reusePolicy == "lease";
      var late := l.expiresAt.Some? && l.expiresAt.value < now;
      var mine := p.reusePolicy == "lease" || l.session == req.session;
      var ours := known && l.profile == req.workerProfile && mine;
      var complete := ours && p.netAccess != "" && p.runtime != "";
      && (r == PolicyNever <==> p.reusePolicy == "never")
      && (r == PolicyEmpty <==> p.reusePolicy == "")
      && (r == PolicyUnknown <==> !known && p.reusePolicy != "" && p.reusePolicy != "never")
      && (r == ProfileMismatch <==> known && l.profile != req.workerProfile)
      && (r == SessionMismatch <==> known && l.profile == req.workerProfile && !mine)
      && (r == NoNetAccess <==> ours && p.netAccess == "")
      && (r == NoRuntime <==> ours && p.netAccess != "" && p.runtime == "")
      && (r == HasExpired <==> complete && late)
      && (r == WasTerminated <==> complete && !late && l.state == Terminated)
      && (r.NotRunning? ==> complete && !late && r.state == l.state && l.state != Running && l.state != Terminated)
  {
  }
}
