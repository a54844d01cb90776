/** The worker lease store of the agent supervisor (internal/supervisor/state.go) with
    its budget and reuse checks (internal/supervisor/policy.go). */
module Leases {
  import opened Text

  datatype State = Running | Released | Expired | Terminated | Unknown(name: string)

  datatype Lease = Lease(
    workerId: string, agentUid: int, profile: string, session: string, requesterUid: int,
    expiresAt: Option<int>, assignmentTopic: string, state: State)

  datatype StoreError = LeaseExists | LeaseNotFound | InvalidTransition(from: State, to: State)

  type Table = map<string, Lease>

  predicate TransitionAllowed(from: State, to: State) {
    (from == Running && (to == Released || to == Expired || to == Terminated)) ||
    (from == Released && to == Terminated)
  }

  /** A running lease whose expiry lies before `now`; without an expiry it is never due. */
  predicate Due(l: Lease, now: int) {
    l.state == Running && l.expiresAt.Some? && l.expiresAt.value < now
  }

  function DueIds(leases: Table, now: int): set<string> {
    set id | id in leases && Due(leases[id], now)
  }

  /** The running leases of a session: what its budget counts. */
  function Active(leases: Table, session: string): set<string> {
    set id | id in leases && leases[id].session == session && leases[id].state == Running
  }

  // ---------- the operations, as steps on the table ----------

  datatype Op =
    | Add(lease: Lease)
    | Update(id: string, to: State)
    | Remove(id: string)
    | Expire(now: int)
    | Admit(lease: Lease, limit: int)

  predicate WithinBudget(leases: Table, session: string, limit: int) {
    limit > 0 ==> |Active(leases, session)| < limit
  }

  function Inserted(leases: Table, l: Lease): Table {
    if l.workerId in leases then leases else leases[l.workerId := l]
  }

  function Moved(leases: Table, id: string, to: State): Table {
    if id in leases && TransitionAllowed(leases[id].state, to) then leases[id := leases[id].(state := to)] else leases
  }

  function Aged(l: Lease, now: int): Lease {
    if Due(l, now) then l.(state := Expired) else l
  }

  function Swept(leases: Table, now: int): Table {
    map id | id in leases :: Aged(leases[id], now)
  }

  function Step(leases: Table, op: Op): Table {
    match op
    case Add(l) => Inserted(leases, l)
    case Update(id, to) => Moved(leases, id, to)
    case Remove(id) => leases - {id}
    case Expire(now) => Swept(leases, now)
    case Admit(l, limit) => if WithinBudget(leases, l.session, limit) then Inserted(leases, l) else leases
  }

  function Run(leases: Table, ops: seq<Op>): Table {
    if ops == [] then leases else Step(Run(leases, ops[..|ops| - 1]), ops[|ops| - 1])
  }

  // ---------- the store ----------

  class WorkerLeaseStore {
    var leases: Table

    constructor ()
      ensures leases == map[]
    {
      leases := map[];
    }

    method Add(lease: Lease) returns (error: Option<StoreError>)
      modifies this
      ensures leases == Step(old(leases), Op.Add(lease))
      ensures error == if lease.workerId in old(leases) then Some(LeaseExists) else None
    {
      if lease.workerId in leases {
        return Some(LeaseExists);
      }
      leases := leases[lease.workerId := lease];
      return None;
    }

    method UpdateState(workerId: string, state: State) returns (error: Option<StoreError>)
      modifies this
      ensures leases == Step(old(leases), Update(workerId, state))
      ensures error == if workerId !in old(leases) then Some(LeaseNotFound)
                       else if !TransitionAllowed(old(leases)[workerId].state, state)
                       then Some(InvalidTransition(old(leases)[workerId].state, state))
                       else None
    {
      if workerId !in leases {
        return Some(LeaseNotFound);
      }
      var lease := leases[workerId];
      if !TransitionAllowed(lease.state, state) {
        return Some(InvalidTransition(lease.state, state));
      }
      leases := leases[workerId := lease.(state := state)];
      return None;
    }

    method Release(workerId: string) returns (error: Option<StoreError>)
      modifies this
      ensures leases == Step(old(leases), Update(workerId, Released))
      ensures error.None? <==> workerId in old(leases) && old(leases)[workerId].state == Running
    {
      error := UpdateState(workerId, Released);
    }

    method Remove(workerId: string)
      modifies this
      ensures leases == Step(old(leases), Op.Remove(workerId))
    {
      leases := leases - {workerId};
    }

    /** Whatever order the leases are visited in. */
    method CountBySession(session: string) returns (count: nat)
      ensures count == |Active(leases, session)|
    {
      count := 0;
      var todo := leases.Keys;
      ghost var counted: set<string> := {};
      while todo != {}
        invariant todo <= leases.Keys && count == |counted|
        invariant counted <= Active(leases, session) && counted !! todo
        invariant forall id :: id in Active(leases, session) ==> id in todo || id in counted
      {
        var id :| id in todo;
        todo := todo - {id};
        if leases[id].session == session && leases[id].state == Running {
          count := count + 1;
          counted := counted + {id};
        }
      }
      assert counted == Active(leases, session);
    }

    /** Expires exactly the due leases and lists each of them once, in any order. */
    method ExpireLeases(now: int) returns (expired: seq<string>)
      modifies this
      ensures leases == Step(old(leases), Expire(now))
      ensures forall id :: id in expired <==> id in DueIds(old(leases), now)
      ensures |expired| == |DueIds(old(leases), now)|
    {
      hide Due;
      expired := [];
      var todo := leases.Keys;
      ghost var was := leases;
      ghost var done: set<string> := {};
      while todo != {}
        invariant todo <= was.Keys && leases.Keys == was.Keys
        invariant forall id :: id in was ==> leases[id] == if id in todo then was[id] else Aged(was[id], now)
        invariant done <= DueIds(was, now) && done !! todo && |expired| == |done|
        invariant forall id :: id in DueIds(was, now) ==> id in todo || id in done
        invariant forall id :: id in expired <==> id in done
      {
        var id :| id in todo;
        todo := todo - {id};
        var lease := leases[id];
        if Due(lease, now) {
          leases := leases[id := lease.(state := Expired)];
          expired := expired + [id];
          done := done + {id};
        }
      }
      assert done == DueIds(was, now);
      assert leases == Swept(was, now);
    }

    /** Budget limits of zero or less mean no limit. */
    method CheckBudget(maxConcurrentWorkers: int, session: string) returns (ok: bool)
      ensures ok <==> WithinBudget(leases, session, maxConcurrentWorkers)
    {
      if maxConcurrentWorkers > 0 {
        var active := CountBySession(session);
        if active >= maxConcurrentWorkers {
          return false;
        }
      }
      return true;
    }

    /** Check the budget, then add the lease, as one step. */
    method AdmitLease(lease: Lease, limit: int) returns (admitted: bool)
      modifies this
      ensures leases == Step(old(leases), Admit(lease, limit))
      ensures admitted <==> WithinBudget(old(leases), lease.session, limit) && lease.workerId !in old(leases)
    {
      admitted := CheckBudget(limit, lease.session);
      if admitted {
        var error := Add(lease);
        admitted := error.None?;
      }
    }
  }

  // ---------- a lease only moves down ----------

  function Rank(s: State): nat {
    if s == Running then 2 else if s == Released then 1 else 0
  }

  /** The lease under `id` changes state in this step. */
  predicate Changes(leases: Table, op: Op, id: string) {
    id in leases && id in Step(leases, op) && Step(leases, op)[id].state != leases[id].state
  }

  function ChangeCount(leases: Table, ops: seq<Op>, id: string): nat {
    if ops == [] then 0
    else
      var n := |ops| - 1;
      ChangeCount(leases, ops[..n], id) + if Changes(Run(leases, ops[..n]), ops[n], id) then 1 else 0
  }

  /** Without a Remove a lease stays, keeps everything but its state, and moves only
      along the transition table. */
  lemma StepMoves(leases: Table, op: Op, id: string)
    requires id in leases && op != Remove(id)
    ensures id in Step(leases, op)
    ensures Step(leases, op)[id] == leases[id].(state := Step(leases, op)[id].state)
    ensures Changes(leases, op, id) <==> TransitionAllowed(leases[id].state, Step(leases, op)[id].state)
    ensures Rank(Step(leases, op)[id].state) + (if Changes(leases, op, id) then 1 else 0) <= Rank(leases[id].state)
  {
  }

  /** Between Add and Remove: nothing but the state changes, and it changes at most as
      often as its rank allows, so at most twice for a lease added running. */
  lemma {:induction false} AtMostTwoChanges(leases: Table, ops: seq<Op>, id: string)
    requires id in leases && Remove(id) !in ops
    ensures id in Run(leases, ops)
    ensures Run(leases, ops)[id] == leases[id].(state := Run(leases, ops)[id].state)
    ensures ChangeCount(leases, ops, id) + Rank(Run(leases, ops)[id].state) <= Rank(leases[id].state) <= 2
  {
    hide Step;
    if ops != [] {
      var n := |ops| - 1;
      AtMostTwoChanges(leases, ops[..n], id);
      StepMoves(Run(leases, ops[..n]), ops[n], id);
    }
  }

  /** Expired and terminated leases are never touched again. */
  lemma TerminalIsFinal(leases: Table, ops: seq<Op>, id: string)
    requires id in leases && Remove(id) !in ops
    requires leases[id].state == Expired || leases[id].state == Terminated
    ensures id in Run(leases, ops) && Run(leases, ops)[id] == leases[id]
  {
    hide Run;
    AtMostTwoChanges(leases, ops, id);
    SameStateIfUnchanged(leases, ops, id);
  }

  lemma {:induction false} SameStateIfUnchanged(leases: Table, ops: seq<Op>, id: string)
    requires id in leases && Remove(id) !in ops
    ensures id in Run(leases, ops)
    ensures ChangeCount(leases, ops, id) == 0 ==> Run(leases, ops)[id].state == leases[id].state
  {
    hide Step;
    if ops != [] {
      var n := |ops| - 1;
      SameStateIfUnchanged(leases, ops[..n], id);
      StepMoves(Run(leases, ops[..n]), ops[n], id);
    }
  }

  // ---------- counts ----------

  function DueIn(leases: Table, now: int, session: string): set<string> {
    set id | id in DueIds(leases, now) && leases[id].session == session
  }

  /** Expiring lowers each session's count by exactly its share of the due leases. */
  lemma ExpireLowersCounts(leases: Table, now: int, session: string)
    ensures |Active(Step(leases, Expire(now)), session)| == |Active(leases, session)| - |DueIn(leases, now, session)|
  {
    var before := Active(leases, session);
    var share := DueIn(leases, now, session);
    var swept := Swept(leases, now);
    forall id
      ensures id in Active(swept, session) <==> id in before && id !in share
    {
      if id in leases {
        assert swept[id] == Aged(leases[id], now);
      }
    }
    assert Active(swept, session) == before - share;
    assert share <= before;
    assert before == (before - share) + share;
  }

  lemma SubsetCount(a: set<string>, b: set<string>)
    requires a <= b
    ensures |a| <= |b|
  {
    assert b == a + (b - a);
  }

  /** Only adding can raise a session's count, and only by one. */
  lemma StepCount(leases: Table, op: Op, session: string)
    ensures (op.Add? || op.Admit?) && op.lease.state == Running && op.lease.session == session ==>
              |Active(Step(leases, op), session)| <= |Active(leases, session)| + 1
    ensures !((op.Add? || op.Admit?) && op.lease.state == Running && op.lease.session == session) ==>
              |Active(Step(leases, op), session)| <= |Active(leases, session)|
  {
    var before, after := Active(leases, session), Active(Step(leases, op), session);
    if (op.Add? || op.Admit?) && op.lease.state == Running && op.lease.session == session {
      assert after <= before + {op.lease.workerId};
      SubsetCount(after, before + {op.lease.workerId});
    } else {
      assert after <= before;
      SubsetCount(after, before);
    }
  }

  /** Running leases of the session enter only through the budget check under one limit. */
  predicate Budgeted(op: Op, session: string, limit: int) {
    && (op.Add? ==> op.lease.session != session || op.lease.state != Running)
    && (op.Admit? && op.lease.session == session ==> op.limit == limit)
  }

  /** A session admitted only through its budget never exceeds it, in any run. */
  lemma {:induction false} BudgetHolds(leases: Table, ops: seq<Op>, session: string, limit: int)
    requires limit > 0 && |Active(leases, session)| <= limit
    requires forall i :: 0 <= i < |ops| ==> Budgeted(ops[i], session, limit)
    ensures |Active(Run(leases, ops), session)| <= limit
  {
    hide Active, Step;
    if ops != [] {
      var n := |ops| - 1;
      var t := Run(leases, ops[..n]);
      BudgetHolds(leases, ops[..n], session, limit);
      StepCount(t, ops[n], session);
      AdmitStep(t, ops[n], session, limit);
    }
  }

  lemma AdmitStep(leases: Table, op: Op, session: string, limit: int)
    requires limit > 0 && Budgeted(op, session, limit)
    ensures op.Admit? && op.lease.session == session && |Active(leases, session)| >= limit ==> Step(leases, op) == leases
  {
  }

  // ---------- reuse ----------

  datatype NoReuse =
    | PolicyNever | PolicyEmpty | PolicyUnknown | ProfileMismatch | SessionMismatch | NoNetAccess | NoRuntime
    | HasExpired | WasTerminated | NotRunning(state: State)

  datatype Request = Request(session: string, workerProfile: string)

  datatype Profile = Profile(reusePolicy: string, netAccess: string, runtime: string)

  function CanReuse(l: Lease, req: Request, profile: Profile, now: int): Option<NoReuse> {
    if profile.reusePolicy == "never" then Some(PolicyNever)
    else if profile.reusePolicy == "" then Some(PolicyEmpty)
    else if profile.reusePolicy != "session" && profile.reusePolicy != "lease" then Some(PolicyUnknown)
    else if l.profile != req.workerProfile then Some(ProfileMismatch)
    else if profile.reusePolicy == "session" && l.session != req.session then Some(SessionMismatch)
    else if profile.netAccess == "" then Some(NoNetAccess)
    else if profile.runtime == "" then Some(NoRuntime)
    else if l.expiresAt.Some? && l.expiresAt.value < now then Some(HasExpired)
    else if l.state == Terminated then Some(WasTerminated)
    else if l.state != Running then Some(NotRunning(l.state))
    else None
  }

  /** A lease that may be reused is untouched by expiring at the same moment. */
  lemma ReusableSurvivesExpiry(leases: Table, id: string, req: Request, profile: Profile, now: int)
    requires id in leases && CanReuse(leases[id], req, profile, now).None?
    ensures Step(leases, Expire(now))[id] == leases[id] && leases[id].state == Running
  {
  }

  /** A running lease of session "a" that never expires. */
  function Witness(worker: string): Lease {
    Lease("w", 0, worker, "a", 0, None, "", Running)
  }

  /** The design asks for the same session. Under a given profile every reuse keeps the
      session if and only if the profile is not lease-scoped, or reuses nothing at all. */
  lemma ReuseKeepsSessionIff(profile: Profile)
    ensures (forall l: Lease, req: Request, now: int :: CanReuse(l, req, profile, now).None? ==> l.session == req.session)
            <==> profile.reusePolicy != "lease" || profile.netAccess == "" || profile.runtime == ""
  {
    if profile.reusePolicy == "lease" && profile.netAccess != "" && profile.runtime != "" {
      assert CanReuse(Witness("p"), Request("b", "p"), profile, 0).None?;
      assert Witness("p").session != "b";
    }
  }

  /** The design asks for the same network policy and runtime class as well. A lease
      records neither, and a profile's own are only asked not to be blank: two profiles
      with one reuse policy answer alike for every lease if and only if they agree on
      the first of the two that is blank, however much they differ otherwise. */
  lemma ReuseSeesOnlyBlanks(p: Profile, q: Profile)
    requires p.reusePolicy == q.reusePolicy && (p.reusePolicy == "session" || p.reusePolicy == "lease")
    ensures (forall l: Lease, req: Request, now: int :: CanReuse(l, req, p, now) == CanReuse(l, req, q, now))
            <==> (p.netAccess == "" <==> q.netAccess == "") && (p.netAccess != "" ==> (p.runtime == "" <==> q.runtime == ""))
  {
    var l, req := Witness("p"), Request("a", "p");
    assert CanReuse(l, req, p, 0) ==
           if p.netAccess == "" then Some(NoNetAccess) else if p.runtime == "" then Some(NoRuntime) else None;
    assert CanReuse(l, req, q, 0) ==
           if q.netAccess == "" then Some(NoNetAccess) else if q.runtime == "" then Some(NoRuntime) else None;
  }
}
