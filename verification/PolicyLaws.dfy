/** The policy machine's operations in plain terms (internal/compositor/bridge.go,
    grants.go): who may do what, what a grant, a revoke and an event change, and what the
    plugin has as long as nothing is lost. */
module PolicyLaws {
  import opened Text
  import opened Decimal
  import opened Sorting
  import opened Policies

  // ---------- access ----------

  /** In any state: a tracked surface, one of the three actions, and either its owner or an
      agent whose grant lists that very action. */
  lemma AccessMeans(s: State, id: SurfaceID, agent: Uid, action: Action)
    ensures CheckAccess(s, id, agent, action).0 <==>
      && id in s.surfaces
      && (action == Pointer || action == Keyboard || action == ReadPixels)
      && (s.surfaces[id].uid == agent || (id in s.grants && agent in s.grants[id] && action in s.grants[id][agent]))
    ensures id !in s.surfaces ==> CheckAccess(s, id, agent, action).1 == "surface not found"
    ensures CheckAccess(s, id, agent, action).0 ==>
      CheckAccess(s, id, agent, action).1 == if s.surfaces[id].uid == agent then "surface owner" else "viewport grant"
  {
  }

  /** After any run that keeps a surface's uid and kind and does not edit its policy by
      hand, each of the three actions is allowed exactly to the owner and to agents whose
      replayed grant lists it, and no other action to anybody. */
  lemma AccessIsReplayed(trace: seq<Step>, id: SurfaceID, uid: Uid, kind: string, agent: Uid, action: Action)
    requires FixedRun(trace, id, uid, kind) && kind != "layer_shell" && id in Run(trace).surfaces
    ensures var replayed := Replay(Run(trace).history, id);
      CheckAccess(Run(trace), id, agent, action).0 <==>
        && (action == Pointer || action == Keyboard || action == ReadPixels)
        && (agent == uid || (agent in replayed && action in replayed[agent]))
  {
    hide Run, Replay;
    RunGrounded(trace, id, uid, kind);
  }

  /** The lists of a derived policy: the agents granted pointer and keyboard, in
      increasing order, each once, under the surface's own id and owner. */
  lemma DerivedMeans(id: SurfaceID, owner: Uid, grants: Grants, u: Uid)
    ensures var p := Derived(id, owner, grants);
      && p.surfaceID == id && p.ownerUID == owner
      && (u in p.allowPointer <==> u in grants && Pointer in grants[u])
      && (u in p.allowKeyboard <==> u in grants && Keyboard in grants[u])
      && (forall i, j :: 0 <= i < j < |p.allowPointer| ==> p.allowPointer[i] < p.allowPointer[j])
      && (forall i, j :: 0 <= i < j < |p.allowKeyboard| ==> p.allowKeyboard[i] < p.allowKeyboard[j])
  {
    hide SortedUids;
    SortedUidsMembers(AgentsWith(grants, Pointer), u);
    SortedUidsMembers(AgentsWith(grants, Keyboard), u);
    SortedUidsRise(AgentsWith(grants, Pointer));
    SortedUidsRise(AgentsWith(grants, Keyboard));
  }

  // ---------- grants and revokes ----------

  /** One of the three, and asked for: all are when none is named. */
  ghost predicate Asked(actions: seq<Action>, a: Action) {
    (a == Pointer || a == Keyboard || a == ReadPixels) && (actions == [] || a in actions)
  }

  lemma NormalizeAsked(actions: seq<Action>)
    ensures forall a :: a in Normalize(actions) <==> Asked(actions, a)
    ensures Normalize(actions) != [] <==> exists a :: Asked(actions, a)
  {
    forall a
      ensures a in Normalize(actions) <==> Asked(actions, a)
    {
      NormalizeMeaning(actions, a);
    }
    if Normalize(actions) != [] {
      assert Normalize(actions)[0] in Normalize(actions);
      assert Asked(actions, Normalize(actions)[0]);
    }
  }

  /** A grant takes effect on a tracked surface when the log takes it and one of the three
      actions is asked for: the agent's access is then exactly what was asked for, and
      everybody else's is as before. Otherwise nothing changes. */
  lemma GrantTakesEffect(s: State, id: SurfaceID, agent: Uid, actions: seq<Action>, logged: bool, wire: Wire)
    ensures var t := Grant(s, id, agent, actions, logged, wire);
      if id in s.surfaces && logged && exists a :: Asked(actions, a) then
        && (forall a :: CheckAccess(t, id, agent, a).0 <==>
             (a == Pointer || a == Keyboard || a == ReadPixels) && (s.surfaces[id].uid == agent || Asked(actions, a)))
        && (forall x, u, a :: (x != id || u != agent) ==> CheckAccess(t, x, u, a).0 == CheckAccess(s, x, u, a).0)
        && |t.history| == |s.history| + 1 && t.surfaces == s.surfaces && t.actor == s.actor
        && t.history[|s.history|] == Granted(id, agent, Normalize(actions))
      else t == s
  {
    hide SyncDerived;
    NormalizeAsked(actions);
    var granted := Normalize(actions);
    hide Normalize, Asked;
    var s1 := s.(grants := s.grants[id := GrantsOf(s, id)[agent := granted]], history := s.history + [Granted(id, agent, granted)]);
    GrantsKept(s1, id, wire);
  }

  /** A revoke takes effect when the agent has a grant and the log takes it: the agent keeps
      only what it has as an owner, and everybody else's access is as before. */
  lemma RevokeTakesEffect(s: State, id: SurfaceID, agent: Uid, logged: bool, wire: Wire)
    ensures var t := Revoke(s, id, agent, logged, wire);
      if id in s.grants && agent in s.grants[id] && logged then
        && (forall a :: CheckAccess(t, id, agent, a).0 <==>
             id in s.surfaces && s.surfaces[id].uid == agent && (a == Pointer || a == Keyboard || a == ReadPixels))
        && (forall x, u, a :: (x != id || u != agent) ==> CheckAccess(t, x, u, a).0 == CheckAccess(s, x, u, a).0)
        && !(id in t.grants && agent in t.grants[id]) && t.surfaces == s.surfaces
        && t.history == s.history + [Revoked(id, agent)]
      else t == s
  {
    hide SyncDerived, CheckAccess;
    if id in s.grants && agent in s.grants[id] && logged {
      var left := s.grants[id] - {agent};
      var s1 := s.(grants := if left == map[] then s.grants - {id} else s.grants[id := left],
                   history := s.history + [Revoked(id, agent)]);
      GrantsKept(s1, id, wire);
      RevokedAccess(s, id, agent, Revoke(s, id, agent, logged, wire));
    }
  }

  lemma RevokedAccess(s: State, id: SurfaceID, agent: Uid, t: State)
    requires id in s.grants && agent in s.grants[id] && t.surfaces == s.surfaces
    requires var left := s.grants[id] - {agent}; t.grants == if left == map[] then s.grants - {id} else s.grants[id := left]
    ensures forall a :: CheckAccess(t, id, agent, a).0 <==>
      id in s.surfaces && s.surfaces[id].uid == agent && (a == Pointer || a == Keyboard || a == ReadPixels)
    ensures forall x, u, a :: (x != id || u != agent) ==> CheckAccess(t, x, u, a).0 == CheckAccess(s, x, u, a).0
    ensures !(id in t.grants && agent in t.grants[id])
  {
    var left := s.grants[id] - {agent};
    assert forall u :: u in s.grants[id] && u != agent ==> u in left;
  }

  // ---------- surface events ----------

  ghost predicate Refreshes(name: EventName) {
    name == Focused || name == Restored || name == Minimized || name == Stacked || name == InputDenied || name == FrameDone
  }

  /** What a map or a refresh makes of the surface records: the event's uid and kind for its
      own surface, focus taken by a focus event and given up by a restore or a minimise,
      taken from all others by a focus or a restore, and otherwise left as it was. */
  lemma RecordAfterEvent(s: State, e: Event, wire: Wire)
    requires e.name == Mapped || Refreshes(e.name)
    ensures var t := HandleEvent(s, e, wire);
      && t.surfaces.Keys == s.surfaces.Keys + {e.id}
      && t.surfaces[e.id].uid == e.uid
      && t.surfaces[e.id].kind == (if e.kind == "" then "xdg_view" else e.kind)
      && (t.surfaces[e.id].focused <==>
           e.name == Focused || (e.name != Restored && e.name != Minimized && e.id in s.surfaces && s.surfaces[e.id].focused))
      && (forall x :: x in s.surfaces && x != e.id ==>
           && t.surfaces[x].uid == s.surfaces[x].uid && t.surfaces[x].kind == s.surfaces[x].kind
           && (t.surfaces[x].focused <==> s.surfaces[x].focused && e.name != Focused && e.name != Restored))
      && t.grants == s.grants && t.history == s.history && t.actor == s.actor
  {
    EventSurfaces(s, e, wire);
    hide HandleEvent;
  }

  lemma EventSurfaces(s: State, e: Event, wire: Wire)
    requires e.name == Mapped || Refreshes(e.name)
    ensures var t := HandleEvent(s, e, wire);
      && t.surfaces == (if e.name == Mapped
                        then s.surfaces[e.id := Surface(e.uid, KindOf(e), e.id in s.surfaces && s.surfaces[e.id].focused)]
                        else Refreshed(s, e))
      && t.grants == s.grants && t.history == s.history && t.actor == s.actor
  {
    hide SyncDerived, KindOf, Refreshed;
    GrantsKept(s.(surfaces := s.surfaces[e.id := Surface(e.uid, KindOf(e), e.id in s.surfaces && s.surfaces[e.id].focused)]), e.id, wire);
    GrantsKept(s.(surfaces := Refreshed(s, e)), e.id, wire);
  }

  /** Which policy a map or a refresh derives: always after a map, only for want of one
      after a refresh, and none for a layer-shell surface. */
  lemma PolicyAfterEvent(s: State, e: Event, wire: Wire)
    requires e.name == Mapped || Refreshes(e.name)
    ensures HandleEvent(s, e, wire).policies ==
      if e.kind != "layer_shell" && (e.name == Mapped || e.id !in s.policies)
      then s.policies[e.id := Derived(e.id, e.uid, if e.id in s.grants then s.grants[e.id] else map[])]
      else s.policies
  {
    hide SyncDerived;
    GrantsKept(s.(surfaces := s.surfaces[e.id := Surface(e.uid, KindOf(e), e.id in s.surfaces && s.surfaces[e.id].focused)]), e.id, wire);
    GrantsKept(s.(surfaces := Refreshed(s, e)), e.id, wire);
  }

  /** An unmap forgets the surface, its policy and its grants, and nothing of any other; an
      event the bridge does not know changes nothing. */
  lemma UnmapForgets(s: State, e: Event, wire: Wire)
    ensures e.name == Unmapped ==>
      var t := HandleEvent(s, e, wire);
      && t.surfaces == s.surfaces - {e.id} && t.policies == s.policies - {e.id} && t.grants == s.grants - {e.id}
      && t.history == s.history + [UnmapMark(e.id)] && t.actor == s.actor && t.plugin == s.plugin
    ensures e.name == OtherEvent ==> HandleEvent(s, e, wire) == s
  {
    hide Send;
    SendPolicies(s.(surfaces := s.surfaces - {e.id}, policies := s.policies - {e.id}, grants := s.grants - {e.id},
                    history := s.history + [UnmapMark(e.id)]), Remove(e.id), wire);
  }

  /** Manual edits change exactly the entry they name, whatever becomes of the send. */
  lemma EditsChangeOneEntry(s: State, policy: Policy, id: SurfaceID, actor: Option<Uid>, wire: Wire)
    ensures UpsertPolicy(s, policy, wire).policies == s.policies[policy.surfaceID := policy]
    ensures RemovePolicy(s, id, wire).policies == s.policies - {id}
    ensures SetContext(s, actor, wire).actor == actor && SetContext(s, actor, wire).policies == s.policies
    ensures UpsertPolicy(s, policy, wire).actor == s.actor && RemovePolicy(s, id, wire).actor == s.actor
  {
    hide Send;
    SendPolicies(s.(policies := s.policies[policy.surfaceID := policy]), Upsert(policy), wire);
    SendPolicies(s.(policies := s.policies - {id}), Remove(id), wire);
    SendPolicies(s.(actor := actor), InputContext(actor), wire);
  }

  // ---------- nothing lost, nothing missing ----------

  predicate AllArrive(step: Step) {
    match step
    case SyncStep(_, first, second) => first == Arrived && second == Arrived
    case ManualUpsert(_, wire) => wire == Arrived
    case ManualRemove(_, wire) => wire == Arrived
    case ContextStep(_, wire) => wire == Arrived
    case GrantStep(_, _, _, _, wire) => wire == Arrived
    case RevokeStep(_, _, _, wire) => wire == Arrived
    case EventStep(_, wire) => wire == Arrived
    case _ => true
  }

  ghost predicate Current(s: State, p: nat) {
    s.plugin == Some(p) && p in s.sessions && s.sessions[p].synced && !s.sessions[p].failed
  }

  lemma ArrivedSendKeeps(s: State, msg: PluginMsg, p: nat)
    requires Current(s, p)
    ensures Current(Send(s, msg, Arrived), p)
  {
    hide FromList;
  }

  lemma ArrivedStepKeeps(s: State, step: Step, p: nat)
    requires Current(s, p) && AllArrive(step) && !step.InstallStep? && !step.ClearStep?
    ensures Current(Next(s, step), p)
  {
    hide Send, Derived, FromList, Snapshot, Normalize;
    match step {
      case SyncStep(session, _, _) =>
      case ManualUpsert(policy, _) => ArrivedSendKeeps(s.(policies := s.policies[policy.surfaceID := policy]), Upsert(policy), p);
      case ManualRemove(id, _) => ArrivedSendKeeps(s.(policies := s.policies - {id}), Remove(id), p);
      case ContextStep(actor, _) => ArrivedSendKeeps(s.(actor := actor), InputContext(actor), p);
      case GrantStep(id, agent, actions, _, _) =>
        ArrivedDerived(s.(grants := s.grants[id := GrantsOf(s, id)[agent := Normalize(actions)]],
                          history := s.history + [Granted(id, agent, Normalize(actions))]), id, p);
      case RevokeStep(id, agent, _, _) =>
        if agent in GrantsOf(s, id) {
          var left := s.grants[id] - {agent};
          ArrivedDerived(s.(grants := if left == map[] then s.grants - {id} else s.grants[id := left],
                            history := s.history + [Revoked(id, agent)]), id, p);
        }
      case EventStep(e, _) => ArrivedEventKeeps(s, e, p);
      case _ =>
    }
  }

  lemma ArrivedDerived(s: State, id: SurfaceID, p: nat)
    requires Current(s, p)
    ensures Current(SyncDerived(s, id, Arrived), p)
  {
    hide Send, Derived;
    var policy := Derived(id, OwnerOf(s, id), GrantsOf(s, id));
    ArrivedSendKeeps(s.(policies := s.policies[id := policy]), Upsert(policy), p);
  }

  lemma ArrivedEventKeeps(s: State, e: Event, p: nat)
    requires Current(s, p)
    ensures Current(HandleEvent(s, e, Arrived), p)
  {
    hide Send, SyncDerived, Refreshed;
    ArrivedDerived(s.(surfaces := s.surfaces[e.id := Surface(e.uid, KindOf(e), e.id in s.surfaces && s.surfaces[e.id].focused)]), e.id, p);
    ArrivedDerived(s.(surfaces := Refreshed(s, e)), e.id, p);
    ArrivedSendKeeps(s.(surfaces := s.surfaces - {e.id}, policies := s.policies - {e.id}, grants := s.grants - {e.id},
                        history := s.history + [UnmapMark(e.id)]), Remove(e.id), p);
  }

  lemma {:induction false} CurrentLasts(trace: seq<Step>, more: seq<Step>, p: nat)
    requires Current(Run(trace), p)
    requires forall i :: 0 <= i < |more| ==> AllArrive(more[i]) && !more[i].InstallStep? && !more[i].ClearStep?
    ensures Current(Run(trace + more), p)
  {
    hide Next, Current, AllArrive;
    if more == [] {
      assert trace + more == trace;
    } else {
      var front := more[..|more| - 1];
      CurrentLasts(trace, front, p);
      assert (trace + more)[..|trace + more| - 1] == trace + front;
      ArrivedStepKeeps(Run(trace + front), more[|more| - 1], p);
    }
  }

  /** Once the installed plugin has synced, and as long as every message to it arrives and
      it stays installed, its cache and input context are the bridge's after every step. */
  lemma AgreementLasts(trace: seq<Step>, more: seq<Step>)
    requires Run(trace).plugin.Some?
    requires forall i :: 0 <= i < |more| ==> AllArrive(more[i]) && !more[i].InstallStep? && !more[i].ClearStep?
    ensures var p := Run(trace).plugin.value;
      var s := Run(trace + [SyncStep(p, Arrived, Arrived)] + more);
      s.plugin == Some(p) && p in s.sessions && s.sessions[p].cache == s.policies && s.sessions[p].actor == s.actor
  {
    hide AllArrive, Next, Sync;
    var p := Run(trace).plugin.value;
    var synced := trace + [SyncStep(p, Arrived, Arrived)];
    SyncIsCurrent(trace, p);
    CurrentLasts(synced, more, p);
    CacheAgrees(synced + more);
  }

  lemma SyncIsCurrent(trace: seq<Step>, p: nat)
    requires Run(trace).plugin == Some(p)
    ensures Current(Run(trace + [SyncStep(p, Arrived, Arrived)]), p)
  {
    hide FromList, Snapshot;
    var step := SyncStep(p, Arrived, Arrived);
    assert (trace + [step])[..|trace|] == trace;
    CacheAgrees(trace);
    SyncRestores(Run(trace), p);
    SyncLeavesRest(Run(trace), p, Arrived, Arrived);
  }

  /** An exit forgets exactly those of the given surfaces that are layer-shell ones; their
      policies and grants stay. */
  lemma ExitForgets(s: State, ids: set<SurfaceID>, id: SurfaceID)
    ensures var t := ForgetLayerShell(s, ids);
      && (id in t.surfaces <==> id in s.surfaces && (id !in ids || s.surfaces[id].kind != "layer_shell"))
      && (id in t.surfaces ==> t.surfaces[id] == s.surfaces[id])
      && t == s.(surfaces := t.surfaces)
  {
  }

  function Names(actions: seq<Action>): (r: seq<string>)
    ensures |r| == |actions| && forall i :: 0 <= i < |r| ==> r[i] == ActionName(actions[i])
  {
    seq(|actions|, i requires 0 <= i < |actions| => ActionName(actions[i]))
  }

  /** Nothing asked for means all three, in the order of their names; an unknown action
      asked for is dropped. */
  lemma DefaultNames(name: string)
    ensures Names(Normalize([])) == ["keyboard", "pointer", "read_pixels"]
    ensures Names(Normalize([Unknown(name), ReadPixels, Unknown(name), Pointer])) == ["pointer", "read_pixels"]
    ensures Normalize([Unknown(name)]) == []
  {
  }

  /** Connecting starts from an empty cache that is neither synced nor failed, and takes
      the slot; disconnecting gives the slot up only for the session that holds it. */
  lemma ConnectMeans(s: State, session: nat)
    ensures var t := Install(s, session);
      && t.plugin == Some(session) && session in t.sessions
      && t.sessions[session].cache == map[] && t.sessions[session].actor == None
      && !t.sessions[session].synced && !t.sessions[session].failed
      && (forall p :: p != session ==> (p in t.sessions <==> p in s.sessions) && (p in s.sessions ==> t.sessions[p] == s.sessions[p]))
      && t == s.(plugin := t.plugin, sessions := t.sessions)
    ensures Clear(s, session).plugin == (if s.plugin.Some? && s.plugin.value == session then None else s.plugin)
    ensures Clear(s, session) == s.(plugin := Clear(s, session).plugin)
  {
  }

  /** The three fates of a message: it arrives; it is lost and the sender is told; it
      arrives although the sender is told otherwise. The plugin's cache follows what
      arrives, and the failure mark what the sender is told. */
  lemma WireMeans(x: Session, msg: PluginMsg)
    ensures Transmit(x, msg, Arrived) == Receive(x, msg)
    ensures Transmit(x, msg, ErrorLost).cache == x.cache && Transmit(x, msg, ErrorLost).actor == x.actor
    ensures Transmit(x, msg, ErrorArrived).cache == Receive(x, msg).cache && Transmit(x, msg, ErrorArrived).actor == Receive(x, msg).actor
    ensures Receive(x, msg).failed == x.failed && Transmit(x, msg, ErrorLost).failed && Transmit(x, msg, ErrorArrived).failed
    ensures Receive(x, msg).synced == x.synced
  {
  }

  /** One message's effect on the plugin, key by key. */
  lemma MessageMeans(x: Session, policy: Policy, id: SurfaceID, actor: Option<Uid>, other: SurfaceID)
    ensures var c := Receive(x, Upsert(policy)).cache;
      policy.surfaceID in c && c[policy.surfaceID] == policy &&
      (other != policy.surfaceID ==> (other in c <==> other in x.cache) && (other in x.cache ==> c[other] == x.cache[other]))
    ensures var c := Receive(x, Remove(id)).cache;
      id !in c && (other != id ==> (other in c <==> other in x.cache) && (other in x.cache ==> c[other] == x.cache[other]))
    ensures Receive(x, InputContext(actor)).actor == actor && Receive(x, InputContext(actor)).cache == x.cache
    ensures Receive(x, Upsert(policy)).actor == x.actor && Receive(x, Remove(id)).actor == x.actor
  {
  }

  /** A sync whose snapshot was not sent stops there; one whose two messages arrive leaves
      the session with the bridge's policies and input context, marked as synced. */
  lemma SyncMeans(s: State, p: nat, first: Wire, second: Wire)
    requires p in s.sessions
    ensures var t := Sync(s, p, first, second);
      && p in t.sessions && t == s.(sessions := t.sessions)
      && (first == ErrorLost ==> t.sessions[p] == s.sessions[p].(failed := true))
      && (first == ErrorArrived ==> t.sessions[p].actor == s.sessions[p].actor && t.sessions[p].failed)
      && (first != Arrived || second != Arrived ==> t.sessions[p].synced == s.sessions[p].synced)
      && (first == Arrived && second == ErrorLost ==> t.sessions[p].actor == s.sessions[p].actor && t.sessions[p].failed)
      && (first == Arrived && second == Arrived ==>
           t.sessions[p].synced && !t.sessions[p].failed && t.sessions[p].actor == s.actor)
  {
    hide Snapshot;
  }

  /** Whatever changes a policy or the input context sends just that to the installed
      plugin, over the wire given, and to no other session. */
  lemma ChangesAreSent(s: State, policy: Policy, id: SurfaceID, actor: Option<Uid>, wire: Wire, p: nat, e: Event)
    requires p in s.sessions
    ensures s.plugin == Some(p) ==>
      && UpsertPolicy(s, policy, wire).sessions == Told(s, p, Upsert(policy), wire)
      && RemovePolicy(s, id, wire).sessions == Told(s, p, Remove(id), wire)
      && SetContext(s, actor, wire).sessions == Told(s, p, InputContext(actor), wire)
      && SyncDerived(s, id, wire).sessions == Told(s, p, Upsert(Derived(id, OwnerOf(s, id), GrantsOf(s, id))), wire)
      && HandleUnmapped(s, e, wire).sessions == Told(s, p, Remove(e.id), wire)
    ensures s.plugin.None? ==>
      && UpsertPolicy(s, policy, wire).sessions == RemovePolicy(s, id, wire).sessions == SetContext(s, actor, wire).sessions == s.sessions
      && SyncDerived(s, id, wire).sessions == HandleUnmapped(s, e, wire).sessions == s.sessions
  {
    hide Derived, Transmit;
  }

  function Told(s: State, p: nat, msg: PluginMsg, wire: Wire): map<nat, Session>
    requires p in s.sessions
  {
    s.sessions[p := Transmit(s.sessions[p], msg, wire)]
  }

  /** A policy derived for a surface that is not there names root as its owner. */
  lemma OwnerMeans(s: State, id: SurfaceID)
    ensures OwnerOf(s, id) == if id in s.surfaces then s.surfaces[id].uid else 0
    ensures Derived(id, OwnerOf(s, id), GrantsOf(s, id)).ownerUID == OwnerOf(s, id)
  {
  }

  /** A move that finishes leaves a tracked surface as it is; one that is gone comes back
      owned by root, of no kind, and not focused. Nothing else changes. */
  lemma MoveMeans(s: State, id: SurfaceID, other: SurfaceID)
    ensures var t := FinishMove(s, id);
      && id in t.surfaces && t == s.(surfaces := t.surfaces)
      && (id in s.surfaces ==> t == s)
      && (id !in s.surfaces ==> t.surfaces[id].uid == 0 && t.surfaces[id].kind == "" && !t.surfaces[id].focused)
      && (other != id ==> (other in t.surfaces <==> other in s.surfaces) && (other in s.surfaces ==> t.surfaces[other] == s.surfaces[other]))
  {
  }
}
