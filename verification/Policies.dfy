/** Surface policies in the compositor bridge (internal/compositor/bridge.go and
    grants.go): surface events, viewport grants, the policy derived from them, and
    the copy of it that a plugin holds only through messages. */
module Policies {
  import opened Text
  import opened Decimal
  import opened Sorting

  type SurfaceID = string

  const XDG_VIEW := "xdg_view"
  const LAYER_SHELL := "layer_shell"

  datatype Action = Pointer | Keyboard | ReadPixels | Unknown(name: string)

  datatype Surface = Surface(uid: Uid, kind: string, focused: bool)

  datatype Policy = Policy(surfaceID: SurfaceID, ownerUID: Uid, allowPointer: seq<Uid>, allowKeyboard: seq<Uid>)

  type Grants = map<Uid, seq<Action>>

  /** The append-only grant log, with the unmaps that end a surface's grants marked in it. */
  datatype Record = Granted(surfaceID: SurfaceID, agent: Uid, actions: seq<Action>)
                  | Revoked(surfaceID: SurfaceID, agent: Uid)
                  | UnmapMark(surfaceID: SurfaceID)

  datatype PluginMsg = Replace(policies: seq<Policy>) | Upsert(policy: Policy) | Remove(surfaceID: SurfaceID) | InputContext(actor: Option<Uid>)

  /** What can become of one Send: it works, or it reports an error and the plugin
      may or may not have read the message all the same. */
  datatype Wire = Arrived | ErrorLost | ErrorArrived

  /** A plugin connection: what the plugin has cached, whether its initial sync
      completed, and whether a send on it has failed since. */
  datatype Session = Session(cache: map<SurfaceID, Policy>, actor: Option<Uid>, synced: bool, failed: bool)

  datatype EventName = Mapped | Focused | Restored | Minimized | Stacked | InputDenied | FrameDone | Unmapped | OtherEvent

  datatype Event = Event(name: EventName, id: SurfaceID, uid: Uid, kind: string)

  datatype State = State(
    surfaces: map<SurfaceID, Surface>,
    policies: map<SurfaceID, Policy>,
    grants: map<SurfaceID, Grants>,
    actor: Option<Uid>,
    plugin: Option<nat>,
    sessions: map<nat, Session>,
    history: seq<Record>)

  const START := State(map[], map[], map[], None, None, map[], [])

  // ---------- the plugin's side ----------

  function FromList(policies: seq<Policy>): map<SurfaceID, Policy> {
    if policies == [] then map[]
    else FromList(policies[..|policies| - 1])[policies[|policies| - 1].surfaceID := policies[|policies| - 1]]
  }

  function Receive(x: Session, msg: PluginMsg): Session {
    match msg
    case Replace(policies) => x.(cache := FromList(policies))
    case Upsert(policy) => x.(cache := x.cache[policy.surfaceID := policy])
    case Remove(id) => x.(cache := x.cache - {id})
    case InputContext(actor) => x.(actor := actor)
  }

  function Transmit(x: Session, msg: PluginMsg, wire: Wire): Session {
    match wire
    case Arrived => Receive(x, msg)
    case ErrorLost => x.(failed := true)
    case ErrorArrived => Receive(x, msg).(failed := true)
  }

  function SendOn(s: State, session: nat, msg: PluginMsg, wire: Wire): State {
    if session !in s.sessions then s
    else s.(sessions := s.sessions[session := Transmit(s.sessions[session], msg, wire)])
  }

  /** Send to the installed plugin, if there is one. */
  function Send(s: State, msg: PluginMsg, wire: Wire): State {
    if s.plugin.None? then s else SendOn(s, s.plugin.value, msg, wire)
  }

  function Snapshot(policies: map<SurfaceID, Policy>): seq<Policy> {
    ListOf(policies, SortedStrings(policies.Keys))
  }

  function ListOf(policies: map<SurfaceID, Policy>, ids: seq<SurfaceID>): seq<Policy> {
    if ids == [] then []
    else ListOf(policies, ids[..|ids| - 1]) + if ids[|ids| - 1] in policies then [policies[ids[|ids| - 1]]] else []
  }

  // ---------- grants ----------

  predicate Grantable(a: Action) {
    a == Pointer || a == Keyboard || a == ReadPixels
  }

  const DEFAULT_ACTIONS: seq<Action> := [Pointer, Keyboard, ReadPixels]

  /** Known actions, each once, in the order of their names. */
  function SortedActions(actions: seq<Action>): seq<Action> {
    (if Keyboard in actions then [Keyboard] else []) +
    (if Pointer in actions then [Pointer] else []) +
    (if ReadPixels in actions then [ReadPixels] else [])
  }

  function Normalize(actions: seq<Action>): seq<Action> {
    SortedActions(if actions == [] then DEFAULT_ACTIONS else actions)
  }

  function ActionName(a: Action): string {
    match a
    case Pointer => "pointer"
    case Keyboard => "keyboard"
    case ReadPixels => "read_pixels"
    case Unknown(name) => name
  }

  lemma SortedActionsRise(actions: seq<Action>)
    ensures forall i, j :: 0 <= i < j < |SortedActions(actions)| ==> Less(ActionName(SortedActions(actions)[i]), ActionName(SortedActions(actions)[j]))
  {
    assert Less("keyboard", "pointer") && Less("keyboard", "read_pixels") && Less("pointer", "read_pixels");
    hide Less;
  }

  /** Normalising keeps exactly the known actions asked for, or all three when none
      was named, once each in the order of their names, and doing it twice changes
      nothing unless nothing was left. */
  lemma NormalizeMeaning(actions: seq<Action>, a: Action)
    ensures a in Normalize(actions) <==> Grantable(a) && (actions == [] || a in actions)
    ensures forall i, j :: 0 <= i < j < |Normalize(actions)| ==> Less(ActionName(Normalize(actions)[i]), ActionName(Normalize(actions)[j]))
    ensures Normalize(actions) != [] ==> Normalize(Normalize(actions)) == Normalize(actions)
  {
    SortedActionsRise(if actions == [] then DEFAULT_ACTIONS else actions);
    NormalizeTwice(actions);
    hide Less, ActionName;
  }

  lemma NormalizeTwice(actions: seq<Action>)
    ensures Normalize(actions) != [] ==> Normalize(Normalize(actions)) == Normalize(actions)
  {
    var n := Normalize(actions);
    assert forall x :: Grantable(x) ==> (x in n <==> x in (if actions == [] then DEFAULT_ACTIONS else actions));
  }

  method NormalizeViewportActions(actions: seq<Action>) returns (r: seq<Action>)
    ensures r == Normalize(actions)
  {
    var wanted := if actions == [] then DEFAULT_ACTIONS else actions;
    var seen: set<Action> := {};
    var normalized: seq<Action> := [];
    for i := 0 to |wanted|
      invariant forall a :: a in seen <==> Grantable(a) && a in wanted[..i]
      invariant forall a :: a in normalized <==> a in seen
    {
      var action := wanted[i];
      if Grantable(action) && action !in seen {
        seen := seen + {action};
        normalized := normalized + [action];
      }
      assert wanted[..i + 1] == wanted[..i] + [action];
    }
    assert wanted[..|wanted|] == wanted;
    r := SortedActions(normalized);
  }

  function GrantsOf(s: State, id: SurfaceID): Grants {
    if id in s.grants then s.grants[id] else map[]
  }

  function AgentsWith(grants: Grants, action: Action): set<Uid> {
    set u | u in grants && action in grants[u]
  }

  function Derived(id: SurfaceID, owner: Uid, grants: Grants): Policy {
    Policy(id, owner, SortedUids(AgentsWith(grants, Pointer)), SortedUids(AgentsWith(grants, Keyboard)))
  }

  // ---------- the bridge's operations, on values ----------

  /** A missing surface reads as the zero record, whose owner is uid 0. */
  function OwnerOf(s: State, id: SurfaceID): Uid {
    if id in s.surfaces then s.surfaces[id].uid else 0
  }

  function SyncDerived(s: State, id: SurfaceID, wire: Wire): State {
    var policy := Derived(id, OwnerOf(s, id), GrantsOf(s, id));
    Send(s.(policies := s.policies[id := policy]), Upsert(policy), wire)
  }

  function Install(s: State, session: nat): State {
    s.(plugin := Some(session), sessions := s.sessions[session := Session(map[], None, false, false)])
  }

  function Clear(s: State, session: nat): State {
    if s.plugin == Some(session) then s.(plugin := None) else s
  }

  function Sync(s: State, session: nat, first: Wire, second: Wire): State {
    var s1 := SendOn(s, session, Replace(Snapshot(s.policies)), first);
    if first != Arrived then s1
    else
      var s2 := SendOn(s1, session, InputContext(s.actor), second);
      if second != Arrived || session !in s2.sessions then s2
      else s2.(sessions := s2.sessions[session := s2.sessions[session].(synced := true, failed := false)])
  }

  function UpsertPolicy(s: State, policy: Policy, wire: Wire): State {
    Send(s.(policies := s.policies[policy.surfaceID := policy]), Upsert(policy), wire)
  }

  function RemovePolicy(s: State, id: SurfaceID, wire: Wire): State {
    Send(s.(policies := s.policies - {id}), Remove(id), wire)
  }

  function SetContext(s: State, actor: Option<Uid>, wire: Wire): State {
    Send(s.(actor := actor), InputContext(actor), wire)
  }

  function Grant(s: State, id: SurfaceID, agent: Uid, actions: seq<Action>, logged: bool, wire: Wire): State {
    if Normalize(actions) == [] || id !in s.surfaces || !logged then s
    else
      var granted := Normalize(actions);
      SyncDerived(s.(grants := s.grants[id := GrantsOf(s, id)[agent := granted]],
                     history := s.history + [Granted(id, agent, granted)]), id, wire)
  }

  function Revoke(s: State, id: SurfaceID, agent: Uid, logged: bool, wire: Wire): State {
    if agent !in GrantsOf(s, id) || !logged then s
    else
      var left := s.grants[id] - {agent};
      var s1 := s.(grants := if left == map[] then s.grants - {id} else s.grants[id := left],
                   history := s.history + [Revoked(id, agent)]);
      if id in s.surfaces then SyncDerived(s1, id, wire) else s1
  }

  function CheckAccess(s: State, id: SurfaceID, agent: Uid, action: Action): (bool, string) {
    if id !in s.surfaces then (false, "surface not found")
    else if !Grantable(action) then (false, "unknown access action")
    else if s.surfaces[id].uid == agent then (true, "surface owner")
    else if id !in s.grants || agent !in s.grants[id] then (false, "no viewport grant")
    else if action !in s.grants[id][agent] then (false, "viewport grant does not include the action")
    else (true, "viewport grant")
  }

  function Unfocused(surfaces: map<SurfaceID, Surface>, keep: SurfaceID): map<SurfaceID, Surface> {
    map id | id in surfaces :: if id == keep then surfaces[id] else surfaces[id].(focused := false)
  }

  function KindOf(e: Event): string {
    if e.kind == "" then XDG_VIEW else e.kind
  }

  predicate RefreshEvent(name: EventName) {
    name in {Focused, Restored, Minimized, Stacked, InputDenied, FrameDone}
  }

  function HandleMapped(s: State, e: Event, wire: Wire): State {
    var was := e.id in s.surfaces && s.surfaces[e.id].focused;
    var s1 := s.(surfaces := s.surfaces[e.id := Surface(e.uid, KindOf(e), was)]);
    if KindOf(e) != LAYER_SHELL then SyncDerived(s1, e.id, wire) else s1
  }

  function Refreshed(s: State, e: Event): map<SurfaceID, Surface> {
    var was := e.id in s.surfaces && s.surfaces[e.id].focused;
    var others := if e.name == Focused || e.name == Restored then Unfocused(s.surfaces, e.id) else s.surfaces;
    var focused := if e.name == Focused then true else if e.name == Restored || e.name == Minimized then false else was;
    others[e.id := Surface(e.uid, KindOf(e), focused)]
  }

  function HandleRefresh(s: State, e: Event, wire: Wire): State {
    var s1 := s.(surfaces := Refreshed(s, e));
    if KindOf(e) != LAYER_SHELL && e.id !in s.policies then SyncDerived(s1, e.id, wire) else s1
  }

  function HandleUnmapped(s: State, e: Event, wire: Wire): State {
    Send(s.(surfaces := s.surfaces - {e.id}, policies := s.policies - {e.id}, grants := s.grants - {e.id},
            history := s.history + [UnmapMark(e.id)]), Remove(e.id), wire)
  }

  function HandleEvent(s: State, e: Event, wire: Wire): State {
    if e.name == Mapped then HandleMapped(s, e, wire)
    else if RefreshEvent(e.name) then HandleRefresh(s, e, wire)
    else if e.name == Unmapped then HandleUnmapped(s, e, wire)
    else s
  }

  /** A launch exited: its layer-shell surfaces are forgotten, and nothing else. */
  function ForgetLayerShell(s: State, ids: set<SurfaceID>): State {
    s.(surfaces := map id | id in s.surfaces && !(id in ids && s.surfaces[id].kind == LAYER_SHELL) :: s.surfaces[id])
  }

  /** The second critical section of MoveSurfaceToOutput: it stores the surface back
      without asking whether it is still there. */
  function FinishMove(s: State, id: SurfaceID): State {
    s.(surfaces := s.surfaces[id := if id in s.surfaces then s.surfaces[id] else Surface(0, "", false)])
  }

  // ---------- the bridge object ----------

  class Bridge {
    var surfaces: map<SurfaceID, Surface>
    var policies: map<SurfaceID, Policy>
    var grants: map<SurfaceID, Grants>
    var actorUID: Option<Uid>
    var plugin: Option<nat>
    ghost var sessions: map<nat, Session>
    ghost var history: seq<Record>

    ghost function View(): State
      reads this
    {
      State(surfaces, policies, grants, actorUID, plugin, sessions, history)
    }

    constructor ()
      ensures View() == START
    {
      surfaces, policies, grants, actorUID, plugin := map[], map[], map[], None, None;
      sessions, history := map[], [];
    }

    /** One message on one connection; `wire` is what the connection does with it. */
    method SendMessage(session: nat, msg: PluginMsg, wire: Wire) returns (ok: bool)
      modifies this`sessions
      ensures View() == SendOn(old(View()), session, msg, wire)
      ensures ok == wire.Arrived?
    {
      if session in sessions {
        sessions := sessions[session := Transmit(sessions[session], msg, wire)];
      }
      ok := wire.Arrived?;
    }

    method InstallPluginSession(session: nat) returns (previous: Option<nat>)
      modifies this
      ensures View() == Install(old(View()), session) && previous == old(plugin)
    {
      previous := plugin;
      plugin := Some(session);
      sessions := sessions[session := Session(map[], None, false, false)];
    }

    method ClearPluginSession(session: nat)
      modifies this`plugin
      ensures View() == Clear(old(View()), session)
    {
      if plugin == Some(session) {
        plugin := None;
      }
    }

    method SyncPluginSession(session: nat, first: Wire, second: Wire) returns (ok: bool)
      modifies this`sessions
      ensures View() == Sync(old(View()), session, first, second)
      ensures ok == (first.Arrived? && second.Arrived?)
    {
      var snapshot := Snapshot(policies);
      ok := SendMessage(session, Replace(snapshot), first);
      if !ok {
        return;
      }
      ok := SendMessage(session, InputContext(actorUID), second);
      if ok && session in sessions {
        sessions := sessions[session := sessions[session].(synced := true, failed := false)];
      }
    }

    method UpsertSurfacePolicy(policy: Policy, wire: Wire) returns (ok: bool)
      modifies this
      ensures View() == UpsertPolicy(old(View()), policy, wire)
      ensures ok == (plugin.None? || wire.Arrived?)
    {
      policies := policies[policy.surfaceID := policy];
      ok := true;
      if plugin.Some? {
        ok := SendMessage(plugin.value, Upsert(policy), wire);
      }
    }

    method RemoveSurfacePolicy(id: SurfaceID, wire: Wire) returns (ok: bool)
      modifies this
      ensures View() == RemovePolicy(old(View()), id, wire)
      ensures ok == (plugin.None? || wire.Arrived?)
    {
      policies := policies - {id};
      ok := true;
      if plugin.Some? {
        ok := SendMessage(plugin.value, Remove(id), wire);
      }
    }

    method SetInputContext(actor: Option<Uid>, wire: Wire) returns (ok: bool)
      modifies this
      ensures View() == SetContext(old(View()), actor, wire)
      ensures ok == (plugin.None? || wire.Arrived?)
    {
      actorUID := actor;
      ok := true;
      if plugin.Some? {
        ok := SendMessage(plugin.value, InputContext(actor), wire);
      }
    }

    /** The allow lists are collected by walking the grants in any order. */
    method RebuildSurfacePolicy(id: SurfaceID) returns (policy: Policy)
      modifies this`policies
      ensures policy == Derived(id, OwnerOf(old(View()), id), GrantsOf(old(View()), id))
      ensures View() == old(View()).(policies := old(policies)[id := policy])
    {
      var owner: Uid := if id in surfaces then surfaces[id].uid else 0;
      var byAgent := if id in grants then grants[id] else map[];
      var pointer: set<Uid>, keyboard: set<Uid> := {}, {};
      var todo := byAgent.Keys;
      while todo != {}
        invariant todo <= byAgent.Keys
        invariant pointer == set u | u in byAgent && u !in todo && Pointer in byAgent[u]
        invariant keyboard == set u | u in byAgent && u !in todo && Keyboard in byAgent[u]
      {
        var uid :| uid in todo;
        todo := todo - {uid};
        if Pointer in byAgent[uid] {
          pointer := pointer + {uid};
        }
        if Keyboard in byAgent[uid] {
          keyboard := keyboard + {uid};
        }
      }
      assert pointer == AgentsWith(byAgent, Pointer);
      assert keyboard == AgentsWith(byAgent, Keyboard);
      policy := Policy(id, owner, SortedUids(pointer), SortedUids(keyboard));
      policies := policies[id := policy];
    }

    method SyncDerivedPolicy(id: SurfaceID, wire: Wire) returns (ok: bool)
      modifies this
      ensures View() == SyncDerived(old(View()), id, wire)
      ensures ok == (plugin.None? || wire.Arrived?)
    {
      var policy := RebuildSurfacePolicy(id);
      ok := true;
      if plugin.Some? {
        ok := SendMessage(plugin.value, Upsert(policy), wire);
      }
    }

    /** `logged` is whether the grant log accepted the record. */
    method GrantViewport(id: SurfaceID, agent: Uid, actions: seq<Action>, logged: bool, wire: Wire) returns (ok: bool)
      modifies this
      ensures View() == Grant(old(View()), id, agent, actions, logged, wire)
      ensures ok ==> agent in GrantsOf(View(), id) && GrantsOf(View(), id)[agent] == Normalize(actions)
    {
      hide SyncDerived;
      var normalized := NormalizeViewportActions(actions);
      if |normalized| == 0 || id !in surfaces || !logged {
        return false;
      }
      var byAgent := if id in grants then grants[id] else map[];
      grants := grants[id := byAgent[agent := normalized]];
      history := history + [Granted(id, agent, normalized)];
      GrantsKept(View(), id, wire);
      ok := SyncDerivedPolicy(id, wire);
    }

    method RevokeViewport(id: SurfaceID, agent: Uid, logged: bool, wire: Wire) returns (ok: bool)
      modifies this
      ensures View() == Revoke(old(View()), id, agent, logged, wire)
      ensures ok ==> agent !in GrantsOf(View(), id)
    {
      hide SyncDerived;
      if id !in grants || agent !in grants[id] || !logged {
        return false;
      }
      var byAgent := grants[id] - {agent};
      grants := if byAgent == map[] then grants - {id} else grants[id := byAgent];
      history := history + [Revoked(id, agent)];
      ok := true;
      if id in surfaces {
        GrantsKept(View(), id, wire);
        ok := SyncDerivedPolicy(id, wire);
      }
    }

    method HandleSurfaceEvent(e: Event, wire: Wire)
      modifies this
      ensures View() == HandleEvent(old(View()), e, wire)
    {
      hide SyncDerived, HandleMapped, HandleRefresh, HandleUnmapped;
      match e.name {
        case Mapped => SurfaceMapped(e, wire);
        case Unmapped => SurfaceUnmapped(e, wire);
        case OtherEvent =>
        case _ => SurfaceRefreshed(e, wire);
      }
    }

    method SurfaceMapped(e: Event, wire: Wire)
      requires e.name == Mapped
      modifies this
      ensures View() == HandleMapped(old(View()), e, wire)
    {
      hide SyncDerived;
      var tracked := Surface(e.uid, KindOf(e), false);
      if e.id in surfaces {
        tracked := tracked.(focused := surfaces[e.id].focused);
      }
      surfaces := surfaces[e.id := tracked];
      if tracked.kind != LAYER_SHELL {
        var _ := SyncDerivedPolicy(e.id, wire);
      }
    }

    method SurfaceRefreshed(e: Event, wire: Wire)
      requires RefreshEvent(e.name)
      modifies this
      ensures View() == HandleRefresh(old(View()), e, wire)
    {
      hide SyncDerived;
      var tracked := Surface(e.uid, KindOf(e), e.name == Focused);
      if e.name == Focused || e.name == Restored {
        surfaces := Unfocused(surfaces, e.id);
      }
      if e.id in surfaces {
        if e.name != Focused && e.name != Restored {
          tracked := tracked.(focused := surfaces[e.id].focused);
        }
        if e.name == Minimized {
          tracked := tracked.(focused := false);
        }
      }
      surfaces := surfaces[e.id := tracked];
      if tracked.kind != LAYER_SHELL && e.id !in policies {
        var _ := SyncDerivedPolicy(e.id, wire);
      }
    }

    method SurfaceUnmapped(e: Event, wire: Wire)
      requires e.name == Unmapped
      modifies this
      ensures View() == HandleUnmapped(old(View()), e, wire)
    {
      surfaces := surfaces - {e.id};
      policies := policies - {e.id};
      grants := grants - {e.id};
      history := history + [UnmapMark(e.id)];
      if plugin.Some? {
        var _ := SendMessage(plugin.value, Remove(e.id), wire);
      }
    }

    method RemoveLayerShellSurfaces(ids: set<SurfaceID>)
      modifies this`surfaces
      ensures View() == ForgetLayerShell(old(View()), ids)
    {
      var todo := ids;
      while todo != {}
        invariant todo <= ids
        invariant surfaces == map id | id in old(surfaces) && !(id in ids && id !in todo && old(surfaces)[id].kind == LAYER_SHELL) :: old(surfaces)[id]
      {
        var id :| id in todo;
        todo := todo - {id};
        if id in surfaces && surfaces[id].kind == LAYER_SHELL {
          surfaces := surfaces - {id};
        }
      }
    }
  }

  lemma GrantsKept(s: State, id: SurfaceID, wire: Wire)
    ensures SyncDerived(s, id, wire).grants == s.grants && SyncDerived(s, id, wire).surfaces == s.surfaces
    ensures SyncDerived(s, id, wire).history == s.history && SyncDerived(s, id, wire).actor == s.actor
    ensures SyncDerived(s, id, wire).plugin == s.plugin
    ensures SyncDerived(s, id, wire).policies == s.policies[id := Derived(id, OwnerOf(s, id), GrantsOf(s, id))]
  {
  }

  // ---------- runs ----------

  datatype Step =
    | InstallStep(session: nat)
    | ClearStep(session: nat)
    | SyncStep(session: nat, first: Wire, second: Wire)
    | ManualUpsert(policy: Policy, wire: Wire)
    | ManualRemove(id: SurfaceID, wire: Wire)
    | ContextStep(actor: Option<Uid>, wire: Wire)
    | GrantStep(id: SurfaceID, agent: Uid, actions: seq<Action>, logged: bool, wire: Wire)
    | RevokeStep(id: SurfaceID, agent: Uid, logged: bool, wire: Wire)
    | EventStep(event: Event, wire: Wire)
    | LaunchExit(ids: set<SurfaceID>)
    | MoveStep(id: SurfaceID)

  /** A connection is installed once; a move may finish after its surface is gone. */
  predicate Enabled(s: State, step: Step) {
    step.InstallStep? ==> step.session !in s.sessions
  }

  function Next(s: State, step: Step): State {
    if !Enabled(s, step) then s
    else
      match step
      case InstallStep(session) => Install(s, session)
      case ClearStep(session) => Clear(s, session)
      case SyncStep(session, first, second) => Sync(s, session, first, second)
      case ManualUpsert(policy, wire) => UpsertPolicy(s, policy, wire)
      case ManualRemove(id, wire) => RemovePolicy(s, id, wire)
      case ContextStep(actor, wire) => SetContext(s, actor, wire)
      case GrantStep(id, agent, actions, logged, wire) => Grant(s, id, agent, actions, logged, wire)
      case RevokeStep(id, agent, logged, wire) => Revoke(s, id, agent, logged, wire)
      case EventStep(event, wire) => HandleEvent(s, event, wire)
      case LaunchExit(ids) => ForgetLayerShell(s, ids)
      case MoveStep(id) => FinishMove(s, id)
  }

  function Run(trace: seq<Step>): State {
    if trace == [] then START else Next(Run(trace[..|trace| - 1]), trace[|trace| - 1])
  }

  // ---------- the plugin's copy agrees with the bridge ----------

  ghost predicate Keyed(s: State) {
    forall id :: id in s.policies ==> s.policies[id].surfaceID == id
  }

  ghost predicate InSync(s: State) {
    s.plugin.Some? ==>
      && s.plugin.value in s.sessions
      && var x := s.sessions[s.plugin.value];
         x.synced && !x.failed ==> x.cache == s.policies && x.actor == s.actor
  }

  /** The part of the policy map that a listing names. */
  ghost function Listed(policies: map<SurfaceID, Policy>, ids: seq<SurfaceID>): map<SurfaceID, Policy> {
    map id | id in policies && id in ids :: policies[id]
  }

  lemma ListedGrows(policies: map<SurfaceID, Policy>, front: seq<SurfaceID>, last: SurfaceID)
    ensures Listed(policies, front + [last]) ==
      if last in policies then Listed(policies, front)[last := policies[last]] else Listed(policies, front)
  {
  }

  lemma FromListLast(list: seq<Policy>, p: Policy)
    ensures FromList(list + [p]) == FromList(list)[p.surfaceID := p]
  {
    assert (list + [p])[..|list|] == list;
  }

  lemma {:induction false} FromListOf(policies: map<SurfaceID, Policy>, ids: seq<SurfaceID>)
    requires forall id :: id in policies ==> policies[id].surfaceID == id
    ensures FromList(ListOf(policies, ids)) == Listed(policies, ids)
  {
    if ids == [] {
      assert FromList([]) == map[];
    } else {
      hide Listed, FromList;
      var last, front := ids[|ids| - 1], ids[..|ids| - 1];
      assert ids == front + [last];
      FromListOf(policies, front);
      ListedGrows(policies, front, last);
      var list := ListOf(policies, front);
      if last in policies {
        FromListLast(list, policies[last]);
      } else {
        assert list + [] == list;
      }
    }
  }

  /** Reading the snapshot back gives the policy map, whatever order it was listed in. */
  lemma SnapshotIsFaithful(policies: map<SurfaceID, Policy>)
    requires forall id :: id in policies ==> policies[id].surfaceID == id
    ensures FromList(Snapshot(policies)) == policies
  {
    hide FromList, ListOf, SortedStrings;
    FromListOf(policies, SortedStrings(policies.Keys));
    SortedStringsListing(policies.Keys);
  }

  lemma SendKeepsSync(s: State, t: State, msg: PluginMsg, wire: Wire)
    requires InSync(s) && t.plugin == s.plugin && t.sessions == s.sessions
    requires forall x: Session :: x.cache == s.policies && x.actor == s.actor ==>
      Receive(x, msg).cache == t.policies && Receive(x, msg).actor == t.actor
    ensures InSync(Send(t, msg, wire))
  {
    hide FromList;
  }

  lemma SyncDerivedKeeps(s: State, t: State, id: SurfaceID, wire: Wire)
    requires InSync(s) && Keyed(s)
    requires t.plugin == s.plugin && t.sessions == s.sessions && t.policies == s.policies && t.actor == s.actor
    ensures InSync(SyncDerived(t, id, wire)) && Keyed(SyncDerived(t, id, wire))
  {
    hide Derived, Send, FromList;
    var policy := Derived(id, OwnerOf(t, id), GrantsOf(t, id));
    assert policy.surfaceID == id by { DerivedKey(id, OwnerOf(t, id), GrantsOf(t, id)); }
    SendKeepsSync(s, t.(policies := t.policies[id := policy]), Upsert(policy), wire);
    SendPolicies(t.(policies := t.policies[id := policy]), Upsert(policy), wire);
  }

  lemma DerivedKey(id: SurfaceID, owner: Uid, grants: Grants)
    ensures Derived(id, owner, grants).surfaceID == id
  {
  }

  lemma SendPolicies(s: State, msg: PluginMsg, wire: Wire)
    ensures var t := Send(s, msg, wire);
      t.policies == s.policies && t.surfaces == s.surfaces && t.grants == s.grants && t.history == s.history
      && t.actor == s.actor && t.plugin == s.plugin
  {
  }

  /** A sync both of whose messages arrive leaves that plugin in agreement, whatever
      was lost on it before. */
  lemma SyncRestores(s: State, session: nat)
    requires Keyed(s) && session in s.sessions
    ensures var x := Sync(s, session, Arrived, Arrived).sessions[session];
      x.synced && !x.failed && x.cache == s.policies && x.actor == s.actor
  {
    hide FromList, Snapshot;
    SnapshotIsFaithful(s.policies);
  }

  lemma SyncKeeps(s: State, session: nat, first: Wire, second: Wire)
    requires InSync(s) && Keyed(s)
    ensures InSync(Sync(s, session, first, second)) && Keyed(Sync(s, session, first, second))
  {
    hide FromList, Snapshot;
    SnapshotIsFaithful(s.policies);
  }

  lemma EventKeepsSync(s: State, e: Event, wire: Wire)
    requires InSync(s) && Keyed(s)
    ensures InSync(HandleEvent(s, e, wire)) && Keyed(HandleEvent(s, e, wire))
  {
    hide SyncDerived, FromList, Send, Unfocused, InSync, Keyed;
    if e.name == Mapped {
      var was := e.id in s.surfaces && s.surfaces[e.id].focused;
      SurfacesOnlyKeepSync(s, s.surfaces[e.id := Surface(e.uid, KindOf(e), was)]);
      SyncDerivedKeeps(s, s.(surfaces := s.surfaces[e.id := Surface(e.uid, KindOf(e), was)]), e.id, wire);
    } else if RefreshEvent(e.name) {
      var refreshed := Refreshed(s, e);
      SurfacesOnlyKeepSync(s, refreshed);
      SyncDerivedKeeps(s, s.(surfaces := refreshed), e.id, wire);
    } else if e.name == Unmapped {
      UnmapKeepsSync(s, e, wire);
    }
  }

  lemma SurfacesOnlyKeepSync(s: State, surfaces: map<SurfaceID, Surface>)
    requires InSync(s) && Keyed(s)
    ensures InSync(s.(surfaces := surfaces)) && Keyed(s.(surfaces := surfaces))
  {
  }

  lemma UnmapKeepsSync(s: State, e: Event, wire: Wire)
    requires InSync(s) && Keyed(s)
    ensures InSync(HandleUnmapped(s, e, wire)) && Keyed(HandleUnmapped(s, e, wire))
  {
    hide FromList;
    var t := s.(surfaces := s.surfaces - {e.id}, policies := s.policies - {e.id}, grants := s.grants - {e.id},
                history := s.history + [UnmapMark(e.id)]);
    SendKeepsSync(s, t, Remove(e.id), wire);
    SendPolicies(t, Remove(e.id), wire);
  }

  lemma NextKeepsSync(s: State, step: Step)
    requires InSync(s) && Keyed(s)
    ensures InSync(Next(s, step)) && Keyed(Next(s, step))
  {
    hide SyncDerived, HandleEvent, Sync, FromList, Send, Normalize;
    match step {
      case SyncStep(session, first, second) => SyncKeeps(s, session, first, second);
      case ManualUpsert(policy, wire) =>
        var t := s.(policies := s.policies[policy.surfaceID := policy]);
        SendKeepsSync(s, t, Upsert(policy), wire);
        SendPolicies(t, Upsert(policy), wire);
      case ManualRemove(id, wire) =>
        var t := s.(policies := s.policies - {id});
        SendKeepsSync(s, t, Remove(id), wire);
        SendPolicies(t, Remove(id), wire);
      case ContextStep(actor, wire) =>
        var t := s.(actor := actor);
        SendKeepsSync(s, t, InputContext(actor), wire);
        SendPolicies(t, InputContext(actor), wire);
      case GrantStep(id, agent, actions, _, wire) =>
        var granted := Normalize(actions);
        SyncDerivedKeeps(s, s.(grants := s.grants[id := GrantsOf(s, id)[agent := granted]],
                               history := s.history + [Granted(id, agent, granted)]), id, wire);
      case RevokeStep(id, agent, _, wire) =>
        if agent in GrantsOf(s, id) {
          var left := s.grants[id] - {agent};
          SyncDerivedKeeps(s, s.(grants := if left == map[] then s.grants - {id} else s.grants[id := left],
                                 history := s.history + [Revoked(id, agent)]), id, wire);
        }
      case EventStep(event, wire) => EventKeepsSync(s, event, wire);
      case _ =>
    }
  }

  /** In every run, with any interleaving of installs, syncs, edits, grants and
      surface events and any pattern of failed sends: if the installed plugin has
      completed its sync and no send on it has failed since, its cache is the bridge's
      policy map and its input context the bridge's. */
  lemma {:induction false} CacheAgrees(trace: seq<Step>)
    ensures var s := Run(trace);
      s.plugin.Some? ==>
        && s.plugin.value in s.sessions
        && var x := s.sessions[s.plugin.value];
           x.synced && !x.failed ==> x.cache == s.policies && x.actor == s.actor
    ensures Keyed(Run(trace))
  {
    if trace != [] {
      CacheAgrees(trace[..|trace| - 1]);
      NextKeepsSync(Run(trace[..|trace| - 1]), trace[|trace| - 1]);
    }
  }

  /** A further successful sync of the installed plugin restores agreement in any run. */
  lemma SyncRestoresInRuns(trace: seq<Step>)
    requires Run(trace).plugin.Some?
    ensures var s := Run(trace + [SyncStep(Run(trace).plugin.value, Arrived, Arrived)]);
      s.plugin == Run(trace).plugin && s.plugin.value in s.sessions
      && s.sessions[s.plugin.value].cache == s.policies && s.sessions[s.plugin.value].actor == s.actor
  {
    hide Sync, FromList, Snapshot;
    var step := SyncStep(Run(trace).plugin.value, Arrived, Arrived);
    assert (trace + [step])[..|trace|] == trace;
    CacheAgrees(trace);
    SyncRestores(Run(trace), step.session);
    SyncLeavesRest(Run(trace), step.session, Arrived, Arrived);
  }

  lemma SyncLeavesRest(s: State, session: nat, first: Wire, second: Wire)
    ensures var t := Sync(s, session, first, second); t == s.(sessions := t.sessions) && t.sessions.Keys == s.sessions.Keys
  {
    hide FromList, Snapshot;
  }

  // ---------- three answers to one access question ----------

  function Apply(grants: Grants, r: Record, id: SurfaceID): Grants {
    if r.surfaceID != id then grants
    else
      match r
      case Granted(_, agent, actions) => grants[agent := actions]
      case Revoked(_, agent) => grants - {agent}
      case UnmapMark(_) => map[]
  }

  /** What the grant log, replayed since a surface's last unmap, grants on it. */
  function Replay(history: seq<Record>, id: SurfaceID): Grants {
    if history == [] then map[] else Apply(Replay(history[..|history| - 1], id), history[|history| - 1], id)
  }

  lemma ReplayStep(history: seq<Record>, r: Record, id: SurfaceID)
    ensures Replay(history + [r], id) == Apply(Replay(history, id), r, id)
  {
    assert (history + [r])[..|history|] == history;
  }

  /** The stored policy of a tracked surface is the one derived from its owner and grants. */
  ghost predicate PolicyCurrent(s: State, id: SurfaceID) {
    id in s.surfaces && id in s.policies && s.policies[id] == Derived(id, s.surfaces[id].uid, GrantsOf(s, id))
  }

  ghost predicate LogAgrees(s: State, id: SurfaceID) {
    GrantsOf(s, id) == Replay(s.history, id)
  }

  /** What holds of one surface whose client uid and kind never change. */
  ghost predicate Grounded(s: State, id: SurfaceID, uid: Uid, kind: string) {
    && LogAgrees(s, id)
    && (id in s.surfaces ==> s.surfaces[id].uid == uid && s.surfaces[id].kind == kind)
    && (kind != LAYER_SHELL ==>
         if id in s.surfaces then PolicyCurrent(s, id) else id !in s.policies && id !in s.grants)
  }

  /** A step that leaves surface `id` its client uid and kind: no manual edit of its
      policy, events that report the same, and moves that finish while it is there. */
  predicate FixedStep(s: State, step: Step, id: SurfaceID, uid: Uid, kind: string) {
    match step
    case ManualUpsert(policy, _) => policy.surfaceID != id
    case ManualRemove(removed, _) => removed != id
    case EventStep(e, _) => e.id == id ==> e.uid == uid && KindOf(e) == kind
    case MoveStep(moved) => moved == id ==> id in s.surfaces
    case _ => true
  }

  predicate FixedRun(trace: seq<Step>, id: SurfaceID, uid: Uid, kind: string) {
    trace == [] ||
    (FixedRun(trace[..|trace| - 1], id, uid, kind) && FixedStep(Run(trace[..|trace| - 1]), trace[|trace| - 1], id, uid, kind))
  }

  /** Re-deriving the policy of one surface leaves every surface grounded that was. */
  lemma SyncDerivedGrounds(s: State, other: SurfaceID, id: SurfaceID, uid: Uid, kind: string, wire: Wire)
    requires LogAgrees(s, id) && (id in s.surfaces ==> s.surfaces[id].uid == uid && s.surfaces[id].kind == kind)
    requires other != id ==> Grounded(s, id, uid, kind)
    requires other == id ==> id in s.surfaces
    ensures Grounded(SyncDerived(s, other, wire), id, uid, kind)
  {
    hide Derived, Replay, Send, SyncDerived;
    GrantsKept(s, other, wire);
  }

  lemma NextGrounded(s: State, step: Step, id: SurfaceID, uid: Uid, kind: string)
    requires Grounded(s, id, uid, kind) && FixedStep(s, step, id, uid, kind)
    ensures Grounded(Next(s, step), id, uid, kind)
  {
    hide Derived, Replay, Send, SyncDerived, Sync, Normalize, HandleEvent, FromList;
    match step {
      case SyncStep(session, first, second) => SyncLeavesRest(s, session, first, second);
      case ManualUpsert(policy, wire) => SendPolicies(s.(policies := s.policies[policy.surfaceID := policy]), Upsert(policy), wire);
      case ManualRemove(removed, wire) => SendPolicies(s.(policies := s.policies - {removed}), Remove(removed), wire);
      case ContextStep(actor, wire) => SendPolicies(s.(actor := actor), InputContext(actor), wire);
      case GrantStep(i, agent, actions, logged, wire) =>
        if Next(s, step) != s {
          var granted := Normalize(actions);
          ReplayStep(s.history, Granted(i, agent, granted), id);
          SyncDerivedGrounds(s.(grants := s.grants[i := GrantsOf(s, i)[agent := granted]],
                                history := s.history + [Granted(i, agent, granted)]), i, id, uid, kind, wire);
        }
      case RevokeStep(i, agent, logged, wire) =>
        if agent in GrantsOf(s, i) && logged {
          var left := s.grants[i] - {agent};
          ReplayStep(s.history, Revoked(i, agent), id);
          var t := s.(grants := if left == map[] then s.grants - {i} else s.grants[i := left],
                      history := s.history + [Revoked(i, agent)]);
          if i in s.surfaces {
            SyncDerivedGrounds(t, i, id, uid, kind, wire);
          }
        }
      case EventStep(e, wire) => EventGrounded(s, e, wire, id, uid, kind);
      case _ =>
    }
  }

  /** A refresh rewrites one record; of the others it can only clear the focus. */
  lemma RefreshedRecords(s: State, e: Event, id: SurfaceID)
    ensures id in Refreshed(s, e) <==> id in s.surfaces || id == e.id
    ensures e.id in Refreshed(s, e) && Refreshed(s, e)[e.id].uid == e.uid && Refreshed(s, e)[e.id].kind == KindOf(e)
    ensures id != e.id && id in s.surfaces ==>
      Refreshed(s, e)[id].uid == s.surfaces[id].uid && Refreshed(s, e)[id].kind == s.surfaces[id].kind
  {
  }

  lemma EventGrounded(s: State, e: Event, wire: Wire, id: SurfaceID, uid: Uid, kind: string)
    requires Grounded(s, id, uid, kind) && (e.id == id ==> e.uid == uid && KindOf(e) == kind)
    ensures Grounded(HandleEvent(s, e, wire), id, uid, kind)
  {
    hide Derived, Replay, HandleMapped, HandleRefresh, HandleUnmapped, KindOf;
    if e.name == Mapped {
      MappedGrounded(s, e, wire, id, uid, kind);
    } else if RefreshEvent(e.name) {
      RefreshGrounded(s, e, wire, id, uid, kind);
    } else if e.name == Unmapped {
      UnmapGrounded(s, e, wire, id, uid, kind);
    }
  }

  lemma MappedGrounded(s: State, e: Event, wire: Wire, id: SurfaceID, uid: Uid, kind: string)
    requires Grounded(s, id, uid, kind) && (e.id == id ==> e.uid == uid && KindOf(e) == kind)
    ensures Grounded(HandleMapped(s, e, wire), id, uid, kind)
  {
    hide Derived, Replay, SyncDerived, KindOf;
    var was := e.id in s.surfaces && s.surfaces[e.id].focused;
    if KindOf(e) != LAYER_SHELL {
      SyncDerivedGrounds(s.(surfaces := s.surfaces[e.id := Surface(e.uid, KindOf(e), was)]), e.id, id, uid, kind, wire);
    }
  }

  lemma RefreshGrounded(s: State, e: Event, wire: Wire, id: SurfaceID, uid: Uid, kind: string)
    requires Grounded(s, id, uid, kind) && (e.id == id ==> e.uid == uid && KindOf(e) == kind)
    ensures Grounded(HandleRefresh(s, e, wire), id, uid, kind)
  {
    hide Derived, Replay, SyncDerived, KindOf, Refreshed;
    RefreshedRecords(s, e, id);
    if KindOf(e) != LAYER_SHELL && e.id !in s.policies {
      SyncDerivedGrounds(s.(surfaces := Refreshed(s, e)), e.id, id, uid, kind, wire);
    }
  }

  lemma UnmapGrounded(s: State, e: Event, wire: Wire, id: SurfaceID, uid: Uid, kind: string)
    requires Grounded(s, id, uid, kind)
    ensures Grounded(HandleUnmapped(s, e, wire), id, uid, kind)
  {
    hide Derived, Replay, Send;
    ReplayStep(s.history, UnmapMark(e.id), id);
    SendPolicies(s.(surfaces := s.surfaces - {e.id}, policies := s.policies - {e.id}, grants := s.grants - {e.id},
                    history := s.history + [UnmapMark(e.id)]), Remove(e.id), wire);
  }

  lemma {:induction false} RunGrounded(trace: seq<Step>, id: SurfaceID, uid: Uid, kind: string)
    requires FixedRun(trace, id, uid, kind)
    ensures Grounded(Run(trace), id, uid, kind)
  {
    if trace != [] {
      RunGrounded(trace[..|trace| - 1], id, uid, kind);
      NextGrounded(Run(trace[..|trace| - 1]), trace[|trace| - 1], id, uid, kind);
    }
  }

  /** For a tracked surface that is not layer-shell, after any run that keeps its uid
      and kind and edits no policy by hand: replaying the grant log, asking the bridge,
      and looking in the derived policy's owner and allow lists all give one answer. */
  lemma ThreeAnswersAgree(trace: seq<Step>, id: SurfaceID, uid: Uid, kind: string, agent: Uid, action: Action)
    requires FixedRun(trace, id, uid, kind) && kind != LAYER_SHELL && id in Run(trace).surfaces
    requires action == Pointer || action == Keyboard
    ensures var s := Run(trace);
      var replayed := Replay(s.history, id);
      && id in s.policies
      && var policy := s.policies[id];
         var listed := if action == Pointer then policy.allowPointer else policy.allowKeyboard;
         && (CheckAccess(s, id, agent, action).0 <==> agent == uid || (agent in replayed && action in replayed[agent]))
         && (CheckAccess(s, id, agent, action).0 <==> agent == policy.ownerUID || agent in listed)
  {
    hide Run, Replay, SortedUids;
    RunGrounded(trace, id, uid, kind);
    var s := Run(trace);
    var g := GrantsOf(s, id);
    SortedUidsMembers(AgentsWith(g, Pointer), agent);
    SortedUidsMembers(AgentsWith(g, Keyboard), agent);
  }

  // ---------- where the agreement stops ----------

  /** A refresh event that reports another client uid changes the owner but not the
      policy: agreement survives it exactly when the uid is the one on record. */
  lemma RefreshKeepsPolicyIff(s: State, e: Event, wire: Wire)
    requires PolicyCurrent(s, e.id) && RefreshEvent(e.name) && KindOf(e) != LAYER_SHELL
    ensures PolicyCurrent(HandleEvent(s, e, wire), e.id) <==> e.uid == s.surfaces[e.id].uid
  {
    hide SortedUids;
  }

  /** A move that finishes after its surface was unmapped brings back a record with
      owner uid 0 and no policy: agreement holds afterwards exactly when the surface
      was still tracked. */
  lemma LateMoveKeepsPolicyIff(trace: seq<Step>, id: SurfaceID, uid: Uid, kind: string)
    requires FixedRun(trace, id, uid, kind) && kind != LAYER_SHELL
    ensures var s := FinishMove(Run(trace), id);
      && (PolicyCurrent(s, id) <==> id in Run(trace).surfaces)
      && (id !in Run(trace).surfaces ==> CheckAccess(s, id, 0, Pointer).0 && id !in s.policies)
  {
    hide Run, Derived, Replay;
    RunGrounded(trace, id, uid, kind);
  }

  // ---------- at most one stored surface is focused ----------

  ghost predicate OneFocused(s: State) {
    forall a, b :: a in s.surfaces && b in s.surfaces && s.surfaces[a].focused && s.surfaces[b].focused ==> a == b
  }

  lemma NextOneFocused(s: State, step: Step)
    requires OneFocused(s)
    ensures OneFocused(Next(s, step))
  {
    hide Derived, Send, SyncDerived, Sync, Normalize, FromList;
    match step {
      case SyncStep(session, first, second) => SyncLeavesRest(s, session, first, second);
      case ManualUpsert(policy, wire) => SendPolicies(s.(policies := s.policies[policy.surfaceID := policy]), Upsert(policy), wire);
      case ManualRemove(id, wire) => SendPolicies(s.(policies := s.policies - {id}), Remove(id), wire);
      case ContextStep(actor, wire) => SendPolicies(s.(actor := actor), InputContext(actor), wire);
      case GrantStep(i, agent, actions, _, wire) =>
        GrantsKept(s.(grants := s.grants[i := GrantsOf(s, i)[agent := Normalize(actions)]],
                      history := s.history + [Granted(i, agent, Normalize(actions))]), i, wire);
      case RevokeStep(i, agent, _, wire) =>
        if agent in GrantsOf(s, i) {
          var left := s.grants[i] - {agent};
          GrantsKept(s.(grants := if left == map[] then s.grants - {i} else s.grants[i := left],
                        history := s.history + [Revoked(i, agent)]), i, wire);
        }
      case EventStep(e, wire) => EventOneFocused(s, e, wire);
      case _ =>
    }
  }

  lemma EventOneFocused(s: State, e: Event, wire: Wire)
    requires OneFocused(s)
    ensures OneFocused(HandleEvent(s, e, wire))
  {
    hide SyncDerived, Send, Refreshed, KindOf;
    var was := e.id in s.surfaces && s.surfaces[e.id].focused;
    if e.name == Mapped {
      GrantsKept(s.(surfaces := s.surfaces[e.id := Surface(e.uid, KindOf(e), was)]), e.id, wire);
    } else if RefreshEvent(e.name) {
      RefreshedOneFocused(s, e);
      GrantsKept(s.(surfaces := Refreshed(s, e)), e.id, wire);
    } else if e.name == Unmapped {
      SendPolicies(s.(surfaces := s.surfaces - {e.id}, policies := s.policies - {e.id}, grants := s.grants - {e.id},
                      history := s.history + [UnmapMark(e.id)]), Remove(e.id), wire);
    }
  }

  lemma RefreshedOneFocused(s: State, e: Event)
    requires OneFocused(s) && RefreshEvent(e.name)
    ensures OneFocused(s.(surfaces := Refreshed(s, e)))
  {
    hide KindOf;
  }

  lemma {:induction false} AtMostOneFocused(trace: seq<Step>, a: SurfaceID, b: SurfaceID)
    requires a in Run(trace).surfaces && b in Run(trace).surfaces
    requires Run(trace).surfaces[a].focused && Run(trace).surfaces[b].focused
    ensures a == b
  {
    RunOneFocused(trace);
  }

  lemma {:induction false} RunOneFocused(trace: seq<Step>)
    ensures OneFocused(Run(trace))
  {
    hide Next;
    if trace != [] {
      RunOneFocused(trace[..|trace| - 1]);
      NextOneFocused(Run(trace[..|trace| - 1]), trace[|trace| - 1]);
    }
  }
}
