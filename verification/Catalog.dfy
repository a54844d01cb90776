/** The application catalog (internal/appcatalog/catalog.go): merging an overlay into a
    base, and validating, normalising and sorting the entries in place. */
module Catalog {
  import opened Text
  import opened Ordering

  datatype Entry = Entry(
    id: string, labelText: string, description: string, icon: string, tags: seq<string>,
    enabled: bool, reason: string, command: string, cwd: string, env: map<string, string>,
    role: string, expectedAppId: string, expectedTitle: string, output: string,
    waitSurface: Option<bool>, waitTimeoutMs: int, disabledTaskId: int)

  datatype Catalog = Catalog(version: int, entries: seq<Entry>)

  // ---------- what an entry must look like ----------

  predicate IdChar(c: char) {
    LowerOrDigit(c) || c == '_' || c == '-'
  }

  /** A lower-case letter or digit, then at most 63 letters, digits, '_' or '-'. */
  predicate ValidId(s: string) {
    && 1 <= |s| <= 64
    && LowerOrDigit(s[0])
    && forall i :: 0 <= i < |s| ==> IdChar(s[i])
  }

  predicate EnvHead(c: char) {
    'A' <= c <= 'Z' || c == '_'
  }

  predicate ValidEnvKey(s: string) {
    && s != ""
    && EnvHead(s[0])
    && forall i :: 0 <= i < |s| ==> EnvHead(s[i]) || IsDigit(s[i])
  }

  predicate DeniedEnvKey(s: string) {
    s == "LD_PRELOAD" || s == "PATH"
  }

  datatype Fault =
    | InvalidId(at: nat, id: string)
    | DuplicateId(id: string)
    | LabelRequired(id: string)
    | ReasonRequired(id: string)
    | CommandRequired(id: string)
    | RoleUnsupported(id: string, role: string)
    | EnvKeyInvalid(id: string, key: string)
    | EnvKeyDenied(id: string, key: string)

  function RoleOr(s: string): string {
    if TrimSpace(s) == "" then "toplevel" else TrimSpace(s)
  }

  function Normal(e: Entry): Entry {
    e.(id := TrimSpace(e.id),
       labelText := TrimSpace(e.labelText),
       command := TrimSpace(e.command),
       reason := TrimSpace(e.reason),
       role := RoleOr(e.role),
       waitSurface := if e.waitSurface.None? then Some(e.enabled) else e.waitSurface,
       waitTimeoutMs := if e.enabled && e.waitTimeoutMs <= 0 then 10000 else e.waitTimeoutMs)
  }

  function Normals(es: seq<Entry>): (r: seq<Entry>)
    ensures |r| == |es|
    ensures forall i :: 0 <= i < |es| ==> r[i] == Normal(es[i])
  {
    seq(|es|, i requires 0 <= i < |es| => Normal(es[i]))
  }

  predicate EnvFine(env: map<string, string>) {
    forall k :: k in env ==> ValidEnvKey(k) && !DeniedEnvKey(k)
  }

  /** What a normalised entry needs by itself, whatever the others are. */
  predicate Sound(e: Entry) {
    && ValidId(e.id)
    && e.labelText != ""
    && (if e.enabled then e.command != "" && e.role == "toplevel" && EnvFine(e.env) else e.reason != "")
  }

  predicate Fresh(es: seq<Entry>, i: nat)
    requires i < |es|
  {
    forall j :: 0 <= j < i ==> es[j].id != es[i].id
  }

  /** The first complaint about normalised entry i; with several bad environment keys
      any of them may be named. */
  predicate Offends(es: seq<Entry>, i: nat, f: Fault)
    requires i < |es|
  {
    var e := es[i];
    if !ValidId(e.id) then f == InvalidId(i, e.id)
    else if !Fresh(es, i) then f == DuplicateId(e.id)
    else if e.labelText == "" then f == LabelRequired(e.id)
    else if !e.enabled then e.reason == "" && f == ReasonRequired(e.id)
    else if e.command == "" then f == CommandRequired(e.id)
    else if e.role != "toplevel" then f == RoleUnsupported(e.id, e.role)
    else exists k :: k in e.env && KeyOffends(e.id, k, f)
  }

  predicate KeyOffends(id: string, k: string, f: Fault) {
    if !ValidEnvKey(k) then f == EnvKeyInvalid(id, k) else DeniedEnvKey(k) && f == EnvKeyDenied(id, k)
  }

  predicate FineUpTo(es: seq<Entry>, n: nat)
    requires n <= |es|
  {
    forall i :: 0 <= i < n ==> Sound(es[i]) && Fresh(es, i)
  }

  const ID: Entry -> string := (e: Entry) => e.id

  predicate Accepted(es: seq<Entry>) {
    FineUpTo(Normals(es), |es|)
  }

  function ValidVersion(v: int): int {
    if v == 0 then 1 else v
  }

  /** What Validate makes of a catalog it accepts. */
  function Validated(c: Catalog): Catalog {
    Catalog(ValidVersion(c.version), StableSort(ID, Normals(c.entries)))
  }

  datatype Verdict = Valid(version: int) | Rejected(fault: Fault)

  method CheckEnv(e: Entry) returns (fault: Option<Fault>)
    ensures fault.None? ==> EnvFine(e.env)
    ensures fault.Some? ==> exists k :: k in e.env && KeyOffends(e.id, k, fault.value)
  {
    var todo := e.env.Keys;
    while todo != {}
      invariant todo <= e.env.Keys
      invariant forall k :: k in e.env && k !in todo ==> ValidEnvKey(k) && !DeniedEnvKey(k)
    {
      var key :| key in todo;
      todo := todo - {key};
      if !ValidEnvKey(key) {
        return Some(EnvKeyInvalid(e.id, key));
      }
      if DeniedEnvKey(key) {
        return Some(EnvKeyDenied(e.id, key));
      }
    }
    return None;
  }

  method CheckEntry(es: seq<Entry>, i: nat, seen: set<string>) returns (fault: Option<Fault>)
    requires i < |es| && (Fresh(es, i) <==> es[i].id !in seen)
    ensures fault.None? ==> Sound(es[i]) && Fresh(es, i)
    ensures fault.Some? ==> Offends(es, i, fault.value)
  {
    var entry := es[i];
    if !ValidId(entry.id) {
      return Some(InvalidId(i, entry.id));
    }
    if entry.id in seen {
      return Some(DuplicateId(entry.id));
    }
    if entry.labelText == "" {
      return Some(LabelRequired(entry.id));
    }
    if !entry.enabled {
      return if entry.reason == "" then Some(ReasonRequired(entry.id)) else None;
    }
    if entry.command == "" {
      return Some(CommandRequired(entry.id));
    }
    if entry.role != "toplevel" {
      return Some(RoleUnsupported(entry.id, entry.role));
    }
    fault := CheckEnv(entry);
  }

  /** Accepts exactly the catalogs whose normalised entries are all sound with distinct
      ids; the entries are rewritten in place, up to the first offender when rejecting. */
  method Validate(version: int, entries: array<Entry>) returns (verdict: Verdict)
    modifies entries
    ensures verdict.Valid? <==> Accepted(old(entries[..]))
    ensures verdict.Valid? ==> Catalog(verdict.version, entries[..]) == Validated(Catalog(version, old(entries[..])))
    ensures verdict.Rejected? ==> exists k: nat ::
      && k < |old(entries[..])|
      && FineUpTo(Normals(old(entries[..])), k)
      && Offends(Normals(old(entries[..])), k, verdict.fault)
      && entries[..] == Normals(old(entries[..]))[..k + 1] + old(entries[..])[k + 1..]
  {
    hide Normal, Sound, Offends, StableSort, Fresh, Normals, Rewritten;
    ghost var was := entries[..];
    ghost var normals := Normals(was);
    var seen: set<string> := {};
    RewriteNone(was);
    var i := 0;
    while i < entries.Length
      invariant 0 <= i <= entries.Length
      invariant Rewritten(entries[..], was, i)
      invariant FineUpTo(normals, i)
      invariant forall id :: id in seen <==> IdAmong(normals, i, id)
    {
      RewriteOne(entries[..], was, i);
      ghost var next := entries[..][i := Normal(entries[i])];
      entries[i] := Normal(entries[i]);
      assert entries[..] == next;
      FreshIff(normals, i);
      SameComplaint(entries[..], normals, i, InvalidId(0, ""));
      var fault := CheckEntry(entries[..], i, seen);
      if fault.Some? {
        SameComplaint(entries[..], normals, i, fault.value);
        NotAccepted(was, i, fault.value);
        RewrittenShape(entries[..], was, i + 1);
        return Rejected(fault.value);
      }
      seen := seen + {entries[i].id};
      i := i + 1;
    }
    RewrittenShape(entries[..], was, i);
    var sorted := StableSort(ID, entries[..]);
    forall k | 0 <= k < entries.Length {
      entries[k] := sorted[k];
    }
    assert entries[..] == sorted;
    return Valid(ValidVersion(version));
  }

  /** The first `i` entries are normalised, the others as they were. */
  ghost predicate Rewritten(es: seq<Entry>, was: seq<Entry>, i: nat) {
    && |es| == |was| && i <= |was|
    && forall j :: 0 <= j < |was| ==> es[j] == if j < i then Normals(was)[j] else was[j]
  }

  lemma RewriteNone(was: seq<Entry>)
    ensures Rewritten(was, was, 0)
  {
  }

  lemma RewriteOne(es: seq<Entry>, was: seq<Entry>, i: nat)
    requires Rewritten(es, was, i) && i < |was|
    ensures Rewritten(es[i := Normal(es[i])], was, i + 1)
    ensures |Normals(was)| == |was| && Normal(es[i]) == Normals(was)[i]
    ensures forall j :: 0 <= j <= i ==> es[i := Normal(es[i])][j] == Normals(was)[j]
  {
    hide Normal;
  }

  lemma RewrittenShape(es: seq<Entry>, was: seq<Entry>, i: nat)
    requires Rewritten(es, was, i)
    ensures es == Normals(was)[..i] + was[i..] && (i == |was| ==> es == Normals(was))
  {
    hide Normal;
  }

  ghost predicate IdAmong(es: seq<Entry>, n: nat, id: string)
    requires n <= |es|
  {
    exists j :: 0 <= j < n && es[j].id == id
  }

  lemma FreshIff(es: seq<Entry>, i: nat)
    requires i < |es|
    ensures Fresh(es, i) <==> !IdAmong(es, i, es[i].id)
    ensures forall id :: IdAmong(es, i + 1, id) <==> IdAmong(es, i, id) || id == es[i].id
  {
  }

  lemma SameComplaint(es: seq<Entry>, ns: seq<Entry>, i: nat, f: Fault)
    requires i < |es| == |ns| && (forall j :: 0 <= j <= i ==> es[j] == ns[j])
    ensures Fresh(es, i) <==> Fresh(ns, i)
    ensures Offends(es, i, f) <==> Offends(ns, i, f)
  {
    hide Sound;
  }

  lemma NotAccepted(es: seq<Entry>, i: nat, f: Fault)
    requires i < |es| && Offends(Normals(es), i, f)
    ensures !Accepted(es)
  {
    var e := Normals(es)[i];
    assert !(Sound(e) && Fresh(Normals(es), i));
  }

  // ---------- validation as a map on catalogs ----------

  lemma TrimTwice(s: string)
    ensures TrimSpace(TrimSpace(s)) == TrimSpace(s)
  {
    TrimOfTrimmed(TrimSpace(s));
  }

  lemma RoleTwice(s: string)
    ensures RoleOr(RoleOr(s)) == RoleOr(s)
  {
    ToplevelTrimmed();
    hide TrimSpace;
    TrimTwice(s);
  }

  lemma ToplevelTrimmed()
    ensures TrimSpace("toplevel") == "toplevel"
  {
    hide TrimSpace;
    TrimOfTrimmed("toplevel");
  }

  lemma NormalTwice(e: Entry)
    ensures Normal(Normal(e)) == Normal(e)
  {
    hide TrimSpace, RoleOr;
    TrimTwice(e.id);
    TrimTwice(e.labelText);
    TrimTwice(e.command);
    TrimTwice(e.reason);
    RoleTwice(e.role);
  }

  /** The form every accepted catalog has after validation. */
  ghost predicate Clean(es: seq<Entry>) {
    && (forall i :: 0 <= i < |es| ==> Sound(es[i]) && Normal(es[i]) == es[i])
    && Rising(ID, es)
  }

  lemma AcceptedMeans(es: seq<Entry>)
    ensures Accepted(es) <==> (forall i :: 0 <= i < |es| ==> Sound(Normal(es[i]))) && DistinctKeys(ID, Normals(es))
  {
    hide Sound, Normal, Less;
    var ns := Normals(es);
    if DistinctKeys(ID, ns) {
      assert forall i :: 0 <= i < |es| ==> Fresh(ns, i) by {
        assert forall i, j :: 0 <= j < i < |ns| ==> ID(ns[j]) != ID(ns[i]);
      }
    }
    if Accepted(es) {
      forall i, j | 0 <= i < j < |ns|
        ensures ID(ns[i]) != ID(ns[j])
      {
        assert Fresh(ns, j);
      }
    }
  }

  /** An accepted catalog comes out clean, and holds exactly its normalised entries. */
  lemma ValidatedIsClean(c: Catalog)
    requires Accepted(c.entries)
    ensures Clean(Validated(c).entries)
    ensures multiset(Validated(c).entries) == multiset(Normals(c.entries))
  {
    hide Sound, Normal, StableSort, Less;
    var ns := Normals(c.entries);
    var r := StableSort(ID, ns);
    AcceptedMeans(c.entries);
    SortRises(ID, ns);
    SortPermutes(ID, ns);
    forall i | 0 <= i < |r|
      ensures Sound(r[i]) && Normal(r[i]) == r[i]
    {
      SortMembers(ID, ns, r[i]);
      assert r[i] in ns;
      var j :| 0 <= j < |ns| && ns[j] == r[i];
      NormalTwice(c.entries[j]);
    }
  }

  lemma CleanNormals(es: seq<Entry>)
    requires forall i :: 0 <= i < |es| ==> Normal(es[i]) == es[i]
    ensures Normals(es) == es
  {
  }

  /** Clean catalogs are the fixed points: validation accepts them and changes nothing. */
  lemma CleanIsFixed(c: Catalog)
    requires Clean(c.entries) && c.version != 0
    ensures Accepted(c.entries) && Validated(c) == c
  {
    hide Sound, Normal, StableSort, Less;
    CleanNormals(c.entries);
    RisingDistinct(ID, c.entries);
    AcceptedMeans(c.entries);
    SortOfRising(ID, c.entries);
  }

  /** Validating a validated catalog accepts it and returns it unchanged. */
  lemma ValidateIsIdempotent(c: Catalog)
    requires Accepted(c.entries)
    ensures Accepted(Validated(c).entries) && Validated(Validated(c)) == Validated(c)
  {
    hide Clean, Accepted;
    ValidatedIsClean(c);
    CleanIsFixed(Validated(c));
  }

  const NORMAL_ID: Entry -> string := (e: Entry) => Normal(e).id

  lemma NormalKeys(es: seq<Entry>)
    ensures DistinctKeys(ID, Normals(es)) <==> DistinctKeys(NORMAL_ID, es)
  {
    hide Normal;
    var ns := Normals(es);
    assert forall i :: 0 <= i < |es| ==> ID(ns[i]) == NORMAL_ID(es[i]);
  }

  /** Whether a catalog is accepted does not depend on the order of its entries. */
  lemma AcceptedIgnoresOrder(a: seq<Entry>, b: seq<Entry>)
    requires multiset(a) == multiset(b)
    ensures Accepted(a) <==> Accepted(b)
  {
    if Accepted(a) {
      AcceptedPermutes(a, b);
    }
    if Accepted(b) {
      AcceptedPermutes(b, a);
    }
  }

  lemma AcceptedPermutes(a: seq<Entry>, b: seq<Entry>)
    requires multiset(a) == multiset(b) && Accepted(a)
    ensures Accepted(b)
  {
    hide Accepted, Normal, Sound, DistinctKeys, Normals;
    AcceptedMeans(a);
    AcceptedMeans(b);
    NormalKeys(a);
    NormalKeys(b);
    DistinctPermutes(NORMAL_ID, a, b);
    forall i | 0 <= i < |b|
      ensures Sound(Normal(b[i]))
    {
      assert b[i] in multiset(a);
      var j :| 0 <= j < |a| && a[j] == b[i];
    }
  }

  /** The order in which entries are listed does not matter: not to whether a catalog is
      accepted, nor to what comes out. */
  lemma ValidateIgnoresOrder(c: Catalog, d: Catalog)
    requires c.version == d.version && multiset(c.entries) == multiset(d.entries)
    ensures Accepted(c.entries) <==> Accepted(d.entries)
    ensures Accepted(c.entries) ==> Validated(c) == Validated(d)
  {
    hide Sound, Normal, StableSort, Less, Accepted;
    AcceptedIgnoresOrder(c.entries, d.entries);
    if Accepted(c.entries) {
      ValidatedIsClean(c);
      ValidatedIsClean(d);
      forall e
        ensures e in Validated(c).entries <==> e in Validated(d).entries
      {
        MemberOrigin(c, e);
        MemberOrigin(d, e);
        assert forall x :: x in c.entries <==> x in multiset(c.entries);
        assert forall x :: x in d.entries <==> x in multiset(d.entries);
      }
      RisingUnique(ID, Validated(c).entries, Validated(d).entries);
    }
  }

  lemma MemberOrigin(c: Catalog, e: Entry)
    ensures e in Validated(c).entries <==> exists x :: x in c.entries && Normal(x) == e
  {
    hide Normal, StableSort;
    var ns := Normals(c.entries);
    SortMembers(ID, ns, e);
    if e in ns {
      var j :| 0 <= j < |ns| && ns[j] == e;
      assert c.entries[j] in c.entries;
    }
    if x :| x in c.entries && Normal(x) == e {
      var j :| 0 <= j < |c.entries| && c.entries[j] == x;
      assert ns[j] == e;
    }
  }

  // ---------- merging ----------

  /** The last entry with this id, or -1. */
  function Last(es: seq<Entry>, id: string): (r: int)
    ensures -1 <= r < |es|
    ensures r >= 0 ==> es[r].id == id && forall j :: r < j < |es| ==> es[j].id != id
    ensures r < 0 ==> forall j :: 0 <= j < |es| ==> es[j].id != id
  {
    if es == [] then -1
    else if es[|es| - 1].id == id then |es| - 1
    else Last(es[..|es| - 1], id)
  }

  function Upsert(es: seq<Entry>, e: Entry): seq<Entry> {
    var i := Last(es, e.id);
    if i >= 0 then es[i := e] else es + [e]
  }

  function UpsertAll(es: seq<Entry>, overlay: seq<Entry>): seq<Entry> {
    if overlay == [] then es
    else Upsert(UpsertAll(es, overlay[..|overlay| - 1]), overlay[|overlay| - 1])
  }

  function Merged(base: Catalog, overlay: Catalog): Catalog {
    Catalog(if overlay.version != 0 then overlay.version else ValidVersion(base.version),
            UpsertAll(base.entries, overlay.entries))
  }

  method Merge(base: Catalog, overlay: Catalog) returns (out: Catalog)
    ensures out == Merged(base, overlay)
  {
    hide Last, UpsertAll;
    var version := if base.version == 0 then 1 else base.version;
    var entries := base.entries;
    if overlay.version != 0 {
      version := overlay.version;
    }
    assert base.entries == UpsertAll(base.entries, overlay.entries[..0]) by {
      UpsertNothing(base.entries, overlay.entries);
    }
    var index: map<string, int> := map[];
    for i := 0 to |entries|
      invariant forall id :: id in index <==> Last(entries[..i], id) >= 0
      invariant forall id :: id in index ==> index[id] == Last(entries[..i], id)
    {
      LastStep(entries, i);
      index := index[entries[i].id := i];
    }
    assert entries[..|entries|] == entries;
    for k := 0 to |overlay.entries|
      invariant forall id :: id in index <==> Last(entries, id) >= 0
      invariant forall id :: id in index ==> index[id] == Last(entries, id)
      invariant entries == UpsertAll(base.entries, overlay.entries[..k])
    {
      var entry := overlay.entries[k];
      UpsertAllStep(base.entries, overlay.entries, k);
      LastUpsert(entries, entry);
      if entry.id in index {
        entries := entries[index[entry.id] := entry];
      } else {
        index := index[entry.id := |entries|];
        entries := entries + [entry];
      }
    }
    assert overlay.entries[..|overlay.entries|] == overlay.entries;
    out := Catalog(version, entries);
  }

  lemma UpsertNothing(es: seq<Entry>, overlay: seq<Entry>)
    ensures UpsertAll(es, overlay[..0]) == es
  {
  }

  lemma LastStep(es: seq<Entry>, i: nat)
    requires i < |es|
    ensures forall id :: Last(es[..i + 1], id) == if id == es[i].id then i else Last(es[..i], id)
  {
    var longer, shorter := es[..i + 1], es[..i];
    assert longer[..i] == shorter;
    forall id
      ensures Last(longer, id) == if id == es[i].id then i else Last(shorter, id)
    {
    }
  }

  lemma UpsertAllStep(es: seq<Entry>, overlay: seq<Entry>, k: nat)
    requires k < |overlay|
    ensures UpsertAll(es, overlay[..k + 1]) == Upsert(UpsertAll(es, overlay[..k]), overlay[k])
  {
    hide Upsert;
    assert overlay[..k + 1][..k] == overlay[..k];
  }

  lemma LastUpsert(es: seq<Entry>, e: Entry)
    ensures forall id :: Last(Upsert(es, e), id) == if id != e.id || Last(es, id) >= 0 then Last(es, id) else |es|
  {
    hide Last;
    LastIs(es, e.id);
    var r := Upsert(es, e);
    forall id
      ensures Last(r, id) == if id != e.id || Last(es, id) >= 0 then Last(es, id) else |es|
    {
      LastIs(es, id);
      LastIs(r, id);
      var i := if id != e.id || Last(es, id) >= 0 then Last(es, id) else |es|;
      assert i >= 0 ==> IsLast(r, id, i);
    }
  }

  ghost predicate IsLast(es: seq<Entry>, id: string, i: int) {
    && 0 <= i < |es| && es[i].id == id
    && forall j :: i < j < |es| ==> es[j].id != id
  }

  lemma LastIs(es: seq<Entry>, id: string)
    ensures forall i :: IsLast(es, id, i) ==> Last(es, id) == i
    ensures (forall j :: 0 <= j < |es| ==> es[j].id != id) <==> Last(es, id) < 0
  {
  }

  function Lookup(es: seq<Entry>, id: string): Option<Entry> {
    var i := Last(es, id);
    if i >= 0 then Some(es[i]) else None
  }

  /** Catalog.Find walks the entries and takes the first match. */
  method Find(c: Catalog, id: string) returns (r: Option<Entry>)
    ensures r.None? <==> forall i :: 0 <= i < |c.entries| ==> c.entries[i].id != TrimSpace(id)
    ensures r.Some? ==> exists i :: 0 <= i < |c.entries| && c.entries[i] == r.value && r.value.id == TrimSpace(id) &&
                                    forall j :: 0 <= j < i ==> c.entries[j].id != TrimSpace(id)
    ensures DistinctKeys(ID, c.entries) ==> r == Lookup(c.entries, TrimSpace(id))
  {
    hide Last, TrimSpace, DistinctKeys;
    var id := TrimSpace(id);
    for i := 0 to |c.entries|
      invariant forall j :: 0 <= j < i ==> c.entries[j].id != id
    {
      if c.entries[i].id == id {
        OnlyMatch(c.entries, i);
        return Some(c.entries[i]);
      }
    }
    LastIs(c.entries, id);
    return None;
  }

  lemma OnlyMatch(es: seq<Entry>, i: nat)
    requires i < |es|
    ensures DistinctKeys(ID, es) ==> Last(es, es[i].id) == i
  {
    if DistinctKeys(ID, es) {
      assert forall j :: i < j < |es| ==> ID(es[i]) != ID(es[j]);
      assert IsLast(es, es[i].id, i);
      LastIs(es, es[i].id);
    }
  }

  lemma LookupUpsert(es: seq<Entry>, e: Entry, id: string)
    ensures Lookup(Upsert(es, e), id) == if id == e.id then Some(e) else Lookup(es, id)
  {
    hide Last;
    var r := Upsert(es, e);
    LastIs(es, e.id);
    LastIs(es, id);
    LastIs(r, id);
    if id == e.id {
      assert IsLast(r, id, if Last(es, id) >= 0 then Last(es, id) else |es|);
    } else if Last(es, id) >= 0 {
      assert IsLast(r, id, Last(es, id));
    }
  }

  /** The overlay's entry wins, otherwise the base's, whatever is listed twice. */
  lemma {:induction false} OverlayWins(base: seq<Entry>, overlay: seq<Entry>, id: string)
    ensures Lookup(UpsertAll(base, overlay), id) == if Lookup(overlay, id).Some? then Lookup(overlay, id) else Lookup(base, id)
  {
    hide Upsert;
    if overlay != [] {
      var n := |overlay| - 1;
      OverlayWins(base, overlay[..n], id);
      LookupUpsert(UpsertAll(base, overlay[..n]), overlay[n], id);
    }
  }

  lemma UpsertDistinct(es: seq<Entry>, e: Entry)
    requires DistinctKeys(ID, es)
    ensures DistinctKeys(ID, Upsert(es, e))
  {
    hide Last;
    LastIs(es, e.id);
    var r := Upsert(es, e);
    forall i, j | 0 <= i < j < |r|
      ensures ID(r[i]) != ID(r[j])
    {
      if j < |es| {
        assert ID(es[i]) != ID(es[j]);
      }
    }
  }

  lemma {:induction false} MergeDistinct(base: seq<Entry>, overlay: seq<Entry>)
    requires DistinctKeys(ID, base)
    ensures DistinctKeys(ID, UpsertAll(base, overlay))
  {
    hide Upsert, DistinctKeys;
    if overlay != [] {
      MergeDistinct(base, overlay[..|overlay| - 1]);
      UpsertDistinct(UpsertAll(base, overlay[..|overlay| - 1]), overlay[|overlay| - 1]);
    }
  }

  lemma {:induction false} MergeMembers(base: seq<Entry>, overlay: seq<Entry>, e: Entry)
    requires e in UpsertAll(base, overlay)
    ensures e in base || e in overlay
  {
    if overlay != [] {
      var n := |overlay| - 1;
      if e in UpsertAll(base, overlay[..n]) {
        MergeMembers(base, overlay[..n], e);
      }
      assert overlay == overlay[..n] + [overlay[n]];
    }
  }

  /** Merging two clean catalogs can only give a catalog that validation accepts. */
  lemma MergeOfClean(base: seq<Entry>, overlay: seq<Entry>)
    requires Clean(base) && Clean(overlay)
    ensures Accepted(UpsertAll(base, overlay))
  {
    hide Sound, Normal, Less, UpsertAll;
    var r := UpsertAll(base, overlay);
    RisingDistinct(ID, base);
    MergeDistinct(base, overlay);
    forall i | 0 <= i < |r|
      ensures Sound(r[i]) && Normal(r[i]) == r[i]
    {
      assert r[i] in r;
      MergeMembers(base, overlay, r[i]);
    }
    CleanNormals(r);
    AcceptedMeans(r);
  }

  // ---------- associativity ----------

  lemma UpsertTwice(es: seq<Entry>, e: Entry, f: Entry)
    requires e.id == f.id
    ensures Upsert(Upsert(es, e), f) == Upsert(es, f)
  {
    hide Last;
    var r := Upsert(es, e);
    LastIs(es, e.id);
    LastIs(r, e.id);
    var i := if Last(es, e.id) >= 0 then Last(es, e.id) else |es|;
    assert IsLast(r, e.id, i);
  }

  /** Updates of different ids commute once the first id is present. */
  lemma UpsertCommutes(es: seq<Entry>, e: Entry, f: Entry)
    requires e.id != f.id && Last(es, e.id) >= 0
    ensures Upsert(Upsert(es, f), e) == Upsert(Upsert(es, e), f)
  {
    hide Last;
    var i := Last(es, e.id);
    LastIs(es, e.id);
    LastIs(es, f.id);
    var re := es[i := e];
    LastIs(re, f.id);
    var rf := Upsert(es, f);
    LastIs(rf, e.id);
    assert IsLast(rf, e.id, i);
    if Last(es, f.id) >= 0 {
      assert IsLast(re, f.id, Last(es, f.id));
    }
  }

  lemma UpsertPresent(es: seq<Entry>, e: Entry, id: string)
    requires e.id == id || Last(es, id) >= 0
    ensures Last(Upsert(es, e), id) >= 0
  {
    hide Last;
    LookupUpsert(es, e, id);
  }

  /** An update commutes with later updates of other ids, once its id is present. */
  lemma {:induction false} UpsertPast(es: seq<Entry>, e: Entry, q: seq<Entry>)
    requires Last(es, e.id) >= 0 && forall j :: 0 <= j < |q| ==> q[j].id != e.id
    ensures Upsert(UpsertAll(es, q), e) == UpsertAll(Upsert(es, e), q)
    ensures Last(UpsertAll(es, q), e.id) >= 0
  {
    hide Upsert, Last;
    if q != [] {
      var n := |q| - 1;
      UpsertPast(es, e, q[..n]);
      UpsertCommutes(UpsertAll(es, q[..n]), e, q[n]);
      UpsertPresent(UpsertAll(es, q[..n]), q[n], e.id);
    }
  }

  lemma {:induction false} UpsertAllSplit(es: seq<Entry>, p: seq<Entry>, q: seq<Entry>)
    ensures UpsertAll(es, p + q) == UpsertAll(UpsertAll(es, p), q)
  {
    hide Upsert;
    if q == [] {
      assert p + q == p;
    } else {
      var n := |q| - 1;
      assert (p + q)[..|p + q| - 1] == p + q[..n];
      UpsertAllSplit(es, p, q[..n]);
    }
  }

  /** Updating the overlay first, or the merged list afterwards, is the same. */
  lemma UpsertThrough(es: seq<Entry>, m: seq<Entry>, e: Entry)
    ensures UpsertAll(es, Upsert(m, e)) == Upsert(UpsertAll(es, m), e)
  {
    var i := Last(m, e.id);
    if i < 0 {
      assert (m + [e])[..|m|] == m;
    } else {
      var p, q := m[..i], m[i + 1..];
      assert m == p + [m[i]] + q && m[i := e] == p + [e] + q;
      assert Upsert(m, e) == m[i := e];
      hide Upsert, Last, UpsertAll;
      var a := UpsertAll(es, p);
      UpsertAllMiddle(es, p, m[i], q);
      UpsertAllMiddle(es, p, e, q);
      UpsertPresent(a, m[i], e.id);
      UpsertPast(Upsert(a, m[i]), e, q);
      UpsertTwice(a, m[i], e);
    }
  }

  lemma UpsertAllMiddle(es: seq<Entry>, p: seq<Entry>, e: Entry, q: seq<Entry>)
    ensures UpsertAll(es, p + [e] + q) == UpsertAll(Upsert(UpsertAll(es, p), e), q)
  {
    hide Upsert;
    UpsertAllSplit(es, p + [e], q);
    assert (p + [e])[..|p|] == p;
  }

  /** Entries merge associatively, for all lists, duplicates included. */
  lemma {:induction false} EntriesAssociate(a: seq<Entry>, b: seq<Entry>, c: seq<Entry>)
    ensures UpsertAll(UpsertAll(a, b), c) == UpsertAll(a, UpsertAll(b, c))
  {
    hide Upsert;
    if c != [] {
      var n := |c| - 1;
      EntriesAssociate(a, b, c[..n]);
      UpsertThrough(a, UpsertAll(b, c[..n]), c[n]);
    }
  }

  /** Merge is associative except for one case of the version number: two unversioned
      overlays make a version 1 that overrides the base's own. */
  lemma MergeAssociativeIff(a: Catalog, b: Catalog, c: Catalog)
    ensures Merged(Merged(a, b), c) == Merged(a, Merged(b, c)) <==>
            b.version != 0 || c.version != 0 || a.version == 0 || a.version == 1
  {
    hide UpsertAll;
    EntriesAssociate(a.entries, b.entries, c.entries);
  }
}
