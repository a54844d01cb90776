/** The catalog's rules in plain terms (internal/appcatalog/catalog.go): what an entry must
    be, what normalising makes of it, which fault is named, and where merging puts
    entries. */
module CatalogLaws {
  import opened Text
  import opened Ordering
  import opened Catalog

  predicate IdText(s: string) {
    && 1 <= |s| <= 64 && ('a' <= s[0] <= 'z' || '0' <= s[0] <= '9')
    && forall i :: 0 <= i < |s| ==> 'a' <= s[i] <= 'z' || '0' <= s[i] <= '9' || s[i] == '_' || s[i] == '-'
  }

  predicate EnvName(s: string) {
    && s != "" && ('A' <= s[0] <= 'Z' || s[0] == '_')
    && forall i :: 0 <= i < |s| ==> 'A' <= s[i] <= 'Z' || '0' <= s[i] <= '9' || s[i] == '_'
  }

  /** What an entry needs by itself, read off its own fields. */
  predicate Presentable(e: Entry) {
    && IdText(TrimSpace(e.id))
    && TrimSpace(e.labelText) != ""
    && (!e.enabled ==> TrimSpace(e.reason) != "")
    && (e.enabled ==>
         && TrimSpace(e.command) != ""
         && (TrimSpace(e.role) == "" || TrimSpace(e.role) == "toplevel")
         && forall k :: k in e.env ==> EnvName(k) && k != "LD_PRELOAD" && k != "PATH")
  }

  lemma NormalMeans(e: Entry)
    ensures var n := Normal(e);
      && n.id == TrimSpace(e.id) && n.labelText == TrimSpace(e.labelText) && n.command == TrimSpace(e.command)
      && n.reason == TrimSpace(e.reason)
      && n.role == (if TrimSpace(e.role) == "" then "toplevel" else TrimSpace(e.role))
      && n.waitSurface == Some(if e.waitSurface.Some? then e.waitSurface.value else e.enabled)
      && n.waitTimeoutMs == (if e.enabled && e.waitTimeoutMs <= 0 then 10000 else e.waitTimeoutMs)
      && n == e.(id := n.id, labelText := n.labelText, command := n.command, reason := n.reason, role := n.role,
                 waitSurface := n.waitSurface, waitTimeoutMs := n.waitTimeoutMs)
  {
    hide TrimSpace;
  }

  lemma IdMeans(s: string)
    ensures ValidId(s) <==> IdText(s)
  {
  }

  lemma EnvMeans(env: map<string, string>)
    ensures EnvFine(env) <==> forall k :: k in env ==> EnvName(k) && k != "LD_PRELOAD" && k != "PATH"
  {
    forall k
      ensures ValidEnvKey(k) <==> EnvName(k)
    {
      KeyMeans(k);
    }
    hide EnvName, ValidEnvKey;
  }

  lemma SoundMeans(e: Entry)
    ensures Sound(Normal(e)) <==> Presentable(e)
  {
    NormalMeans(e);
    IdMeans(TrimSpace(e.id));
    EnvMeans(e.env);
    hide TrimSpace, Normal, ValidId, IdText, EnvFine, EnvName, OccursAt, Trimmed, TrimLeft, TrimRight;
  }

  /** A catalog is accepted exactly when every entry is presentable and no two trimmed ids
      are alike. */
  lemma AcceptedIff(es: seq<Entry>)
    ensures Accepted(es) <==>
      && (forall i :: 0 <= i < |es| ==> Presentable(es[i]))
      && (forall i, j :: 0 <= i < j < |es| ==> TrimSpace(es[i].id) != TrimSpace(es[j].id))
  {
    AcceptedMeans(es);
    hide TrimSpace, Accepted, Sound, Presentable;
    forall i | 0 <= i < |es|
      ensures Sound(Normal(es[i])) <==> Presentable(es[i])
      ensures ID(Normals(es)[i]) == TrimSpace(es[i].id)
    {
      SoundMeans(es[i]);
    }
  }

  ghost predicate BadKey(id: string, k: string, f: Fault) {
    if EnvName(k) then (k == "LD_PRELOAD" || k == "PATH") && f == EnvKeyDenied(id, k)
    else f == EnvKeyInvalid(id, k)
  }

  /** The fault named for an entry is the first of these that applies to it. */
  lemma FaultMeans(es: seq<Entry>, i: nat, f: Fault)
    requires i < |es| && Offends(es, i, f)
    ensures var e := es[i];
      var twice := exists j :: 0 <= j < i && es[j].id == e.id;
      if !IdText(e.id) then f == InvalidId(i, e.id)
      else if twice then f == DuplicateId(e.id)
      else if e.labelText == "" then f == LabelRequired(e.id)
      else if !e.enabled then f == ReasonRequired(e.id) && e.reason == ""
      else if e.command == "" then f == CommandRequired(e.id)
      else if e.role != "toplevel" then f == RoleUnsupported(e.id, e.role)
      else exists k :: k in e.env && BadKey(e.id, k, f)
  {
    var e := es[i];
    if exists k :: k in e.env && KeyOffends(e.id, k, f) {
      var k :| k in e.env && KeyOffends(e.id, k, f);
      KeyMeans(k);
    }
    hide EnvName, ValidEnvKey;
  }

  lemma KeyMeans(k: string)
    ensures ValidEnvKey(k) <==> EnvName(k)
  {
  }

  // ---------- merging ----------

  /** Merging keeps the place of every base entry, only ever replacing it by one with the
      same id, and appends what is new. */
  lemma {:induction false} MergeKeepsPlaces(base: seq<Entry>, overlay: seq<Entry>)
    ensures var r := UpsertAll(base, overlay);
      && |base| <= |r| <= |base| + |overlay|
      && (forall i :: 0 <= i < |base| ==> r[i].id == base[i].id)
      && (forall i :: |base| <= i < |r| ==> Last(base, r[i].id) < 0 && exists j :: 0 <= j < |overlay| && overlay[j].id == r[i].id)
  {
    hide Last;
    if overlay != [] {
      var n := |overlay| - 1;
      MergeKeepsPlaces(base, overlay[..n]);
      var m := UpsertAll(base, overlay[..n]);
      var r := Upsert(m, overlay[n]);
      LastIs(m, overlay[n].id);
      LastIs(base, overlay[n].id);
      forall i | |base| <= i < |r|
        ensures Last(base, r[i].id) < 0 && exists j :: 0 <= j < |overlay| && overlay[j].id == r[i].id
      {
        if i < |m| {
          var j :| 0 <= j < n && overlay[..n][j].id == m[i].id;
          assert overlay[j].id == r[i].id;
        } else {
          assert overlay[n].id == r[i].id;
          assert forall k :: 0 <= k < |base| ==> m[k].id == base[k].id;
        }
      }
    }
  }

  /** New entries come in the order in which the overlay first names them. */
  lemma {:induction false} NewInOrder(base: seq<Entry>, overlay: seq<Entry>)
    requires DistinctKeys(ID, overlay) && forall e :: e in overlay ==> Last(base, e.id) < 0
    ensures UpsertAll(base, overlay) == base + overlay
  {
    hide Last;
    if overlay != [] {
      var n := |overlay| - 1;
      assert forall i, j :: 0 <= i < j < n ==> ID(overlay[i]) != ID(overlay[j]);
      NewInOrder(base, overlay[..n]);
      var m := base + overlay[..n];
      LastIs(m, overlay[n].id);
      LastIs(base, overlay[n].id);
      assert overlay[n] in overlay;
      forall k | 0 <= k < |m|
        ensures m[k].id != overlay[n].id
      {
        if k >= |base| {
          assert m[k] == overlay[k - |base|];
          assert ID(overlay[k - |base|]) != ID(overlay[n]);
        }
      }
      assert m + [overlay[n]] == base + overlay;
    } else {
      assert base + [] == base;
    }
  }

  /** The version of a merge: the overlay's if it has one, else the base's, else 1. */
  lemma VersionMeans(base: Catalog, overlay: Catalog)
    ensures Merged(base, overlay).version ==
      if overlay.version != 0 then overlay.version else if base.version != 0 then base.version else 1
    ensures Validated(base).version == if base.version != 0 then base.version else 1
  {
  }
}
