/** Catalogs built from imported candidates, and loading the catalog of a host
    (internal/appcatalog/catalog.go, internal/appcatalog/desktop_import.go). */
module CatalogLoad {
  import opened Text
  import opened Ordering
  import opened Catalog
  import opened DesktopImport
  import Exec

  datatype Outcome = Loaded(catalog: Catalog) | LoadFailed(error: LoadError)

  datatype LoadError = HostUnreadable | HostUndecodable | HostIdsNotUnique | Invalid(fault: Fault)

  // ---------- what a candidate gives ----------

  /** What every imported candidate looks like. */
  ghost predicate Shaped(c: Candidate) {
    && HasSuffix(c.desktop.desktopId, SUFFIX)
    && c.entry.id == CandidateId(c.desktop.desktopId)
    && c.entry.labelText != "" && Trimmed(c.entry.labelText)
    && c.entry.reason == ImportReason(c.desktop.desktopId)
    && c.entry.env == map[]
  }

  lemma {:induction false} FileLooksEligible(files: seq<DirEntry>, k: nat)
    requires k < |FileLooks(files)|
    ensures FileLooks(files)[k].File? && HasSuffix(Base(FileLooks(files)[k].path), SUFFIX)
  {
    hide Base, HasSuffix;
    if k < |FileLooks(files[..|files| - 1])| {
      FileLooksEligible(files[..|files| - 1], k);
    }
  }

  lemma {:induction false} LooksEligible(dirs: seq<Dir>, k: nat)
    requires k < |Looks(dirs)| && Looks(dirs)[k].File?
    ensures HasSuffix(Base(Looks(dirs)[k].path), SUFFIX)
  {
    hide Base, HasSuffix, FileLooks;
    var front, dir := Looks(dirs[..|dirs| - 1]), dirs[|dirs| - 1];
    if k < |front| {
      LooksEligible(dirs[..|dirs| - 1], k);
    } else if dir.listing.Listed? {
      FileLooksEligible(dir.listing.files, k - |front|);
    }
  }

  lemma {:induction false} PathOfLook(looks: seq<Look>, p: string) returns (k: nat)
    requires p in FilePaths(looks)
    ensures k < |looks| && looks[k] == File(p)
  {
    k := |looks| - 1;
    if p in FilePaths(looks[..|looks| - 1]) {
      k := PathOfLook(looks[..|looks| - 1], p);
    }
  }

  lemma AllPathsEligible(dirs: seq<Dir>, p: string)
    requires p in AllPaths(dirs)
    ensures HasSuffix(Base(p), SUFFIX)
  {
    hide Base, HasSuffix, Looks;
    var k := PathOfLook(Looks(dirs), p);
    LooksEligible(dirs, k);
  }

  lemma KeptShaped(fs: Files, opts: Options, dirs: seq<Dir>, c: Candidate)
    requires Kept(fs, opts, AllPaths(dirs), c)
    ensures Shaped(c)
  {
    hide CandidateId, HasSuffix, Base, TrimSpace, ImportReason;
    var paths := AllPaths(dirs);
    var k := KeptFrom(fs, opts, paths, c);
    AllPathsEligible(dirs, paths[k]);
  }

  function OverlayEntry(c: Candidate): Entry {
    var e := c.entry.(enabled := false, command := "");
    if TrimSpace(e.reason) == "" then e.(reason := ImportReason(c.desktop.desktopId)) else e
  }

  function InstalledEntry(c: Candidate): Entry
  {
    var desktopId := TrimSpace(c.desktop.desktopId);
    c.entry.(
      enabled := true,
      reason := "installed desktop application",
      command := "gtk-launch " + Exec.ShellQuote(TrimSuffix(desktopId, SUFFIX)),
      role := "toplevel",
      expectedTitle := c.entry.labelText,
      waitSurface := Some(false),
      waitTimeoutMs := 0,
      tags := if "installed" in c.entry.tags then c.entry.tags else c.entry.tags + ["installed"])
  }

  function OverlayEntries(cs: seq<Candidate>): (r: seq<Entry>)
    ensures |r| == |cs|
    ensures forall i :: 0 <= i < |cs| ==> r[i] == OverlayEntry(cs[i])
  {
    seq(|cs|, i requires 0 <= i < |cs| => OverlayEntry(cs[i]))
  }

  function InstalledEntries(cs: seq<Candidate>): (r: seq<Entry>)
    ensures |r| == |cs|
    ensures forall i :: 0 <= i < |cs| ==> r[i] == InstalledEntry(cs[i])
  {
    seq(|cs|, i requires 0 <= i < |cs| => InstalledEntry(cs[i]))
  }

  // ---------- neither catalog can be rejected ----------

  lemma IdIsTrimmed(id: string)
    requires ValidId(id)
    ensures TrimSpace(id) == id
  {
    TrimOfTrimmed(id);
  }

  /** Text round a non-blank character is not blank. */
  lemma NotBlank(s: string, i: nat)
    requires i < |s| && !IsSpace(s[i])
    ensures TrimSpace(s) != ""
  {
    hide TrimRight, TrimLeft, OccursAt, Trimmed;
    var left := TrimLeft(s);
    TrimLeftKeeps(s, i);
    TrimRightKeeps(left, i - (|s| - |left|));
  }

  lemma {:induction false} TrimLeftKeeps(s: string, i: nat)
    requires i < |s| && !IsSpace(s[i])
    ensures |s| - |TrimLeft(s)| <= i
  {
    if IsSpace(s[0]) {
      TrimLeftKeeps(s[1..], i - 1);
    }
  }

  lemma {:induction false} TrimRightKeeps(s: string, i: nat)
    requires i < |s| && !IsSpace(s[i])
    ensures |TrimRight(s)| > i
  {
    if IsSpace(s[|s| - 1]) {
      TrimRightKeeps(s[..|s| - 1], i);
    }
  }

  lemma SuffixNotBlank(s: string)
    requires HasSuffix(s, SUFFIX)
    ensures TrimSpace(s) != ""
  {
    assert s[|s| - |SUFFIX|..][7] == 'p';
    NotBlank(s, |s| - 1);
  }

  lemma ImportReasonNotBlank(desktopId: string)
    ensures TrimSpace(ImportReason(desktopId)) != ""
  {
    hide TrimSpace;
    assert ImportReason(desktopId)[0] == 'i';
    NotBlank(ImportReason(desktopId), 0);
  }

  lemma OverlaySound(c: Candidate)
    requires Shaped(c)
    ensures Sound(Normal(OverlayEntry(c))) && Normal(OverlayEntry(c)).id == c.entry.id
  {
    hide CandidateId, TrimSpace, HasSuffix, ImportReason, RoleOr;
    CandidateIdIsValid(c.desktop.desktopId);
    IdIsTrimmed(c.entry.id);
    TrimOfTrimmed(c.entry.labelText);
    ImportReasonNotBlank(c.desktop.desktopId);
  }

  lemma LaunchCommandNotBlank(name: string)
    ensures TrimSpace("gtk-launch " + Exec.ShellQuote(name)) != ""
  {
    hide TrimSpace, Exec.ShellQuote;
    var s := "gtk-launch " + Exec.ShellQuote(name);
    assert s[0] == 'g';
    NotBlank(s, 0);
  }

  lemma ToplevelRole()
    ensures RoleOr("toplevel") == "toplevel"
  {
    TrimOfTrimmed("toplevel");
  }

  lemma InstalledSound(c: Candidate)
    requires Shaped(c)
    ensures Sound(Normal(InstalledEntry(c))) && Normal(InstalledEntry(c)).id == c.entry.id
  {
    hide CandidateId, TrimSpace, HasSuffix, ImportReason, RoleOr, TrimSuffix, Exec.ShellQuote;
    CandidateIdIsValid(c.desktop.desktopId);
    IdIsTrimmed(c.entry.id);
    TrimOfTrimmed(c.entry.labelText);
    LaunchCommandNotBlank(TrimSuffix(TrimSpace(c.desktop.desktopId), SUFFIX));
    ToplevelRole();
  }

  /** Entries with the candidates' ids, each sound, are accepted as they are listed. */
  lemma FromCandidates(cs: seq<Candidate>, es: seq<Entry>)
    requires Rising(BY_ID, cs) && |es| == |cs|
    requires forall i :: 0 <= i < |cs| ==> Sound(Normal(es[i])) && Normal(es[i]).id == cs[i].entry.id
    ensures Accepted(es) && Validated(Catalog(1, es)) == Catalog(1, Normals(es)) && Clean(Normals(es))
  {
    hide Sound, Normal, Less, Accepted, StableSort;
    var ns := Normals(es);
    forall i, j | 0 <= i < j < |ns|
      ensures Less(ID(ns[i]), ID(ns[j]))
    {
      assert Less(BY_ID(cs[i]), BY_ID(cs[j]));
    }
    RisingDistinct(ID, ns);
    AcceptedMeans(es);
    SortOfRising(ID, ns);
    ValidatedIsClean(Catalog(1, es));
  }

  method ValidateList(version: int, es: seq<Entry>) returns (r: Outcome)
    ensures r.Loaded? <==> Accepted(es)
    ensures r.Loaded? ==> r.catalog == Validated(Catalog(version, es))
    ensures r.LoadFailed? ==> r.error.Invalid?
  {
    hide Accepted, Validated, FineUpTo, Offends;
    var entries := new Entry[|es|](i requires 0 <= i < |es| => es[i]);
    assert entries[..] == es;
    var verdict := Validate(version, entries);
    if verdict.Rejected? {
      return LoadFailed(Invalid(verdict.fault));
    }
    return Loaded(Catalog(verdict.version, entries[..]));
  }

  ghost predicate KeptList(fs: Files, opts: Options, dirs: seq<Dir>, cs: seq<Candidate>) {
    && Rising(BY_ID, cs)
    && forall c :: c in cs <==> Kept(fs, opts, AllPaths(dirs), c)
  }

  lemma KeptListShaped(fs: Files, opts: Options, dirs: seq<Dir>, cs: seq<Candidate>)
    requires KeptList(fs, opts, dirs, cs)
    ensures forall i :: 0 <= i < |cs| ==> Shaped(cs[i])
  {
    hide Shaped, Kept;
    forall i | 0 <= i < |cs|
      ensures Shaped(cs[i])
    {
      assert cs[i] in cs;
      KeptShaped(fs, opts, dirs, cs[i]);
    }
  }

  /** The loop over the candidates; a blank desktop id would be passed over. */
  method ListInstalled(cs: seq<Candidate>) returns (entries: seq<Entry>)
    requires forall i :: 0 <= i < |cs| ==> Shaped(cs[i])
    ensures entries == InstalledEntries(cs)
  {
    hide Shaped, InstalledEntry, TrimSpace;
    entries := [];
    for i := 0 to |cs|
      invariant entries == InstalledEntries(cs[..i])
    {
      DesktopIdNotBlank(cs[i]);
      if TrimSpace(cs[i].desktop.desktopId) == "" {
        continue;
      }
      entries := entries + [InstalledEntry(cs[i])];
      assert entries == InstalledEntries(cs[..i + 1]);
    }
    assert cs[..|cs|] == cs;
  }

  /** Never fails: every candidate gives one enabled entry, in id order. */
  method InstalledDesktopCatalog(fs: Files, opts: Options, dirs: seq<Dir>) returns (r: Outcome)
    ensures r.Loaded? && r.catalog.version == 1 && Clean(r.catalog.entries)
    ensures exists cs :: KeptList(fs, opts, dirs, cs) && r.catalog.entries == Normals(InstalledEntries(cs))
  {
    var artifact := ImportDesktopCandidates(fs, opts, dirs);
    var cs := artifact.candidates;
    ImportedList(fs, opts, dirs, artifact);
    hide Imports, KeptList, Shaped, InstalledEntries, Normals, Accepted, Validated, Clean;
    KeptListShaped(fs, opts, dirs, cs);
    InstalledOfImport(fs, opts, dirs, cs);
    var entries := ListInstalled(cs);
    r := ValidateList(1, entries);
  }

  lemma ImportedList(fs: Files, opts: Options, dirs: seq<Dir>, artifact: Artifact)
    requires Imports(fs, opts, dirs, artifact)
    ensures KeptList(fs, opts, dirs, artifact.candidates)
  {
    hide Kept, Rising, AllPaths;
  }

  /** The installed entries of an import's candidates are never rejected. */
  lemma InstalledOfImport(fs: Files, opts: Options, dirs: seq<Dir>, cs: seq<Candidate>)
    requires KeptList(fs, opts, dirs, cs)
    ensures Accepted(InstalledEntries(cs))
    ensures Validated(Catalog(1, InstalledEntries(cs))) == Catalog(1, Normals(InstalledEntries(cs)))
    ensures Clean(Normals(InstalledEntries(cs)))
  {
    hide Kept, Rising, Shaped, InstalledEntry, Normals, Accepted, Validated, Clean, AllPaths, Normal, Sound;
    KeptListShaped(fs, opts, dirs, cs);
    var entries := InstalledEntries(cs);
    forall i | 0 <= i < |cs|
      ensures Sound(Normal(entries[i])) && Normal(entries[i]).id == cs[i].entry.id
    {
      InstalledSound(cs[i]);
    }
    FromCandidates(cs, entries);
  }

  lemma DesktopIdNotBlank(c: Candidate)
    requires Shaped(c)
    ensures TrimSpace(c.desktop.desktopId) != ""
  {
    hide TrimSpace, HasSuffix;
    SuffixNotBlank(c.desktop.desktopId);
  }

  /** Whatever the artifact: one disabled entry for each candidate, accepted exactly when
      they are sound with distinct ids. */
  method CatalogOverlay(candidates: seq<Candidate>) returns (r: Outcome)
    ensures r.Loaded? <==> Accepted(OverlayEntries(candidates))
    ensures r.Loaded? ==> r.catalog == Validated(Catalog(1, OverlayEntries(candidates)))
  {
    hide OverlayEntry, Accepted, Validated;
    var entries: seq<Entry> := [];
    for i := 0 to |candidates|
      invariant entries == OverlayEntries(candidates[..i])
    {
      entries := entries + [OverlayEntry(candidates[i])];
      assert entries == OverlayEntries(candidates[..i + 1]);
    }
    assert candidates[..|candidates|] == candidates;
    r := ValidateList(1, entries);
  }

  /** The overlay of an import's own candidates is never rejected: they come out in id
      order, each disabled. */
  lemma OverlayOfImport(fs: Files, opts: Options, dirs: seq<Dir>, artifact: Artifact)
    requires Imports(fs, opts, dirs, artifact)
    ensures Accepted(OverlayEntries(artifact.candidates))
    ensures Validated(Catalog(1, OverlayEntries(artifact.candidates))) == Catalog(1, Normals(OverlayEntries(artifact.candidates)))
    ensures Clean(Normals(OverlayEntries(artifact.candidates)))
  {
    hide Kept, Rising, Shaped, OverlayEntry, Normals, Accepted, Validated, Clean, AllPaths, Normal, Sound;
    var cs := artifact.candidates;
    ImportedList(fs, opts, dirs, artifact);
    KeptListShaped(fs, opts, dirs, cs);
    var entries := OverlayEntries(cs);
    forall i | 0 <= i < |cs|
      ensures Sound(Normal(entries[i])) && Normal(entries[i]).id == cs[i].entry.id
    {
      OverlaySound(cs[i]);
    }
    FromCandidates(cs, entries);
  }

  // ---------- loading ----------

  const TERMINAL := Entry("terminal", "Terminal", "Open a foot terminal", "terminal", ["system", "terminal"],
                          true, "default Agora shell tool", "foot", "", map[], "toplevel", "foot", "", "",
                          Some(true), 10000, 0)

  const DEFAULT := Catalog(1, [TERMINAL])

  lemma DefaultIsClean()
    ensures Clean(DEFAULT.entries)
  {
    hide TrimSpace;
    TrimOfTrimmed("terminal");
    TrimOfTrimmed("Terminal");
    TrimOfTrimmed("foot");
    TrimOfTrimmed("default Agora shell tool");
    TrimOfTrimmed("toplevel");
  }

  /** What the host's own catalog file holds. */
  datatype HostFile = Absent | Unreadable | Undecodable | Host(catalog: Catalog)

  function IdAt(es: seq<Entry>, i: nat): string
    requires i < |es|
  {
    TrimSpace(es[i].id)
  }

  predicate NewId(es: seq<Entry>, i: nat)
    requires i < |es|
  {
    && IdAt(es, i) != ""
    && forall j :: 0 <= j < i ==> IdAt(es, j) != IdAt(es, i)
  }

  /** No blank id and no two alike once trimmed. */
  predicate UniqueIds(es: seq<Entry>) {
    forall i :: 0 <= i < |es| ==> NewId(es, i)
  }

  method CheckUniqueIds(es: seq<Entry>) returns (ok: bool)
    ensures ok <==> UniqueIds(es)
  {
    hide IdAt;
    var seen: set<string> := {};
    for i := 0 to |es|
      invariant forall j :: 0 <= j < i ==> IdAt(es, j) in seen
      invariant forall id :: id in seen ==> exists j :: 0 <= j < i && IdAt(es, j) == id
      invariant forall j :: 0 <= j < i ==> NewId(es, j)
    {
      var id := IdAt(es, i);
      if id in seen {
        assert !NewId(es, i);
        return false;
      }
      seen := seen + {id};
      if id == "" {
        assert !NewId(es, i);
        return false;
      }
      assert NewId(es, i);
    }
    return true;
  }

  /** The catalog a host file is laid over. */
  ghost predicate BaseCatalog(fs: Files, opts: Options, dirs: seq<Dir>, includeInstalled: bool, base: Catalog) {
    if includeInstalled then
      exists cs :: KeptList(fs, opts, dirs, cs) && base == Merged(DEFAULT, Catalog(1, Normals(InstalledEntries(cs))))
    else base == DEFAULT
  }

  method LoadBase(fs: Files, opts: Options, dirs: seq<Dir>, includeInstalled: bool) returns (base: Catalog)
    ensures BaseCatalog(fs, opts, dirs, includeInstalled, base) && Accepted(base.entries)
  {
    hide Clean, Accepted, KeptList, UpsertAll, InstalledEntries, Normals;
    base := DEFAULT;
    DefaultIsClean();
    if includeInstalled {
      var desktop := InstalledDesktopCatalog(fs, opts, dirs);
      base := Merge(base, desktop.catalog);
      MergeOfClean(DEFAULT.entries, desktop.catalog.entries);
    } else {
      CleanIsFixed(DEFAULT);
    }
  }

  /** Without a host file loading never fails; with one it fails exactly when the file's
      ids are not unique or the merged catalog is not accepted. What loads is clean. */
  method Load(fs: Files, opts: Options, dirs: seq<Dir>, includeInstalled: bool, host: HostFile) returns (r: Outcome)
    ensures r.Loaded? ==> Clean(r.catalog.entries)
    ensures host.Unreadable? || host.Undecodable? ==> r.LoadFailed?
    ensures exists base: Catalog ::
      && BaseCatalog(fs, opts, dirs, includeInstalled, base)
      && (host.Absent? ==> r == Loaded(Validated(base)))
      && (host.Host? ==> (r.Loaded? <==> UniqueIds(host.catalog.entries) && Accepted(Merged(base, host.catalog).entries)))
      && (host.Host? && r.Loaded? ==> r.catalog == Validated(Merged(base, host.catalog)))
  {
    hide Clean, Accepted, Validated, UniqueIds, BaseCatalog, Merged;
    var base := LoadBase(fs, opts, dirs, includeInstalled);
    match host {
      case Absent =>
        r := ValidateList(base.version, base.entries);
        ValidatedIsClean(base);
      case Unreadable =>
        r := LoadFailed(HostUnreadable);
      case Undecodable =>
        r := LoadFailed(HostUndecodable);
      case Host(catalog) =>
        r := LoadFailed(HostIdsNotUnique);
        var unique := CheckUniqueIds(catalog.entries);
        if unique {
          var merged := Merge(base, catalog);
          r := ValidateList(merged.version, merged.entries);
          if r.Loaded? {
            ValidatedIsClean(merged);
          }
        }
    }
  }
}
