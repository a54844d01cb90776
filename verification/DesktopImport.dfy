/** Importing desktop entries as catalog candidates (internal/appcatalog/desktop_import.go)
    and turning them into catalogs (internal/appcatalog/catalog.go). */
module DesktopImport {
  import opened Text
  import opened Ordering
  import opened Sorting
  import opened Catalog
  import Exec

  // ---------- candidate ids ----------

  function TrimSuffix(s: string, suffix: string): string {
    if |suffix| <= |s| && s[|s| - |suffix|..] == suffix then s[..|s| - |suffix|] else s
  }

  predicate HasSuffix(s: string, suffix: string) {
    |suffix| <= |s| && s[|s| - |suffix|..] == suffix
  }

  function DotsToDashes(s: string): (r: string)
    ensures |r| == |s|
    ensures forall i :: 0 <= i < |s| ==> r[i] == if s[i] == '.' then '-' else s[i]
  {
    seq(|s|, i requires 0 <= i < |s| => if s[i] == '.' then '-' else s[i])
  }

  /** Every run of characters no id may hold becomes one dash. */
  function CleanRuns(s: string, inRun: bool): (r: string)
    ensures forall i :: 0 <= i < |r| ==> IdChar(r[i])
    decreases s
  {
    if s == "" then ""
    else if IdChar(s[0]) then [s[0]] + CleanRuns(s[1..], false)
    else (if inRun then "" else "-") + CleanRuns(s[1..], true)
  }

  predicate Punct(c: char) {
    c == '-' || c == '_'
  }

  function TrimPunctLeft(s: string): (r: string)
    ensures r == "" || !Punct(r[0])
    ensures |r| <= |s| && r == s[|s| - |r|..]
    ensures forall i :: 0 <= i < |s| - |r| ==> Punct(s[i])
  {
    if s != "" && Punct(s[0]) then TrimPunctLeft(s[1..]) else s
  }

  function TrimPunctRight(s: string): (r: string)
    ensures r == "" || !Punct(r[|r| - 1])
    ensures r <= s
    ensures forall i :: |r| <= i < |s| ==> Punct(s[i])
  {
    if s != "" && Punct(s[|s| - 1]) then TrimPunctRight(s[..|s| - 1]) else s
  }

  function CleanBase(base: string): string {
    TrimPunctRight(TrimPunctLeft(CleanRuns(DotsToDashes(ToLower(base)), false)))
  }

  const SUFFIX := ".desktop"

  function CandidateId(desktopId: string): string {
    var clean := CleanBase(TrimSuffix(desktopId, SUFFIX));
    var id := "desktop-" + if clean == "" then "unknown" else clean;
    if |id| > 64 then TrimPunctRight(id[..64]) else id
  }

  predicate AllIdChars(s: string) {
    forall i :: 0 <= i < |s| ==> IdChar(s[i])
  }

  lemma CleanBaseIsClean(base: string)
    ensures AllIdChars(CleanBase(base))
    ensures CleanBase(base) != "" ==> !Punct(CleanBase(base)[0]) && !Punct(CleanBase(base)[|CleanBase(base)| - 1])
  {
    hide CleanRuns, TrimPunctLeft, TrimPunctRight;
    var runs := CleanRuns(DotsToDashes(ToLower(base)), false);
    var left := TrimPunctLeft(runs);
    var r := TrimPunctRight(left);
    assert forall i :: 0 <= i < |left| ==> left[i] in runs;
    assert forall i :: 0 <= i < |r| ==> r[i] == left[i];
  }

  lemma PrefixedId(clean: string)
    requires AllIdChars(clean) && clean != "" && !Punct(clean[|clean| - 1])
    ensures AllIdChars("desktop-" + clean) && ("desktop-" + clean)[..7] == "desktop"
    ensures !Punct(("desktop-" + clean)[|clean| + 7])
  {
  }

  /** Whatever the file is called, its candidate id fits the catalog's id pattern, starts
      with "desktop" and ends in a letter or digit. */
  lemma CandidateIdIsValid(desktopId: string)
    ensures ValidId(CandidateId(desktopId))
    ensures "desktop" <= CandidateId(desktopId)
    ensures !Punct(CandidateId(desktopId)[|CandidateId(desktopId)| - 1])
  {
    hide CleanBase, TrimPunctRight;
    var clean := CleanBase(TrimSuffix(desktopId, SUFFIX));
    CleanBaseIsClean(TrimSuffix(desktopId, SUFFIX));
    var body := if clean == "" then "unknown" else clean;
    PrefixedId(body);
    var id := "desktop-" + body;
    if |id| > 64 {
      var r := TrimPunctRight(id[..64]);
      assert id[6] == 'p' by { assert id[..7][6] == 'p'; }
      assert id[..64][6] == 'p';
      assert r == id[..|r|];
      assert r[..7] == id[..7];
      assert LowerOrDigit(id[0]) by { assert id[..7][0] == 'd'; }
    } else {
      assert LowerOrDigit(id[0]) by { assert id[..7][0] == 'd'; }
    }
  }

  lemma {:induction false} CleanRunsKeeps(s: string)
    requires AllIdChars(s)
    ensures CleanRuns(s, false) == s
  {
    if s != "" {
      CleanRunsKeeps(s[1..]);
    }
  }

  lemma IdCharsAreLower(s: string)
    requires AllIdChars(s)
    ensures ToLower(s) == s
  {
  }

  /** A name that is already in id form is kept, so such names never collide. */
  lemma CleanNamesAreKept(name: string)
    requires AllIdChars(name) && name != "" && |name| <= 56
    requires !Punct(name[0]) && !Punct(name[|name| - 1])
    ensures CandidateId(name + SUFFIX) == "desktop-" + name
  {
    hide CleanRuns, ToLower;
    assert TrimSuffix(name + SUFFIX, SUFFIX) == name;
    IdCharsAreLower(name);
    assert DotsToDashes(name) == name;
    CleanRunsKeeps(name);
  }

  // ---------- one file ----------

  datatype FileRead = Failed | Groups(groups: map<string, map<string, string>>)

  datatype Options = Options(includeHidden: bool, includeNoDisplay: bool)

  datatype Metadata = Metadata(
    desktopId: string, path: string, exec: string, parsedArgv: seq<string>, execParseError: string,
    hidden: bool, noDisplay: bool, dbusActivatable: bool)

  datatype Candidate = Candidate(entry: Entry, desktop: Metadata)

  datatype Reason =
    | Unreadable | NoMainGroup | NotAnApplication | MissingName | HiddenSkipped | NoDisplaySkipped | MissingExec
    | DirUnreadable | Duplicate(id: string, keeping: string)

  datatype Diagnostic = Diagnostic(path: string, reason: Reason)

  datatype Imported = Importing(candidate: Candidate) | NotImported(reason: Reason)

  function Value(group: map<string, string>, key: string): string {
    if key in group then group[key] else ""
  }

  predicate DesktopBool(raw: string) {
    ToLower(TrimSpace(raw)) == "true"
  }

  /** The last element of a path. */
  function Base(path: string): string
    decreases path
  {
    if exists i :: 0 <= i < |path| && path[i] == '/' then Base(path[1..]) else path
  }

  function SplitList(raw: string): seq<string> {
    NonEmpty(Split(raw, ';'))
  }

  function NonEmpty(parts: seq<string>): seq<string> {
    if parts == [] then []
    else (if TrimSpace(parts[0]) != "" then [TrimSpace(parts[0])] else []) + NonEmpty(parts[1..])
  }

  function Tag(raw: string): string {
    TrimPunctRight(TrimPunctLeft(CleanRuns(ToLower(raw), false)))
  }

  function TagSet(raw: seq<string>): set<string> {
    set t | t in raw && 0 < |Tag(t)| <= 32 :: Tag(t)
  }

  function DesktopTags(categories: seq<string>, keywords: seq<string>): seq<string> {
    ["desktop-file"] + SortedStrings(TagSet(categories + keywords) - {"desktop-file"})
  }

  function ImportReason(desktopId: string): string {
    "imported from " + desktopId + "; review required before enabling (#3121)"
  }

  function NewEntry(desktopId: string, name: string, main: map<string, string>): Entry {
    var comment := TrimSpace(Value(main, "Comment"));
    Entry(CandidateId(desktopId), name,
          if comment != "" then comment else TrimSpace(Value(main, "GenericName")),
          TrimSpace(Value(main, "Icon")),
          DesktopTags(SplitList(Value(main, "Categories")), SplitList(Value(main, "Keywords"))),
          false, ImportReason(desktopId), "", "", map[], "", "", "", "", None, 0, 3121)
  }

  function ImportFile(path: string, read: FileRead, opts: Options): Imported {
    if read.Failed? then NotImported(Unreadable)
    else if "Desktop Entry" !in read.groups then NotImported(NoMainGroup)
    else
      var main := read.groups["Desktop Entry"];
      var name := TrimSpace(Value(main, "Name"));
      var hidden := DesktopBool(Value(main, "Hidden"));
      var noDisplay := DesktopBool(Value(main, "NoDisplay"));
      var exec := TrimSpace(Value(main, "Exec"));
      var dbus := DesktopBool(Value(main, "DBusActivatable"));
      if Value(main, "Type") != "" && Value(main, "Type") != "Application" then NotImported(NotAnApplication)
      else if name == "" then NotImported(MissingName)
      else if hidden && !opts.includeHidden then NotImported(HiddenSkipped)
      else if noDisplay && !opts.includeNoDisplay then NotImported(NoDisplaySkipped)
      else if exec == "" && !dbus then NotImported(MissingExec)
      else
        var desktopId := Base(path);
        var (argv, error) := Exec.ParseExec(exec);
        Importing(Candidate(NewEntry(desktopId, name, main),
                            Metadata(desktopId, path, exec, argv, error, hidden, noDisplay, dbus)))
  }

  // ---------- the whole import ----------

  datatype DirEntry = DirEntry(path: string, isDir: bool)

  datatype Listing = Missing | ListingFailed | Listed(files: seq<DirEntry>)

  datatype Dir = Dir(path: string, listing: Listing)

  /** What a path holds while the import runs. */
  type Files = map<string, FileRead>

  function ReadFile(fs: Files, path: string): FileRead {
    if path in fs then fs[path] else Failed
  }

  function Attempt(fs: Files, opts: Options, path: string): Imported {
    ImportFile(path, ReadFile(fs, path), opts)
  }

  predicate Eligible(f: DirEntry) {
    !f.isDir && HasSuffix(Base(f.path), SUFFIX)
  }

  /** What the import comes across: a directory it cannot list, or an eligible file. */
  datatype Look = BadDir(path: string) | File(path: string)

  function FileLooks(files: seq<DirEntry>): seq<Look> {
    if files == [] then []
    else FileLooks(files[..|files| - 1]) + if Eligible(files[|files| - 1]) then [File(files[|files| - 1].path)] else []
  }

  function DirLooks(d: Dir): seq<Look> {
    match d.listing
    case Missing => []
    case ListingFailed => [BadDir(d.path)]
    case Listed(files) => FileLooks(files)
  }

  function Looks(dirs: seq<Dir>): seq<Look> {
    if dirs == [] then [] else Looks(dirs[..|dirs| - 1]) + DirLooks(dirs[|dirs| - 1])
  }

  function FilePaths(looks: seq<Look>): seq<string> {
    if looks == [] then []
    else FilePaths(looks[..|looks| - 1]) + if looks[|looks| - 1].File? then [looks[|looks| - 1].path] else []
  }

  function BadDirs(looks: seq<Look>): seq<string> {
    if looks == [] then []
    else BadDirs(looks[..|looks| - 1]) + if looks[|looks| - 1].BadDir? then [looks[|looks| - 1].path] else []
  }

  /** The paths looked at, in order: the eligible files of every readable directory. */
  function AllPaths(dirs: seq<Dir>): seq<string> {
    FilePaths(Looks(dirs))
  }

  /** The first path whose file imports under this id. */
  function Keeper(fs: Files, opts: Options, paths: seq<string>, id: string): Option<string> {
    if paths == [] then None
    else
      var earlier := Keeper(fs, opts, paths[..|paths| - 1], id);
      var last := paths[|paths| - 1];
      var attempt := Attempt(fs, opts, last);
      if earlier.Some? then earlier
      else if attempt.Importing? && BY_ID(attempt.candidate) == id then Some(last)
      else None
  }

  /** What one look adds to the diagnostics, after the looks before it. */
  function Complaint(fs: Files, opts: Options, before: seq<Look>, look: Look): seq<Diagnostic> {
    match look
    case BadDir(path) => [Diagnostic(path, DirUnreadable)]
    case File(path) =>
      if path in FilePaths(before) then []
      else
        match Attempt(fs, opts, path)
        case NotImported(reason) => [Diagnostic(path, reason)]
        case Importing(c) =>
          var keeper := Keeper(fs, opts, FilePaths(before), BY_ID(c));
          if keeper.Some? then [Diagnostic(path, Duplicate(BY_ID(c), keeper.value))] else []
  }

  function Complaints(fs: Files, opts: Options, looks: seq<Look>): seq<Diagnostic> {
    if looks == [] then []
    else
      var before := looks[..|looks| - 1];
      Complaints(fs, opts, before) + Complaint(fs, opts, before, looks[|looks| - 1])
  }

  datatype Artifact = Artifact(candidates: seq<Candidate>, diagnostics: seq<Diagnostic>, scanned: nat, skipped: nat)

  const BY_ID: Candidate -> string := (c: Candidate) => c.entry.id

  /** Path k is the first whose file imports under the id it imports under. */
  ghost predicate FirstOfItsId(fs: Files, opts: Options, paths: seq<string>, k: nat)
    requires k < |paths|
  {
    && Attempt(fs, opts, paths[k]).Importing?
    && forall j :: 0 <= j < k && Attempt(fs, opts, paths[j]).Importing? ==>
         BY_ID(Attempt(fs, opts, paths[j]).candidate) != BY_ID(Attempt(fs, opts, paths[k]).candidate)
  }

  /** Candidates that importing these paths, in this order, keeps. */
  ghost predicate Kept(fs: Files, opts: Options, paths: seq<string>, c: Candidate) {
    exists k :: 0 <= k < |paths| && FirstOfItsId(fs, opts, paths, k) && Attempt(fs, opts, paths[k]).candidate == c
  }

  function PathSet(paths: seq<string>): set<string> {
    set p | p in paths
  }

  ghost predicate KeptExactly(fs: Files, opts: Options, paths: seq<string>, cs: seq<Candidate>) {
    && DistinctKeys(BY_ID, cs)
    && forall c :: c in cs <==> Kept(fs, opts, paths, c)
  }

  /** The map from ids to paths covers exactly the candidates. */
  ghost predicate Registered(seenId: map<string, string>, cs: seq<Candidate>) {
    && (forall c :: c in cs ==> BY_ID(c) in seenId && seenId[BY_ID(c)] == c.desktop.path)
    && (forall id :: id in seenId ==> exists c :: c in cs && BY_ID(c) == id)
  }

  lemma RegisteredGrows(seenId: map<string, string>, cs: seq<Candidate>, c: Candidate)
    requires Registered(seenId, cs) && c.entry.id !in seenId
    ensures Registered(seenId[c.entry.id := c.desktop.path], cs + [c])
  {
    var ids, longer := seenId[c.entry.id := c.desktop.path], cs + [c];
    assert c in longer;
    assert forall x :: x in cs ==> x in longer;
    forall id | id in ids
      ensures exists x :: x in longer && BY_ID(x) == id
    {
      if id != c.entry.id {
        var x :| x in cs && BY_ID(x) == id;
        assert x in longer;
      }
    }
  }

  lemma IdsFound(seenId: map<string, string>, cs: seq<Candidate>, id: string)
    requires Registered(seenId, cs)
    ensures id in seenId <==> exists c :: c in cs && BY_ID(c) == id
  {
  }

  lemma PathSetGrows(paths: seq<string>, path: string)
    ensures PathSet(paths + [path]) == PathSet(paths) + {path}
    ensures path in PathSet(paths) <==> path in paths
  {
  }

  lemma AttemptPath(fs: Files, opts: Options, path: string)
    ensures Attempt(fs, opts, path).Importing? ==> Attempt(fs, opts, path).candidate.desktop.path == path
  {
  }

  /** The import's books while it has looked at `paths`. */
  class Importer {
    var seenPath: set<string>
    var seenId: map<string, string>
    var candidates: seq<Candidate>
    var diagnostics: seq<Diagnostic>
    var scanned: nat
    var skipped: nat

    ghost predicate Books(fs: Files, opts: Options, looks: seq<Look>)
      reads this
    {
      && seenPath == PathSet(FilePaths(looks))
      && scanned == |seenPath|
      && scanned == |candidates| + skipped
      && diagnostics == Complaints(fs, opts, looks)
      && |diagnostics| == skipped + |BadDirs(looks)|
      && KeptExactly(fs, opts, FilePaths(looks), candidates)
      && Registered(seenId, candidates)
    }

    constructor ()
      ensures Books(map[], Options(false, false), []) && diagnostics == [] && candidates == []
    {
      seenPath, seenId, candidates, diagnostics, scanned, skipped := {}, map[], [], [], 0, 0;
    }

    method Visit(fs: Files, opts: Options, file: DirEntry, ghost looks: seq<Look>)
      requires Books(fs, opts, looks)
      modifies this
      ensures Books(fs, opts, if Eligible(file) then looks + [File(file.path)] else looks)
    {
      hide Attempt, KeptExactly, Registered, Base, HasSuffix, Complaints, Complaint, FilePaths, BadDirs, Keeper;
      if !Eligible(file) {
        return;
      }
      var path := file.path;
      ghost var paths := FilePaths(looks);
      NextLook(fs, opts, looks, File(path));
      FileComplaint(fs, opts, looks, path);
      PathSetGrows(paths, path);
      if path in seenPath {
        SeenAgain(fs, opts, paths, path, candidates);
        return;
      }
      seenPath := seenPath + {path};
      scanned := scanned + 1;
      var attempt := Attempt(fs, opts, path);
      if attempt.NotImported? {
        diagnostics := diagnostics + [Diagnostic(path, attempt.reason)];
        skipped := skipped + 1;
        NotKept(fs, opts, paths, path, candidates);
        return;
      }
      var candidate := attempt.candidate;
      IdsFound(seenId, candidates, candidate.entry.id);
      SeenIsKeeper(fs, opts, paths, candidates, seenId, candidate.entry.id);
      if candidate.entry.id in seenId {
        diagnostics := diagnostics + [Diagnostic(path, Duplicate(candidate.entry.id, seenId[candidate.entry.id]))];
        skipped := skipped + 1;
        NotKept(fs, opts, paths, path, candidates);
        return;
      }
      AttemptPath(fs, opts, path);
      RegisteredGrows(seenId, candidates, candidate);
      NewlyKept(fs, opts, paths, path, candidates);
      seenId := seenId[candidate.entry.id := path];
      candidates := candidates + [candidate];
    }

    method Blame(fs: Files, opts: Options, path: string, ghost looks: seq<Look>)
      requires Books(fs, opts, looks)
      modifies this`diagnostics
      ensures Books(fs, opts, looks + [BadDir(path)])
    {
      hide KeptExactly, Registered, Complaints, Complaint, FilePaths, BadDirs;
      NextLook(fs, opts, looks, BadDir(path));
      DirComplaint(fs, opts, looks, path);
      diagnostics := diagnostics + [Diagnostic(path, DirUnreadable)];
    }
  }

  /** One look's effect on the lists the books are checked against. */
  lemma NextLook(fs: Files, opts: Options, looks: seq<Look>, look: Look)
    ensures FilePaths(looks + [look]) == if look.File? then FilePaths(looks) + [look.path] else FilePaths(looks)
    ensures BadDirs(looks + [look]) == if look.BadDir? then BadDirs(looks) + [look.path] else BadDirs(looks)
    ensures Complaints(fs, opts, looks + [look]) == Complaints(fs, opts, looks) + Complaint(fs, opts, looks, look)
  {
    hide Complaint;
    assert (looks + [look])[..|looks|] == looks;
    assert FilePaths(looks) + [] == FilePaths(looks) && BadDirs(looks) + [] == BadDirs(looks);
  }

  lemma DirComplaint(fs: Files, opts: Options, looks: seq<Look>, path: string)
    ensures Complaint(fs, opts, looks, BadDir(path)) == [Diagnostic(path, DirUnreadable)]
  {
  }

  lemma FileComplaint(fs: Files, opts: Options, looks: seq<Look>, path: string)
    ensures var paths, attempt := FilePaths(looks), Attempt(fs, opts, path);
      Complaint(fs, opts, looks, File(path)) ==
        if path in paths then []
        else if attempt.NotImported? then [Diagnostic(path, attempt.reason)]
        else
          var id := BY_ID(attempt.candidate);
          var keeper := Keeper(fs, opts, paths, id);
          if keeper.Some? then [Diagnostic(path, Duplicate(id, keeper.value))] else []
    ensures Complaints(fs, opts, looks) + [] == Complaints(fs, opts, looks)
  {
    hide Attempt, FilePaths, Keeper, Complaints;
  }

  /** The keeper is the first of its id; without one nothing imported under the id. */
  lemma {:induction false} KeeperMeans(fs: Files, opts: Options, paths: seq<string>, id: string)
    ensures var keeper := Keeper(fs, opts, paths, id);
      && (keeper.Some? ==> exists k :: 0 <= k < |paths| && FirstOfItsId(fs, opts, paths, k) && paths[k] == keeper.value
                                       && BY_ID(Attempt(fs, opts, paths[k]).candidate) == id)
      && (keeper.None? ==> forall j :: 0 <= j < |paths| && Attempt(fs, opts, paths[j]).Importing? ==>
                                        BY_ID(Attempt(fs, opts, paths[j]).candidate) != id)
  {
    hide Attempt;
    if paths != [] {
      var n := |paths| - 1;
      var front := paths[..n];
      KeeperMeans(fs, opts, front, id);
      assert forall j :: 0 <= j < n ==> front[j] == paths[j];
      if Keeper(fs, opts, front, id).Some? {
        var k :| 0 <= k < n && FirstOfItsId(fs, opts, front, k) && front[k] == Keeper(fs, opts, front, id).value
                 && BY_ID(Attempt(fs, opts, front[k]).candidate) == id;
        assert FirstOfItsId(fs, opts, paths, k);
      } else if Keeper(fs, opts, paths, id).Some? {
        assert FirstOfItsId(fs, opts, paths, n);
      }
    }
  }

  lemma SeenIsKeeper(fs: Files, opts: Options, paths: seq<string>, cs: seq<Candidate>, seenId: map<string, string>, id: string)
    requires KeptExactly(fs, opts, paths, cs) && Registered(seenId, cs)
    ensures Keeper(fs, opts, paths, id) == if id in seenId then Some(seenId[id]) else None
  {
    hide Attempt, Keeper;
    KeeperMeans(fs, opts, paths, id);
    var keeper := Keeper(fs, opts, paths, id);
    IdsFound(seenId, cs, id);
    if id in seenId {
      var c :| c in cs && BY_ID(c) == id;
      var k := KeptFrom(fs, opts, paths, c);
      assert keeper.Some?;
    }
    if keeper.Some? {
      var k :| 0 <= k < |paths| && FirstOfItsId(fs, opts, paths, k) && paths[k] == keeper.value
               && BY_ID(Attempt(fs, opts, paths[k]).candidate) == id;
      KeptAt(fs, opts, paths, k);
      AttemptPath(fs, opts, paths[k]);
    }
  }

  lemma KeptGrows(fs: Files, opts: Options, paths: seq<string>, path: string, c: Candidate)
    ensures Kept(fs, opts, paths + [path], c) <==>
            Kept(fs, opts, paths, c) || (FirstOfItsId(fs, opts, paths + [path], |paths|) && Attempt(fs, opts, path).candidate == c)
  {
    hide Attempt;
    var longer := paths + [path];
    assert forall k :: 0 <= k < |paths| ==> longer[k] == paths[k];
    assert forall k :: 0 <= k < |paths| ==> (FirstOfItsId(fs, opts, longer, k) <==> FirstOfItsId(fs, opts, paths, k));
    assert longer[|paths|] == path;
  }

  /** The last path is the first of its id exactly when no kept candidate has that id. */
  lemma {:induction false} FirstIff(fs: Files, opts: Options, paths: seq<string>, path: string)
    requires Attempt(fs, opts, path).Importing?
    ensures FirstOfItsId(fs, opts, paths + [path], |paths|) <==>
            forall c :: Kept(fs, opts, paths, c) ==> BY_ID(c) != BY_ID(Attempt(fs, opts, path).candidate)
  {
    hide Attempt, Kept, FirstOfItsId;
    var id := BY_ID(Attempt(fs, opts, path).candidate);
    FirstMeans(fs, opts, paths, path);
    if j :| 0 <= j < |paths| && Attempt(fs, opts, paths[j]).Importing? && BY_ID(Attempt(fs, opts, paths[j]).candidate) == id {
      var k := Earliest(fs, opts, paths, j);
      KeptAt(fs, opts, paths, k);
    }
    forall c | Kept(fs, opts, paths, c) && BY_ID(c) == id
      ensures exists j :: 0 <= j < |paths| && Attempt(fs, opts, paths[j]).Importing? && BY_ID(Attempt(fs, opts, paths[j]).candidate) == id
    {
      var k := KeptFrom(fs, opts, paths, c);
    }
  }

  lemma FirstMeans(fs: Files, opts: Options, paths: seq<string>, path: string)
    requires Attempt(fs, opts, path).Importing?
    ensures FirstOfItsId(fs, opts, paths + [path], |paths|) <==>
            !exists j :: 0 <= j < |paths| && Attempt(fs, opts, paths[j]).Importing? &&
                         BY_ID(Attempt(fs, opts, paths[j]).candidate) == BY_ID(Attempt(fs, opts, path).candidate)
  {
    hide Attempt;
    var longer := paths + [path];
    assert longer[|paths|] == path;
    assert forall j :: 0 <= j < |paths| ==> longer[j] == paths[j];
  }

  lemma KeptAt(fs: Files, opts: Options, paths: seq<string>, k: nat)
    requires k < |paths| && FirstOfItsId(fs, opts, paths, k)
    ensures Attempt(fs, opts, paths[k]).Importing? && Kept(fs, opts, paths, Attempt(fs, opts, paths[k]).candidate)
  {
  }

  lemma KeptFrom(fs: Files, opts: Options, paths: seq<string>, c: Candidate) returns (k: nat)
    requires Kept(fs, opts, paths, c)
    ensures k < |paths| && Attempt(fs, opts, paths[k]).Importing? && Attempt(fs, opts, paths[k]).candidate == c
  {
    k :| 0 <= k < |paths| && FirstOfItsId(fs, opts, paths, k) && Attempt(fs, opts, paths[k]).candidate == c;
  }

  lemma Earliest(fs: Files, opts: Options, paths: seq<string>, j: nat) returns (k: nat)
    requires j < |paths| && Attempt(fs, opts, paths[j]).Importing?
    ensures k <= j && FirstOfItsId(fs, opts, paths, k)
    ensures BY_ID(Attempt(fs, opts, paths[k]).candidate) == BY_ID(Attempt(fs, opts, paths[j]).candidate)
  {
    hide Attempt;
    k := j;
    if !FirstOfItsId(fs, opts, paths, j) {
      var i :| 0 <= i < j && Attempt(fs, opts, paths[i]).Importing? &&
        BY_ID(Attempt(fs, opts, paths[i]).candidate) == BY_ID(Attempt(fs, opts, paths[j]).candidate);
      k := Earliest(fs, opts, paths, i);
    }
  }

  lemma NotKept(fs: Files, opts: Options, paths: seq<string>, path: string, cs: seq<Candidate>)
    requires KeptExactly(fs, opts, paths, cs)
    requires Attempt(fs, opts, path).Importing? ==>
      exists c :: c in cs && BY_ID(c) == BY_ID(Attempt(fs, opts, path).candidate)
    ensures KeptExactly(fs, opts, paths + [path], cs)
  {
    hide Attempt, Kept, DistinctKeys;
    if Attempt(fs, opts, path).Importing? {
      FirstIff(fs, opts, paths, path);
    }
    forall c
      ensures c in cs <==> Kept(fs, opts, paths + [path], c)
    {
      KeptGrows(fs, opts, paths, path, c);
    }
  }

  lemma NewlyKept(fs: Files, opts: Options, paths: seq<string>, path: string, cs: seq<Candidate>)
    requires KeptExactly(fs, opts, paths, cs) && Attempt(fs, opts, path).Importing?
    requires forall c :: c in cs ==> BY_ID(c) != BY_ID(Attempt(fs, opts, path).candidate)
    ensures KeptExactly(fs, opts, paths + [path], cs + [Attempt(fs, opts, path).candidate])
  {
    hide Attempt, Kept, FirstOfItsId;
    FirstIff(fs, opts, paths, path);
    var added := Attempt(fs, opts, path).candidate;
    forall c
      ensures c in cs + [added] <==> Kept(fs, opts, paths + [path], c)
    {
      KeptGrows(fs, opts, paths, path, c);
    }
    assert forall i :: 0 <= i < |cs| ==> cs[i] in cs;
  }

  /** Looking at a path a second time could keep nothing more. */
  lemma SeenAgain(fs: Files, opts: Options, paths: seq<string>, path: string, cs: seq<Candidate>)
    requires KeptExactly(fs, opts, paths, cs) && path in paths
    ensures KeptExactly(fs, opts, paths + [path], cs)
  {
    hide Attempt, Kept, FirstOfItsId, DistinctKeys;
    if Attempt(fs, opts, path).Importing? {
      var j :| 0 <= j < |paths| && paths[j] == path;
      var k := Earliest(fs, opts, paths, j);
      KeptAt(fs, opts, paths, k);
    }
    NotKept(fs, opts, paths, path, cs);
  }

  /** The books balance, ids are strictly increasing, the candidates are exactly the first
      importable files of each id, and the diagnostics are those of the looks, in order. */
  ghost predicate Imports(fs: Files, opts: Options, dirs: seq<Dir>, a: Artifact) {
    && a.scanned == |a.candidates| + a.skipped
    && a.scanned == |PathSet(AllPaths(dirs))|
    && a.diagnostics == Complaints(fs, opts, Looks(dirs))
    && |a.diagnostics| == a.skipped + |BadDirs(Looks(dirs))|
    && Rising(BY_ID, a.candidates)
    && forall c :: c in a.candidates <==> Kept(fs, opts, AllPaths(dirs), c)
  }

  method ImportDesktopCandidates(fs: Files, opts: Options, dirs: seq<Dir>) returns (artifact: Artifact)
    ensures Imports(fs, opts, dirs, artifact)
  {
    hide Kept, Attempt, DistinctKeys, StableSort, Complaints, FilePaths, BadDirs, KeptExactly, Registered, FileLooks;
    var books := new Importer();
    StartBooks(fs, opts);
    for d := 0 to |dirs|
      invariant books.Books(fs, opts, Looks(dirs[..d]))
    {
      assert dirs[..d + 1][..d] == dirs[..d];
      var dir := dirs[d];
      ghost var before := Looks(dirs[..d]);
      if dir.listing.Missing? {
        assert before + [] == before;
        continue;
      }
      if dir.listing.ListingFailed? {
        books.Blame(fs, opts, dir.path, before);
        continue;
      }
      VisitAll(books, fs, opts, dir.listing.files, before);
    }
    assert dirs[..|dirs|] == dirs;
    var sorted := StableSort(BY_ID, books.candidates);
    SortedCandidates(fs, opts, AllPaths(dirs), books.candidates);
    return Artifact(sorted, books.diagnostics, books.scanned, books.skipped);
  }

  /** The files of one directory. */
  method VisitAll(books: Importer, fs: Files, opts: Options, files: seq<DirEntry>, ghost before: seq<Look>)
    requires books.Books(fs, opts, before)
    modifies books
    ensures books.Books(fs, opts, before + FileLooks(files))
  {
    hide Kept, Attempt, Complaints, FilePaths, BadDirs, KeptExactly, Registered, Eligible;
    assert files[..0] == [] && before + [] == before;
    for f := 0 to |files|
      invariant books.Books(fs, opts, before + FileLooks(files[..f]))
    {
      assert files[..f + 1][..f] == files[..f];
      books.Visit(fs, opts, files[f], before + FileLooks(files[..f]));
      assert before + FileLooks(files[..f]) + [File(files[f].path)] == before + (FileLooks(files[..f]) + [File(files[f].path)]);
      assert FileLooks(files[..f]) + [] == FileLooks(files[..f]);
    }
    assert files[..|files|] == files;
  }

  lemma SortedCandidates(fs: Files, opts: Options, paths: seq<string>, cs: seq<Candidate>)
    requires KeptExactly(fs, opts, paths, cs)
    ensures Rising(BY_ID, StableSort(BY_ID, cs))
    ensures forall c :: c in StableSort(BY_ID, cs) <==> Kept(fs, opts, paths, c)
  {
    hide Kept, StableSort;
    SortRises(BY_ID, cs);
    forall c
      ensures c in StableSort(BY_ID, cs) <==> c in cs
    {
      SortMembers(BY_ID, cs, c);
    }
  }

  lemma StartBooks(fs: Files, opts: Options)
    ensures KeptExactly(fs, opts, FilePaths([]), []) && PathSet(FilePaths([])) == {}
    ensures Complaints(fs, opts, []) == [] && BadDirs([]) == [] && FilePaths([]) == [] && Looks([]) == []
    ensures Registered(map[], [])
  {
  }

  // ---------- what the diagnostics name ----------

  predicate OfFile(d: Diagnostic) {
    !d.reason.DirUnreadable?
  }

  /** The directories blamed, in order. */
  function Blamed(ds: seq<Diagnostic>): seq<string> {
    if ds == [] then []
    else Blamed(ds[..|ds| - 1]) + if OfFile(ds[|ds| - 1]) then [] else [ds[|ds| - 1].path]
  }

  lemma AttemptReasons(fs: Files, opts: Options, path: string)
    ensures Attempt(fs, opts, path).NotImported? ==>
      !Attempt(fs, opts, path).reason.DirUnreadable? && !Attempt(fs, opts, path).reason.Duplicate?
  {
  }

  /** The file did not import, or another path keeps its id. */
  ghost predicate Passed(fs: Files, opts: Options, paths: seq<string>, path: string) {
    var attempt := Attempt(fs, opts, path);
    attempt.NotImported? || Keeper(fs, opts, paths, BY_ID(attempt.candidate)) != Some(path)
  }

  /** One of the diagnostics is about this file. */
  ghost predicate NamesFile(ds: seq<Diagnostic>, path: string) {
    exists i :: 0 <= i < |ds| && OfFile(ds[i]) && ds[i].path == path
  }

  ghost predicate Named(fs: Files, opts: Options, looks: seq<Look>, path: string) {
    NamesFile(Complaints(fs, opts, looks), path)
  }

  /** One of the candidates comes from this file. */
  ghost predicate Gave(cs: seq<Candidate>, path: string) {
    exists c :: c in cs && c.desktop.path == path
  }

  lemma KeeperStays(fs: Files, opts: Options, paths: seq<string>, path: string, id: string)
    ensures Keeper(fs, opts, paths, id).Some? ==> Keeper(fs, opts, paths + [path], id) == Keeper(fs, opts, paths, id)
    ensures var imports := Attempt(fs, opts, path).Importing? && BY_ID(Attempt(fs, opts, path).candidate) == id;
      Keeper(fs, opts, paths, id).None? ==> Keeper(fs, opts, paths + [path], id) == if imports then Some(path) else None
  {
    hide Attempt;
    assert (paths + [path])[..|paths|] == paths;
  }

  /** A path looked at already is not passed over later, nor picked up. */
  lemma PassedStays(fs: Files, opts: Options, paths: seq<string>, path: string, p: string)
    requires p in paths
    ensures Passed(fs, opts, paths + [path], p) <==> Passed(fs, opts, paths, p)
  {
    hide Attempt, Keeper;
    var attempt := Attempt(fs, opts, p);
    if attempt.Importing? {
      KeeperMeans(fs, opts, paths, BY_ID(attempt.candidate));
      KeeperStays(fs, opts, paths, path, BY_ID(attempt.candidate));
    }
  }

  /** A path looked at for the first time: its complaint says whether it is passed over. */
  lemma NewPath(fs: Files, opts: Options, looks: seq<Look>, path: string)
    requires path !in FilePaths(looks)
    ensures var cs := Complaint(fs, opts, looks, File(path));
      && (Passed(fs, opts, FilePaths(looks) + [path], path) <==> |cs| == 1)
      && |cs| <= 1 && (|cs| == 1 ==> OfFile(cs[0]) && cs[0].path == path)
  {
    hide Attempt, Keeper, Complaint, FilePaths;
    FileComplaint(fs, opts, looks, path);
    AttemptReasons(fs, opts, path);
    var attempt, paths := Attempt(fs, opts, path), FilePaths(looks);
    if attempt.Importing? {
      KeeperMeans(fs, opts, paths, BY_ID(attempt.candidate));
      KeeperStays(fs, opts, paths, path, BY_ID(attempt.candidate));
    }
  }

  lemma NamedGrows(fs: Files, opts: Options, looks: seq<Look>, look: Look, p: string)
    ensures Named(fs, opts, looks + [look], p) <==>
      Named(fs, opts, looks, p) || exists d :: d in Complaint(fs, opts, looks, look) && OfFile(d) && d.path == p
  {
    hide Complaint, Complaints;
    NextLook(fs, opts, looks, look);
    var a, b := Complaints(fs, opts, looks), Complaint(fs, opts, looks, look);
    if Named(fs, opts, looks, p) {
      var i :| 0 <= i < |a| && OfFile(a[i]) && a[i].path == p;
      assert (a + b)[i] == a[i];
    }
    if d :| d in b && OfFile(d) && d.path == p {
      var j :| 0 <= j < |b| && b[j] == d;
      assert (a + b)[|a| + j] == d;
    }
  }

  /** The file diagnostics name exactly the paths that were looked at and passed over. */
  lemma {:induction false} NamedIffPassed(fs: Files, opts: Options, looks: seq<Look>, p: string)
    ensures Named(fs, opts, looks, p) <==> p in FilePaths(looks) && Passed(fs, opts, FilePaths(looks), p)
  {
    if looks != [] {
      hide Named, Passed, Complaint, FilePaths, OfFile;
      var before, look := looks[..|looks| - 1], looks[|looks| - 1];
      assert before + [look] == looks;
      NamedIffPassed(fs, opts, before, p);
      NamedGrows(fs, opts, before, look, p);
      NextLook(fs, opts, before, look);
      match look {
        case BadDir(path) =>
          DirComplaint(fs, opts, before, path);
          DirIsNoFile(path);
        case File(path) =>
          if path in FilePaths(before) {
            FileComplaint(fs, opts, before, path);
          } else {
            NewPath(fs, opts, before, path);
          }
          if p in FilePaths(before) {
            PassedStays(fs, opts, FilePaths(before), path, p);
          }
      }
    } else {
      hide Passed;
    }
  }

  lemma DirIsNoFile(path: string)
    ensures !OfFile(Diagnostic(path, DirUnreadable))
  {
  }

  /** No two file diagnostics name one path. */
  lemma {:induction false} NamedOnce(fs: Files, opts: Options, looks: seq<Look>, i: nat, j: nat)
    requires var ds := Complaints(fs, opts, looks); i < j < |ds| && OfFile(ds[i]) && OfFile(ds[j])
    ensures Complaints(fs, opts, looks)[i].path != Complaints(fs, opts, looks)[j].path
  {
    hide Complaint, FilePaths, Passed;
    var before, look := looks[..|looks| - 1], looks[|looks| - 1];
    assert before + [look] == looks;
    NextLook(fs, opts, before, look);
    var a, b := Complaints(fs, opts, before), Complaint(fs, opts, before, look);
    if j < |a| {
      NamedOnce(fs, opts, before, i, j);
    } else {
      match look {
        case BadDir(path) => DirComplaint(fs, opts, before, path);
        case File(path) =>
          FileComplaint(fs, opts, before, path);
          if path !in FilePaths(before) {
            NewPath(fs, opts, before, path);
            if a[i].path == path {
              assert Named(fs, opts, before, path);
              NamedIffPassed(fs, opts, before, path);
            }
          }
      }
    }
  }

  /** The directory diagnostics name exactly the directories that could not be listed. */
  lemma {:induction false} BlamedAreBad(fs: Files, opts: Options, looks: seq<Look>)
    ensures Blamed(Complaints(fs, opts, looks)) == BadDirs(looks)
  {
    if looks != [] {
      hide Complaint, FilePaths, Complaints, Blamed, BadDirs;
      var before, look := looks[..|looks| - 1], looks[|looks| - 1];
      assert before + [look] == looks;
      BlamedAreBad(fs, opts, before);
      NextLook(fs, opts, before, look);
      match look {
        case BadDir(path) => DirComplaint(fs, opts, before, path);
        case File(path) =>
          FileComplaint(fs, opts, before, path);
          if path !in FilePaths(before) {
            NewPath(fs, opts, before, path);
          }
      }
      BlamedGrows(Complaints(fs, opts, before), Complaint(fs, opts, before, look));
    }
  }

  lemma BlamedGrows(a: seq<Diagnostic>, b: seq<Diagnostic>)
    requires |b| <= 1
    ensures Blamed(a + b) == Blamed(a) + if b == [] || OfFile(b[0]) then [] else [b[0].path]
  {
    if b == [] {
      assert a + b == a && Blamed(a) + [] == Blamed(a);
    } else {
      assert (a + b)[..|a + b| - 1] == a;
    }
  }

  /** A path is passed over exactly when no kept candidate comes from it. */
  lemma PassedIffNotKept(fs: Files, opts: Options, paths: seq<string>, p: string)
    requires p in paths
    ensures Passed(fs, opts, paths, p) <==> !exists c :: Kept(fs, opts, paths, c) && c.desktop.path == p
  {
    hide Attempt, Keeper, Kept;
    var attempt := Attempt(fs, opts, p);
    if c :| Kept(fs, opts, paths, c) && c.desktop.path == p {
      KeptIsKeeper(fs, opts, paths, c);
    }
    if !Passed(fs, opts, paths, p) {
      KeeperMeans(fs, opts, paths, BY_ID(attempt.candidate));
      var k :| 0 <= k < |paths| && FirstOfItsId(fs, opts, paths, k) && paths[k] == p;
      KeptAt(fs, opts, paths, k);
      AttemptPath(fs, opts, p);
    }
  }

  lemma KeptIsKeeper(fs: Files, opts: Options, paths: seq<string>, c: Candidate)
    requires Kept(fs, opts, paths, c)
    ensures Attempt(fs, opts, c.desktop.path) == Importing(c)
    ensures Keeper(fs, opts, paths, BY_ID(c)) == Some(c.desktop.path)
  {
    hide Attempt, Keeper;
    var k :| 0 <= k < |paths| && FirstOfItsId(fs, opts, paths, k) && Attempt(fs, opts, paths[k]).candidate == c;
    AttemptPath(fs, opts, paths[k]);
    KeeperMeans(fs, opts, paths, BY_ID(c));
    var j :| 0 <= j < |paths| && FirstOfItsId(fs, opts, paths, j) && Keeper(fs, opts, paths, BY_ID(c)) == Some(paths[j])
             && BY_ID(Attempt(fs, opts, paths[j]).candidate) == BY_ID(c);
    assert j == k;
  }

  /** What an import's diagnostics are: one for each directory that could not be listed,
      in order, and one for each path that was looked at and gave no candidate, with the
      right reason. */
  lemma DiagnosticsNameTheSkipped(fs: Files, opts: Options, dirs: seq<Dir>, a: Artifact)
    requires Imports(fs, opts, dirs, a)
    ensures Blamed(a.diagnostics) == BadDirs(Looks(dirs))
    ensures forall i, j :: 0 <= i < j < |a.diagnostics| && OfFile(a.diagnostics[i]) && OfFile(a.diagnostics[j]) ==>
              a.diagnostics[i].path != a.diagnostics[j].path
    ensures forall p :: NamesFile(a.diagnostics, p) <==> p in AllPaths(dirs) && !Gave(a.candidates, p)
    ensures forall d :: d in a.diagnostics && OfFile(d) ==> RightReason(fs, opts, AllPaths(dirs), d)
  {
    hide Complaints, Passed, Kept, AllPaths, Looks, OfFile, Blamed, BadDirs, Rising, NamesFile, RightReason;
    var looks := Looks(dirs);
    BlamedAreBad(fs, opts, looks);
    forall i, j | 0 <= i < j < |a.diagnostics| && OfFile(a.diagnostics[i]) && OfFile(a.diagnostics[j])
      ensures a.diagnostics[i].path != a.diagnostics[j].path
    {
      NamedOnce(fs, opts, looks, i, j);
    }
    assert AllPaths(dirs) == FilePaths(looks) by { PathsOfLooks(dirs); }
    forall p
      ensures NamesFile(a.diagnostics, p) <==> p in AllPaths(dirs) && !Gave(a.candidates, p)
    {
      NamedIffPassed(fs, opts, looks, p);
      if p in FilePaths(looks) {
        PassedIffNotKept(fs, opts, FilePaths(looks), p);
      }
    }
    forall d | d in a.diagnostics && OfFile(d)
      ensures RightReason(fs, opts, AllPaths(dirs), d)
    {
      ReasonsAreRight(fs, opts, looks, d);
    }
  }

  lemma PathsOfLooks(dirs: seq<Dir>)
    ensures AllPaths(dirs) == FilePaths(Looks(dirs))
  {
  }

  /** The reason its own import fails for, or the id it shares with the first path that
      imports under it. */
  ghost predicate RightReason(fs: Files, opts: Options, paths: seq<string>, d: Diagnostic) {
    var attempt := Attempt(fs, opts, d.path);
    if attempt.NotImported? then d.reason == attempt.reason
    else
      var keeper := Keeper(fs, opts, paths, BY_ID(attempt.candidate));
      keeper.Some? && d.reason == Duplicate(BY_ID(attempt.candidate), keeper.value)
  }

  lemma RightReasonStays(fs: Files, opts: Options, paths: seq<string>, path: string, d: Diagnostic)
    requires RightReason(fs, opts, paths, d)
    ensures RightReason(fs, opts, paths + [path], d)
  {
    hide Attempt, Keeper;
    if Attempt(fs, opts, d.path).Importing? {
      KeeperStays(fs, opts, paths, path, BY_ID(Attempt(fs, opts, d.path).candidate));
    }
  }

  lemma NewReason(fs: Files, opts: Options, before: seq<Look>, path: string, d: Diagnostic)
    requires d in Complaint(fs, opts, before, File(path))
    ensures RightReason(fs, opts, FilePaths(before), d)
  {
    hide Attempt, Keeper, FilePaths, Complaint;
    FileComplaint(fs, opts, before, path);
  }

  /** Every file diagnostic gives the right reason. */
  lemma {:induction false} ReasonsAreRight(fs: Files, opts: Options, looks: seq<Look>, d: Diagnostic)
    requires d in Complaints(fs, opts, looks) && OfFile(d)
    ensures RightReason(fs, opts, FilePaths(looks), d)
  {
    var before, look := looks[..|looks| - 1], looks[|looks| - 1];
    assert before + [look] == looks;
    hide Attempt, Complaint, FilePaths, Complaints, RightReason;
    NextLook(fs, opts, before, look);
    if d in Complaints(fs, opts, before) {
      ReasonsAreRight(fs, opts, before, d);
    } else if look.BadDir? {
      DirComplaint(fs, opts, before, look.path);
    } else {
      NewReason(fs, opts, before, look.path, d);
    }
    if look.File? && RightReason(fs, opts, FilePaths(before), d) {
      RightReasonStays(fs, opts, FilePaths(before), look.path, d);
    }
  }
}
