/** What importing desktop entries amounts to, in plain terms
    (internal/appcatalog/desktop_import.go, internal/appcatalog/catalog.go): the id made
    from a file name, which files are looked at and which import, what their entries hold,
    and what the installed entries launch. */
module DesktopLaws {
  import opened Text
  import opened Ordering
  import opened Sorting
  import opened Catalog
  import opened DesktopImport
  import opened CatalogLoad
  import Exec
  import ExecLaws
  import opened CatalogLaws

  // ---------- cleaning a name ----------

  /** A character an id may hold. */
  predicate Fit(c: char) {
    'a' <= c <= 'z' || '0' <= c <= '9' || c == '-' || c == '_'
  }

  predicate AllFit(s: string) {
    forall i :: 0 <= i < |s| ==> Fit(s[i])
  }

  /** Nothing in it may stand in an id. */
  predicate Junk(s: string) {
    s != "" && forall i :: 0 <= i < |s| ==> !Fit(s[i])
  }

  predicate AllPunct(s: string) {
    forall i :: 0 <= i < |s| ==> s[i] == '-' || s[i] == '_'
  }

  /** Ready to be used as it is. */
  predicate Tidy(s: string) {
    && AllFit(s) && s != ""
    && s[0] != '-' && s[0] != '_' && s[|s| - 1] != '-' && s[|s| - 1] != '_'
  }

  /** Cleaning runs and trimming, which ids and tags share. */
  function Cleaned(s: string): string {
    TrimPunctRight(TrimPunctLeft(CleanRuns(s, false)))
  }

  lemma {:induction false} RunsAfterFit(a: string, b: string, inRun: bool)
    requires AllFit(a) && a != ""
    ensures CleanRuns(a + b, inRun) == a + CleanRuns(b, false)
    decreases a
  {
    assert (a + b)[0] == a[0] && (a + b)[1..] == a[1..] + b;
    if |a| == 1 {
      assert a[1..] + b == b && a == [a[0]];
    } else {
      RunsAfterFit(a[1..], b, false);
      assert [a[0]] + (a[1..] + CleanRuns(b, false)) == a + CleanRuns(b, false);
    }
  }

  lemma {:induction false} RunsAfterJunk(junk: string, b: string)
    requires Junk(junk) && (b == "" || Fit(b[0]))
    ensures CleanRuns(junk + b, true) == CleanRuns(b, false)
    ensures CleanRuns(junk + b, false) == "-" + CleanRuns(b, false)
    decreases junk
  {
    assert (junk + b)[0] == junk[0] && (junk + b)[1..] == junk[1..] + b;
    if |junk| == 1 {
      assert junk[1..] + b == b;
      assert CleanRuns(b, true) == CleanRuns(b, false);
    } else {
      RunsAfterJunk(junk[1..], b);
    }
  }

  lemma {:induction false} FitStays(s: string)
    requires AllFit(s)
    ensures CleanRuns(s, false) == s
  {
    if s != "" {
      RunsAfterFit(s, "", false);
      assert s + "" == s;
    }
  }

  lemma {:induction false} LeftPunct(p: string, s: string)
    requires AllPunct(p)
    ensures TrimPunctLeft(p + s) == TrimPunctLeft(s)
    decreases p
  {
    if p == "" {
      assert p + s == s;
    } else {
      assert (p + s)[0] == p[0] && (p + s)[1..] == p[1..] + s;
      LeftPunct(p[1..], s);
    }
  }

  lemma {:induction false} RightPunct(s: string, p: string)
    requires AllPunct(p)
    ensures TrimPunctRight(s + p) == TrimPunctRight(s)
    decreases p
  {
    if p == "" {
      assert s + p == s;
    } else {
      var n := |p| - 1;
      assert (s + p)[|s| + n] == p[n] && (s + p)[..|s| + n] == s + p[..n];
      RightPunct(s, p[..n]);
    }
  }

  lemma TidyStays(s: string)
    requires Tidy(s)
    ensures Cleaned(s) == s
  {
    FitStays(s);
  }

  /** Dashes and underscores round a tidy text go; of nothing but those nothing is left. */
  lemma EdgesGo(p: string, s: string, q: string)
    requires AllPunct(p) && AllPunct(q) && (s == "" || Tidy(s))
    ensures Cleaned(p + s + q) == s
  {
    hide CleanRuns, TrimPunctLeft, TrimPunctRight;
    var all := p + s + q;
    assert forall i :: 0 <= i < |all| ==> all[i] in p || all[i] in s || all[i] in q;
    FitStays(all);
    assert all == p + (s + q);
    LeftPunct(p, s + q);
    if s == "" {
      LeftPunct(q, "");
      assert s + q == q + "";
    } else {
      RightPunct(s, q);
      TidyEnds(s, q);
    }
  }

  lemma TidyEnds(s: string, q: string)
    requires Tidy(s)
    ensures TrimPunctLeft(s + q) == s + q && TrimPunctRight(s) == s
  {
    assert (s + q)[0] == s[0];
  }

  /** A whole run of other characters reads as one dash. */
  lemma RunIsDash(a: string, junk: string, b: string)
    requires Junk(junk) && (b == "" || Fit(b[0]))
    requires AllFit(a)
    ensures Cleaned(a + junk + b) == Cleaned(a + "-" + b)
  {
    RunsAfterJunk(junk, b);
    assert a + junk + b == a + (junk + b) && a + "-" + b == a + ("-" + b);
    if a == "" {
      assert a + (junk + b) == junk + b && a + ("-" + b) == "-" + b;
    } else {
      RunsAfterFit(a, junk + b, false);
      RunsAfterFit(a, "-" + b, false);
    }
    RunsAfterFit("-", b, false);
  }

  // ---------- candidate ids ----------

  /** How one character of a file name reads: capitals lowered, a dot as a dash. */
  function Read(c: char): char {
    if c == '.' then '-' else if 'A' <= c <= 'Z' then ((c as int) + 32) as char else c
  }

  ghost predicate ReadsAs(name: string, t: string) {
    |t| == |name| && forall i :: 0 <= i < |name| ==> t[i] == Read(name[i])
  }

  lemma BaseReads(name: string, t: string)
    requires ReadsAs(name, t)
    ensures CleanBase(name) == Cleaned(t)
  {
    assert DotsToDashes(ToLower(name)) == t;
  }

  /** The last ".desktop" is dropped, and only that. */
  lemma SuffixGoes(name: string)
    ensures CandidateId(name + ".desktop") == IdOf(CleanBase(name))
  {
    hide CleanBase, TrimPunctRight;
    var s := name + ".desktop";
    assert s[|s| - 8..] == ".desktop" && s[..|s| - 8] == name;
  }

  function IdOf(clean: string): string {
    var id := "desktop-" + if clean == "" then "unknown" else clean;
    if |id| > 64 then TrimPunctRight(id[..64]) else id
  }

  /** A name that reads as a tidy text of at most 56 characters, with dashes, underscores
      or dots round it, gives that text after "desktop-"; a longer one is cut to 64
      characters and loses the dashes and underscores it then ends in; of a name with
      nothing else the id is "desktop-unknown". */
  lemma IdOfName(name: string, p: string, t: string, q: string)
    requires ReadsAs(name, p + t + q) && AllPunct(p) && AllPunct(q) && (t == "" || Tidy(t))
    ensures var id := CandidateId(name + ".desktop");
      && (t == "" ==> id == "desktop-unknown")
      && (0 < |t| <= 56 ==> id == "desktop-" + t)
      && (|t| > 56 ==>
           && 0 < |id| <= 64 && id <= "desktop-" + t && id[|id| - 1] != '-' && id[|id| - 1] != '_'
           && AllPunct(("desktop-" + t)[|id|..64]))
  {
    hide CleanBase, TrimPunctRight, Cleaned, Tidy, AllFit, ReadsAs;
    SuffixGoes(name);
    BaseReads(name, p + t + q);
    EdgesGo(p, t, q);
    if |t| > 56 {
      CutId(t);
    }
  }

  lemma CutId(t: string)
    requires |t| > 56
    ensures var id := IdOf(t);
      && 0 < |id| <= 64 && id <= "desktop-" + t && id[|id| - 1] != '-' && id[|id| - 1] != '_'
      && AllPunct(("desktop-" + t)[|id|..64])
  {
    var full := "desktop-" + t;
    var id := TrimPunctRight(full[..64]);
    assert IdOf(t) == id;
    assert full[..64][6] == 'p';
    assert !Punct(full[..64][6]);
    assert |id| > 6;
    assert full[..|id|] == id;
    assert forall i :: 0 <= i < 64 - |id| ==> full[|id|..64][i] == full[..64][|id| + i];
  }

  /** Any other name has the id of the one with a dash for its first run of characters no
      id may hold. */
  lemma IdOfRun(name: string, shorter: string, a: string, junk: string, b: string)
    requires ReadsAs(name, a + junk + b) && ReadsAs(shorter, a + "-" + b)
    requires AllFit(a) && Junk(junk) && (b == "" || Fit(b[0]))
    ensures CandidateId(name + ".desktop") == CandidateId(shorter + ".desktop")
  {
    hide CleanBase, Cleaned, ReadsAs, Junk, AllFit, IdOf;
    SuffixGoes(name);
    SuffixGoes(shorter);
    BaseReads(name, a + junk + b);
    BaseReads(shorter, a + "-" + b);
    RunIsDash(a, junk, b);
  }

  // ---------- tags ----------

  /** Tags are made the same way from lowered text, where a dot is a run of its own; blank
      ones and those over 32 characters are left out, "desktop-file" comes first and the
      rest follow in order without repeats. */
  lemma TagsMean(categories: seq<string>, keywords: seq<string>)
    ensures var r := DesktopTags(categories, keywords);
      && r != [] && r[0] == "desktop-file"
      && (forall i, j :: 1 <= i < j < |r| ==> Less(r[i], r[j]))
      && (forall t :: t in r[1..] <==>
           t != "desktop-file" && 1 <= |t| <= 32 &&
           exists raw :: (raw in categories || raw in keywords) && t == Cleaned(ToLower(raw)))
  {
    var raws := categories + keywords;
    TagSetMeans(raws);
    TagListIs(categories, keywords);
    hide *;
    FirstAndRest("desktop-file", TagSet(raws));
    assert forall raw :: raw in raws <==> raw in categories || raw in keywords;
  }

  lemma TagListIs(categories: seq<string>, keywords: seq<string>)
    ensures DesktopTags(categories, keywords) == ["desktop-file"] + SortedStrings(TagSet(categories + keywords) - {"desktop-file"})
  {
  }

  lemma FirstAndRest(first: string, tags: set<string>)
    ensures var r := [first] + SortedStrings(tags - {first});
      && (forall i, j :: 1 <= i < j < |r| ==> Less(r[i], r[j]))
      && (forall t :: t in r[1..] <==> t != first && t in tags)
  {
    hide SortedStrings, Less;
    var r := [first] + SortedStrings(tags - {first});
    SortedStringsListing(tags - {first});
    assert r[1..] == SortedStrings(tags - {first});
    assert forall i :: 1 <= i < |r| ==> r[i] == r[1..][i - 1];
  }

  lemma TagSetMeans(raws: seq<string>)
    ensures forall t :: t in TagSet(raws) <==> 1 <= |t| <= 32 && exists raw :: raw in raws && t == Cleaned(ToLower(raw))
  {
    hide CleanRuns, TrimPunctLeft, TrimPunctRight, ToLower;
    assert forall raw :: Tag(raw) == Cleaned(ToLower(raw));
  }

  /** A list is cut at its semicolons; each part is trimmed, and blank ones are dropped. */
  lemma ListMeans(part: string, rest: string)
    requires Free(part, ';')
    ensures var first := if TrimSpace(part) == "" then [] else [TrimSpace(part)];
      SplitList(part) == first && SplitList(part + ";" + rest) == first + SplitList(rest)
  {
    hide TrimSpace, Split, OccursAt, Trimmed, TrimLeft, TrimRight;
    SplitFree(part, ';');
    SplitCons(part, ';', rest);
    NonEmptyCons(part, []);
    NonEmptyCons(part, Split(rest, ';'));
    assert [part] + [] == [part] && NonEmpty([]) == [];
  }

  lemma NonEmptyCons(part: string, rest: seq<string>)
    ensures NonEmpty([part] + rest) == (if TrimSpace(part) == "" then [] else [TrimSpace(part)]) + NonEmpty(rest)
  {
    hide TrimSpace, OccursAt, Trimmed, TrimLeft, TrimRight;
    assert ([part] + rest)[1..] == rest;
  }

  // ---------- which files are looked at, and in which order ----------

  lemma {:induction false} BaseMeans(path: string)
    ensures var b := Base(path);
      && |b| <= |path| && path[|path| - |b|..] == b && '/' !in b
      && (|b| < |path| ==> path[|path| - |b| - 1] == '/')
    decreases path
  {
    if exists i :: 0 <= i < |path| && path[i] == '/' {
      BaseMeans(path[1..]);
    }
  }

  /** Looked at is what is not a directory and has ".desktop" at the end of its path. */
  lemma EligibleMeans(f: DirEntry)
    ensures Eligible(f) <==> !f.isDir && |f.path| >= 8 && f.path[|f.path| - 8..] == ".desktop"
  {
    hide Base;
    SuffixNoSlash(SUFFIX);
    EndsInBase(f.path, SUFFIX);
  }

  lemma SuffixNoSlash(s: string)
    requires s == ".desktop"
    ensures '/' !in s
  {
  }

  lemma EndsInBase(path: string, suffix: string)
    requires '/' !in suffix
    ensures HasSuffix(Base(path), suffix) <==> HasSuffix(path, suffix)
  {
    hide Base;
    BaseMeans(path);
    if HasSuffix(path, suffix) {
      LongBase(path, |path| - |suffix|);
    }
    if |Base(path)| >= |suffix| {
      SameEnd(path, Base(path), |suffix|);
    }
  }

  lemma SameEnd(s: string, b: string, k: nat)
    requires k <= |b| <= |s| && s[|s| - |b|..] == b
    ensures b[|b| - k..] == s[|s| - k..]
  {
  }

  lemma {:induction false} LongBase(path: string, k: nat)
    requires k <= |path| && '/' !in path[k..]
    ensures |Base(path)| >= |path| - k
    decreases path
  {
    assert path[0..] == path;
    if k > 0 && exists i :: 0 <= i < |path| && path[i] == '/' {
      assert path[1..][k - 1..] == path[k..];
      LongBase(path[1..], k - 1);
    }
  }

  /** Directories are gone through in order, each in the order of its listing; one that is
      missing or cannot be listed has no files. */
  lemma PathsInOrder(dirs: seq<Dir>, d: Dir, files: seq<DirEntry>, f: DirEntry)
    ensures AllPaths([]) == []
    ensures !d.listing.Listed? || d.listing.files == [] ==> AllPaths(dirs + [d]) == AllPaths(dirs)
    ensures d.listing == Listed(files + [f]) ==>
      AllPaths(dirs + [d]) == AllPaths(dirs + [d.(listing := Listed(files))]) +
        (if !f.isDir && |f.path| >= 8 && f.path[|f.path| - 8..] == ".desktop" then [f.path] else [])
  {
    hide Eligible, FilePaths, Looks;
    var before := Looks(dirs);
    LooksOf(dirs, d);
    LooksOf(dirs, d.(listing := Listed(files)));
    EligibleMeans(f);
    assert before + [] == before;
    NoPaths();
    if !d.listing.Listed? || d.listing.files == [] {
      NothingListed(d, before);
    }
    if d.listing == Listed(files + [f]) {
      assert (files + [f])[..|files|] == files;
      if Eligible(f) {
        PathsGrow(before + FileLooks(files), f.path);
        assert before + (FileLooks(files) + [File(f.path)]) == before + FileLooks(files) + [File(f.path)];
      } else {
        assert FileLooks(files) + [] == FileLooks(files);
      }
    }
  }

  lemma NoPaths()
    ensures FilePaths([]) == [] && Looks([]) == []
  {
  }

  lemma NothingListed(d: Dir, before: seq<Look>)
    requires !d.listing.Listed? || d.listing.files == []
    ensures FilePaths(before + DirLooks(d)) == FilePaths(before)
  {
    assert before + [] == before;
    assert (before + [BadDir(d.path)])[..|before|] == before;
  }

  lemma LooksOf(dirs: seq<Dir>, d: Dir)
    ensures Looks(dirs + [d]) == Looks(dirs) + DirLooks(d)
  {
    assert (dirs + [d])[..|dirs|] == dirs;
  }

  lemma PathsGrow(looks: seq<Look>, path: string)
    ensures FilePaths(looks + [File(path)]) == FilePaths(looks) + [path]
  {
    assert (looks + [File(path)])[..|looks|] == looks;
  }

  // ---------- one file ----------

  function Field(group: map<string, string>, key: string): string {
    if key in group then TrimSpace(group[key]) else ""
  }

  function RawField(group: map<string, string>, key: string): string {
    if key in group then group[key] else ""
  }

  lemma RawRead(group: map<string, string>)
    ensures forall key :: RawField(group, key) == Value(group, key)
  {
  }

  predicate Switched(group: map<string, string>, key: string) {
    ToLower(Field(group, key)) == "true"
  }

  lemma FieldsRead(group: map<string, string>, key: string)
    ensures TrimSpace(Value(group, key)) == Field(group, key)
    ensures DesktopBool(Value(group, key)) <==> Switched(group, key)
  {
    hide TrimSpace, OccursAt, Trimmed, TrimLeft, TrimRight;
    TrimOfTrimmed("");
  }

  /** What the main group decides, whatever else the file holds. */
  lemma MainFields(main: map<string, string>)
    ensures TrimSpace(Value(main, "Name")) == Field(main, "Name")
    ensures TrimSpace(Value(main, "Exec")) == Field(main, "Exec")
    ensures DesktopBool(Value(main, "Hidden")) <==> Switched(main, "Hidden")
    ensures DesktopBool(Value(main, "NoDisplay")) <==> Switched(main, "NoDisplay")
    ensures DesktopBool(Value(main, "DBusActivatable")) <==> Switched(main, "DBusActivatable")
    ensures IsApplication(main) <==> Value(main, "Type") == "" || Value(main, "Type") == "Application"
  {
    hide *;
    AllFieldsRead(main);
    TypeRead(main);
  }

  lemma TypeRead(main: map<string, string>)
    ensures IsApplication(main) <==> Value(main, "Type") == "" || Value(main, "Type") == "Application"
  {
  }

  lemma AllFieldsRead(main: map<string, string>)
    ensures forall key :: TrimSpace(Value(main, key)) == Field(main, key)
    ensures forall key :: DesktopBool(Value(main, key)) <==> Switched(main, key)
  {
    hide Field, Switched, TrimSpace, DesktopBool, Value, OccursAt, Trimmed, TrimLeft, TrimRight;
    forall key
      ensures TrimSpace(Value(main, key)) == Field(main, key) && (DesktopBool(Value(main, key)) <==> Switched(main, key))
    {
      FieldsRead(main, key);
    }
  }

  predicate IsApplication(group: map<string, string>) {
    "Type" !in group || group["Type"] == "" || group["Type"] == "Application"
  }

  /** A file gives a candidate exactly when it is readable, has the main group, is an
      application with a name, is not held back by an option, and has a command line or
      can be activated over D-Bus. */
  lemma ImportedIff(path: string, read: FileRead, opts: Options)
    ensures ImportFile(path, read, opts).Importing? <==>
      && read.Groups? && "Desktop Entry" in read.groups
      && var main := read.groups["Desktop Entry"];
        && IsApplication(main) && Field(main, "Name") != ""
        && (Switched(main, "Hidden") ==> opts.includeHidden)
        && (Switched(main, "NoDisplay") ==> opts.includeNoDisplay)
        && (Field(main, "Exec") == "" ==> Switched(main, "DBusActivatable"))
  {
    if read.Groups? && "Desktop Entry" in read.groups {
      MainFields(read.groups["Desktop Entry"]);
    }
    hide TrimSpace, NewEntry, Exec.ParseExec, Base, Field, Switched, DesktopBool, Value, IsApplication, OccursAt, Trimmed, TrimLeft, TrimRight;
  }

  /** A file without the main group says so. */
  lemma NoGroupReasons(path: string, read: FileRead, opts: Options)
    ensures ImportFile(path, read, opts) == NotImported(Reason.Unreadable) <==> read.Failed?
    ensures ImportFile(path, read, opts) == NotImported(NoMainGroup) <==> read.Groups? && "Desktop Entry" !in read.groups
  {
    hide TrimSpace, NewEntry, Exec.ParseExec, Base, DesktopBool, Value, OccursAt, Trimmed, TrimLeft, TrimRight;
  }

  /** Otherwise each reason is given only where it applies, and what is no application or
      has no name is called so first. */
  lemma ReasonsApply(path: string, groups: map<string, map<string, string>>, opts: Options)
    requires "Desktop Entry" in groups && ImportFile(path, Groups(groups), opts).NotImported?
    ensures var main, why := groups["Desktop Entry"], ImportFile(path, Groups(groups), opts).reason;
      if !IsApplication(main) then why.NotAnApplication?
      else if Field(main, "Name") == "" then why.MissingName?
      else
        || (why.HiddenSkipped? && Switched(main, "Hidden") && !opts.includeHidden)
        || (why.NoDisplaySkipped? && Switched(main, "NoDisplay") && !opts.includeNoDisplay && (Switched(main, "Hidden") ==> opts.includeHidden))
        || (why.MissingExec? && Field(main, "Exec") == "" && !Switched(main, "DBusActivatable")
             && (Switched(main, "Hidden") ==> opts.includeHidden) && (Switched(main, "NoDisplay") ==> opts.includeNoDisplay))
  {
    MainFields(groups["Desktop Entry"]);
    hide TrimSpace, NewEntry, Exec.ParseExec, Base, Field, Switched, DesktopBool, Value, IsApplication, OccursAt, Trimmed, TrimLeft, TrimRight;
  }

  /** What a candidate takes from its file. */
  ghost predicate TakenFrom(path: string, main: map<string, string>, c: Candidate) {
    var e, d := c.entry, c.desktop;
    && |d.desktopId| <= |path| && path[|path| - |d.desktopId|..] == d.desktopId && '/' !in d.desktopId
    && d.path == path && d.exec == Field(main, "Exec")
    && d.parsedArgv == Exec.ParseExec(d.exec).0 && d.execParseError == Exec.ParseExec(d.exec).1
    && d.hidden == Switched(main, "Hidden") && d.noDisplay == Switched(main, "NoDisplay")
    && d.dbusActivatable == Switched(main, "DBusActivatable")
    && e.id == CandidateId(d.desktopId) && e.labelText == Field(main, "Name") && e.icon == Field(main, "Icon")
    && e.description == (if Field(main, "Comment") != "" then Field(main, "Comment") else Field(main, "GenericName"))
    && e.tags == DesktopTags(SplitList(RawField(main, "Categories")), SplitList(RawField(main, "Keywords")))
    && !e.enabled && e.command == "" && e.env == map[] && e.disabledTaskId == 3121
    && e.reason == "imported from " + d.desktopId + "; review required before enabling (#3121)"
  }

  lemma CandidateFields(path: string, read: FileRead, opts: Options)
    requires ImportFile(path, read, opts).Importing?
    ensures TakenFrom(path, read.groups["Desktop Entry"], ImportFile(path, read, opts).candidate)
  {
    ImportedIff(path, read, opts);
    hide TrimSpace, Exec.ParseExec, Base, CandidateId, NewEntry, RawField, DesktopTags, SplitList, Field, Switched, DesktopBool,
         Value, ImportFile, OccursAt, Trimmed, TrimLeft, TrimRight;
    var main, c := read.groups["Desktop Entry"], ImportFile(path, read, opts).candidate;
    BaseMeans(path);
    MetadataFields(path, read, opts);
    EntryTags(Base(path), TrimSpace(Value(main, "Name")), main);
    EntryFields(Base(path), TrimSpace(Value(main, "Name")), main);
    FieldsRead(main, "Name");
  }

  lemma MetadataFields(path: string, read: FileRead, opts: Options)
    requires ImportFile(path, read, opts).Importing?
    ensures var main, c := read.groups["Desktop Entry"], ImportFile(path, read, opts).candidate;
      var d := c.desktop;
      && d.desktopId == Base(path) && d.path == path && d.exec == Field(main, "Exec")
      && d.parsedArgv == Exec.ParseExec(d.exec).0 && d.execParseError == Exec.ParseExec(d.exec).1
      && d.hidden == Switched(main, "Hidden") && d.noDisplay == Switched(main, "NoDisplay")
      && d.dbusActivatable == Switched(main, "DBusActivatable")
      && c.entry == NewEntry(Base(path), TrimSpace(Value(main, "Name")), main)
  {
    hide *;
    CandidateIs(path, read, opts);
    MainFields(read.groups["Desktop Entry"]);
  }

  lemma CandidateIs(path: string, read: FileRead, opts: Options)
    requires ImportFile(path, read, opts).Importing?
    ensures read.Groups? && "Desktop Entry" in read.groups
    ensures var main, c := read.groups["Desktop Entry"], ImportFile(path, read, opts).candidate;
      var d := c.desktop;
      && d.desktopId == Base(path) && d.path == path && d.exec == TrimSpace(Value(main, "Exec"))
      && d.parsedArgv == Exec.ParseExec(d.exec).0 && d.execParseError == Exec.ParseExec(d.exec).1
      && d.hidden == DesktopBool(Value(main, "Hidden")) && d.noDisplay == DesktopBool(Value(main, "NoDisplay"))
      && d.dbusActivatable == DesktopBool(Value(main, "DBusActivatable"))
      && c.entry == NewEntry(Base(path), TrimSpace(Value(main, "Name")), main)
  {
    hide TrimSpace, Exec.ParseExec, Base, NewEntry, DesktopBool, Value, OccursAt, Trimmed, TrimLeft, TrimRight;
  }

  lemma EntryTags(desktopId: string, name: string, main: map<string, string>)
    ensures NewEntry(desktopId, name, main).tags == DesktopTags(SplitList(RawField(main, "Categories")), SplitList(RawField(main, "Keywords")))
  {
    RawRead(main);
    hide TrimSpace, CandidateId, DesktopTags, RawField, Value, SplitList, OccursAt, Trimmed, TrimLeft, TrimRight, ImportReason;
  }

  lemma EntryFields(desktopId: string, name: string, main: map<string, string>)
    ensures var e := NewEntry(desktopId, name, main);
      && e.id == CandidateId(desktopId) && e.labelText == name && e.icon == Field(main, "Icon")
      && e.description == (if Field(main, "Comment") != "" then Field(main, "Comment") else Field(main, "GenericName"))
      && !e.enabled && e.command == "" && e.env == map[] && e.disabledTaskId == 3121
      && e.reason == "imported from " + desktopId + "; review required before enabling (#3121)"
  {
    FieldsRead(main, "Icon");
    FieldsRead(main, "Comment");
    FieldsRead(main, "GenericName");
    hide TrimSpace, CandidateId, DesktopTags, Field, Value, SplitList, OccursAt, Trimmed, TrimLeft, TrimRight;
  }

  /** Every candidate of an import comes from a file that was looked at, holds what that
      file says, and starts out switched off and without a command. */
  lemma CandidatesComeFromFiles(fs: Files, opts: Options, dirs: seq<Dir>, a: Artifact, c: Candidate)
    requires Imports(fs, opts, dirs, a) && c in a.candidates
    ensures var path := c.desktop.path;
      && path in AllPaths(dirs) && path in fs && fs[path].Groups? && "Desktop Entry" in fs[path].groups
      && TakenFrom(path, fs[path].groups["Desktop Entry"], c)
  {
    hide ImportFile, AllPaths, TakenFrom, Rising, Complaints, Base;
    var k := KeptFrom(fs, opts, AllPaths(dirs), c);
    var path := AllPaths(dirs)[k];
    ImportedIff(path, ReadFile(fs, path), opts);
    CandidateFields(path, ReadFile(fs, path), opts);
    AttemptPath(fs, opts, path);
  }

  // ---------- the catalogs made from candidates ----------

  /** An installed entry is switched on, waits for no window and is tagged as installed. */
  lemma InstalledMeans(c: Candidate)
    requires Shaped(c)
    ensures var e := Normal(InstalledEntry(c));
      && e.enabled && e.id == c.entry.id && e.labelText == c.entry.labelText && e.role == "toplevel"
      && e.expectedTitle == c.entry.labelText && e.reason == TrimSpace("installed desktop application")
      && e.waitSurface == Some(false) && e.waitTimeoutMs == 10000
      && (forall t :: t in e.tags <==> t in c.entry.tags || t == "installed")
  {
    CandidateIdIsValid(c.desktop.desktopId);
    IdIsTrimmed(c.entry.id);
    TrimOfTrimmed(c.entry.labelText);
    hide *;
    InstalledFields(c);
    InstalledTags(c);
    NormalMeans(InstalledEntry(c));
    TrimOfTrimmed("toplevel") by {
      assert "toplevel"[0] == 't' && "toplevel"[7] == 'l';
    }
  }

  lemma InstalledFields(c: Candidate)
    ensures var e := InstalledEntry(c);
      && e.enabled && e.id == c.entry.id && e.labelText == c.entry.labelText && e.role == "toplevel"
      && e.expectedTitle == c.entry.labelText && e.reason == "installed desktop application"
      && e.waitSurface == Some(false) && e.waitTimeoutMs == 0
  {
    hide TrimSpace, Exec.ShellQuote, OccursAt, Trimmed, TrimLeft, TrimRight, TrimSuffix;
  }

  lemma InstalledTags(c: Candidate)
    ensures forall t :: t in InstalledEntry(c).tags <==> t in c.entry.tags || t == "installed"
  {
    hide TrimSpace, Exec.ShellQuote, OccursAt, Trimmed, TrimLeft, TrimRight, TrimSuffix;
  }

  /** It launches "gtk-launch" with the file's name, without its ".desktop", as the one
      argument. */
  lemma InstalledLaunches(c: Candidate, name: string)
    requires TrimSpace(c.desktop.desktopId) == name + ".desktop" && name != "" && '\\' !in name
    ensures Exec.ParseExec(Normal(InstalledEntry(c)).command) == (["gtk-launch", name], "")
  {
    hide *;
    InstalledCommand(c, name);
    LaunchReads(name);
  }

  lemma InstalledCommand(c: Candidate, name: string)
    requires TrimSpace(c.desktop.desktopId) == name + ".desktop"
    ensures Normal(InstalledEntry(c)).command == TrimSpace("gtk-launch " + Exec.ShellQuote(name))
  {
    hide TrimSpace, CandidateId, ImportReason, Exec.ShellQuote, HasSuffix, RoleOr, OccursAt, Trimmed, TrimLeft, TrimRight;
    assert TrimSuffix(name + SUFFIX, SUFFIX) == name;
  }

  lemma LaunchReads(name: string)
    requires name != "" && '\\' !in name
    ensures var line := "gtk-launch " + Exec.ShellQuote(name);
      TrimSpace(line) == line && Exec.ParseExec(line) == (["gtk-launch", name], "")
  {
    var line, rest := "gtk-launch " + Exec.ShellQuote(name), Exec.ShellQuote(name);
    LaunchTrimmed(rest);
    hide TrimSpace, Exec.FeedAll, Exec.ShellQuote, Exec.Finish, OccursAt, Trimmed, TrimLeft, TrimRight;
    TrimOfTrimmed(line);
    assert "gtk-launch" + " " == "gtk-launch ";
    PlainLaunch();
    FeedLaunch("gtk-launch", name);
  }

  lemma PlainLaunch()
    ensures PlainCommand("gtk-launch")
  {
  }

  lemma LaunchTrimmed(rest: string)
    requires rest != "" && rest[|rest| - 1] == '\''
    ensures Trimmed("gtk-launch " + rest)
  {
    var line := "gtk-launch " + rest;
    assert line[0] == 'g' && line[|line| - 1] == rest[|rest| - 1];
  }

  predicate PlainCommand(s: string) {
    s != "" && forall i :: 0 <= i < |s| ==> 'a' <= s[i] <= 'z' || s[i] == '-'
  }

  lemma FeedLaunch(command: string, name: string)
    requires PlainCommand(command) && name != "" && '\\' !in name
    ensures Exec.Finish(Exec.FeedAll(Exec.FRESH, command + " " + Exec.ShellQuote(name))) == ([command, name], "")
  {
    hide Exec.FeedAll, Exec.ShellQuote, Bares, ExecLaws.LineText, ExecLaws.Arguments, ExecLaws.GoodLine;
    var word, rest := Bares(command), Exec.ShellQuote(name);
    BaresMean(command);
    LaunchLine(command, word);
    ExecLaws.FeedWords([], [word], [" "], rest);
    assert rest + "" == rest && [] + [command] == [command];
    Exec.FeedQuoted([command], name, "");
    Exec.FeedNothing(Exec.Lexer([command], name, None, false));
    assert [command] + [name] == [command, name];
  }

  function Bares(s: string): ExecLaws.Word {
    if s == "" then [] else [ExecLaws.Bare(s[0])] + Bares(s[1..])
  }

  lemma {:induction false} BaresMean(s: string)
    requires s == "" || PlainCommand(s)
    ensures ExecLaws.WordText(Bares(s)) == s && ExecLaws.WordMeaning(Bares(s)) == s && ExecLaws.GoodWord(Bares(s))
  {
    if s != "" {
      BaresMean(s[1..]);
      assert Bares(s)[1..] == Bares(s[1..]);
      assert [s[0]] + s[1..] == s;
    }
  }

  lemma LaunchLine(command: string, word: ExecLaws.Word)
    requires ExecLaws.WordText(word) == command && ExecLaws.WordMeaning(word) == command && ExecLaws.GoodWord(word) && command != ""
    ensures ExecLaws.GoodLine([word], [" "]) && ExecLaws.LineText([word], [" "]) == command + " "
    ensures ExecLaws.Arguments([word]) == [command]
  {
    hide ExecLaws.WordText, ExecLaws.WordMeaning, ExecLaws.GoodWord;
    assert [word][1..] == [] && [" "][1..] == [];
    assert ExecLaws.LineText([], []) == "" && ExecLaws.Arguments([]) == [];
    assert command + " " + "" == command + " ";
  }

  /** An overlay entry is switched off, has no command and always has a reason. */
  lemma OverlayMeans(c: Candidate)
    requires Shaped(c)
    ensures var e := Normal(OverlayEntry(c));
      && !e.enabled && e.command == "" && e.id == c.entry.id && e.labelText == c.entry.labelText && e.tags == c.entry.tags
      && e.reason != "" && e.reason == TrimSpace(ImportReason(c.desktop.desktopId))
      && (c.entry.waitSurface.None? ==> e.waitSurface == Some(false))
  {
    CandidateIdIsValid(c.desktop.desktopId);
    IdIsTrimmed(c.entry.id);
    TrimOfTrimmed(c.entry.labelText);
    NothingTrims();
    ImportReasonNotBlank(c.desktop.desktopId);
    hide TrimSpace, CandidateId, HasSuffix, RoleOr, ValidId, Trimmed, ImportReason, OccursAt, TrimLeft, TrimRight;
    assert OverlayEntry(c) == c.entry.(enabled := false, command := "");
  }

  lemma ReasonText(desktopId: string)
    ensures ImportReason(desktopId) == "imported from " + desktopId + "; review required before enabling (#3121)"
  {
  }

  lemma NothingTrims()
    ensures TrimSpace("") == ""
  {
  }

  /** The ids of a host's own file are unique when none is blank and no two are alike once
      trimmed. */
  lemma UniqueMeans(es: seq<Entry>)
    ensures UniqueIds(es) <==>
      && (forall i :: 0 <= i < |es| ==> TrimSpace(es[i].id) != "")
      && (forall i, j :: 0 <= i < j < |es| ==> TrimSpace(es[i].id) != TrimSpace(es[j].id))
  {
    hide TrimSpace, OccursAt, Trimmed, TrimLeft, TrimRight;
    if UniqueIds(es) {
      forall j | 0 <= j < |es|
        ensures TrimSpace(es[j].id) != "" && forall i :: 0 <= i < j ==> TrimSpace(es[i].id) != TrimSpace(es[j].id)
      {
        assert NewId(es, j);
        assert forall i :: 0 <= i < j ==> IdAt(es, i) != IdAt(es, j);
        assert forall i :: 0 <= i < j ==> TrimSpace(es[i].id) == IdAt(es, i);
      }
    } else {
      var j :| 0 <= j < |es| && !NewId(es, j);
      assert IdAt(es, j) == TrimSpace(es[j].id);
    }
  }

  /** Whatever is installed, the host's file is laid over a catalog that offers the
      terminal: no imported entry has its id. */
  lemma TerminalIsOffered(fs: Files, opts: Options, dirs: seq<Dir>, includeInstalled: bool, base: Catalog)
    requires BaseCatalog(fs, opts, dirs, includeInstalled, base)
    ensures var e := Lookup(base.entries, "terminal");
      && e.Some? && e.value.enabled && e.value.command == "foot" && e.value.expectedAppId == "foot" && e.value.role == "toplevel"
      && e.value.labelText == "Terminal" && e.value.waitSurface == Some(true) && e.value.waitTimeoutMs == 10000
  {
    DefaultTerminal();
    if includeInstalled {
      hide *;
      var cs := Candidates(fs, opts, dirs, base);
      var overlay := Normals(InstalledEntries(cs));
      OverlayWins(DEFAULT.entries, overlay, "terminal");
      NotAmong(fs, opts, dirs, cs);
    }
  }

  lemma DefaultTerminal()
    ensures Lookup(DEFAULT.entries, "terminal") == Some(TERMINAL)
  {
    LastIs(DEFAULT.entries, "terminal");
  }

  lemma Candidates(fs: Files, opts: Options, dirs: seq<Dir>, base: Catalog) returns (cs: seq<Candidate>)
    requires BaseCatalog(fs, opts, dirs, true, base)
    ensures KeptList(fs, opts, dirs, cs) && base.entries == UpsertAll(DEFAULT.entries, Normals(InstalledEntries(cs)))
  {
    hide KeptList, UpsertAll, Normals, InstalledEntries, ValidVersion;
    cs :| KeptList(fs, opts, dirs, cs) && base == Merged(DEFAULT, Catalog(1, Normals(InstalledEntries(cs))));
  }

  lemma NotAmong(fs: Files, opts: Options, dirs: seq<Dir>, cs: seq<Candidate>)
    requires KeptList(fs, opts, dirs, cs)
    ensures Lookup(Normals(InstalledEntries(cs)), "terminal").None?
  {
    KeptListShaped(fs, opts, dirs, cs);
    hide Shaped, KeptList, InstalledEntry, Normal, CandidateId;
    var es := Normals(InstalledEntries(cs));
    forall i | 0 <= i < |es|
      ensures es[i].id != "terminal"
    {
      assert es[i] == Normal(InstalledEntry(cs[i]));
      InstalledMeans(cs[i]);
      ShapedId(cs[i]);
      CandidateIdIsValid(cs[i].desktop.desktopId);
      assert CandidateId(cs[i].desktop.desktopId)[0] == "desktop"[0];
    }
    LastIs(es, "terminal");
  }

  lemma ShapedId(c: Candidate)
    requires Shaped(c)
    ensures c.entry.id == CandidateId(c.desktop.desktopId)
  {
  }

  /** What is counted: each path once, whether it gave a candidate or was skipped. */
  lemma CountsMean(fs: Files, opts: Options, dirs: seq<Dir>, a: Artifact)
    requires Imports(fs, opts, dirs, a)
    ensures a.scanned == |set p | p in AllPaths(dirs)| && |a.candidates| + a.skipped == a.scanned
    ensures |a.diagnostics| >= a.skipped
  {
    hide Kept, Rising, AllPaths;
    assert PathSet(AllPaths(dirs)) == set p | p in AllPaths(dirs);
  }

  /** Whatever the candidate, only a blank reason is replaced. */
  lemma OverlayReason(c: Candidate)
    ensures var e := OverlayEntry(c);
      && (TrimSpace(c.entry.reason) != "" ==> e.reason == c.entry.reason)
      && (TrimSpace(c.entry.reason) == "" ==> e.reason == ImportReason(c.desktop.desktopId))
      && e == c.entry.(enabled := false, command := "", reason := e.reason)
  {
    hide TrimSpace, ImportReason, OccursAt, Trimmed, TrimLeft, TrimRight;
  }
}
