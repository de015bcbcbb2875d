/**
 * The Delta Sync helpers: the guards around injecting an existing Plex
 * database into a stopped container's configuration volume, the reading of
 * library statistics from `sqlite3`'s `|`-separated output, and the check that
 * the database's library paths exist under the current mount point. Every
 * shell command is an input: its exit code and standard output.
 */
module DeltaSync {
  import opened Wrappers
  import opened Text

  /** What a shell command returned. */
  datatype Reply = Reply(exitCode: int, stdout: string)

  // ---------------------------------------------------------------------------
  // inject_existing_db
  // ---------------------------------------------------------------------------

  /**
   * What the commands of one injection report: the container check, whether
   * the target is the local host and the archive exists there, the exit code of
   * the extraction, the database file check, and the integrity check.
   */
  datatype InjectReplies = InjectReplies(containerCheck: string, isLocal: bool, archiveExists: bool,
                                         extractExit: int, dbCheck: string,
                                         integrityExit: int, integrityOutput: string)

  /** The commands the injection issues, in order. */
  datatype InjectStep = CheckContainer | TransferArchive | MakeDirectories | Extract | CheckDbFile
                      | CheckIntegrity | FixOwner | FixMode | MeasureDb | MeasureMetadata

  datatype InjectRun = InjectRun(ok: bool, steps: seq<InjectStep>)

  function RunningMarker(): string {
    "running"
  }

  function MissingMarker(): string {
    "missing"
  }

  /** The integrity check passes when its trimmed, lower-cased output is exactly `ok`. */
  predicate IntegrityPasses(output: string) {
    ToLower(Strip(output)) == "ok"
  }

  /** Every guard of the injection passes. */
  predicate InjectGuardsPass(r: InjectReplies) {
    && !Contains(r.containerCheck, RunningMarker())
    && (r.isLocal ==> r.archiveExists)
    && r.extractExit == 0
    && !Contains(r.dbCheck, MissingMarker())
    && r.integrityExit == 0
    && IntegrityPasses(r.integrityOutput)
  }

  /**
   * inject_existing_db: refuses a running container before anything else,
   * refuses a missing local archive, and after extracting refuses a failed
   * extraction, a missing database file, a failed `sqlite3` call and a failed
   * integrity check; only then are ownership and modes fixed. The size
   * reports do not affect the result.
   */
  function InjectExistingDb(r: InjectReplies): (run: InjectRun)
    ensures run.ok <==> InjectGuardsPass(r)
    ensures Contains(r.containerCheck, RunningMarker()) ==> run.steps == [CheckContainer]
    ensures Extract in run.steps <==> !Contains(r.containerCheck, RunningMarker()) && (r.isLocal ==> r.archiveExists)
    ensures FixOwner in run.steps <==> run.ok
    ensures TransferArchive in run.steps ==> !r.isLocal
    ensures run.steps != [] && run.steps[0] == CheckContainer
  {
    RunGuards(GuardsOf(r))
  }

  /** What each guard of the injection found. */
  datatype Guards = Guards(running: bool, isLocal: bool, archiveExists: bool, extracted: bool, dbMissing: bool,
                           integrityPasses: bool)

  /** The guards' verdicts on the command replies. */
  function GuardsOf(r: InjectReplies): Guards {
    Guards(Contains(r.containerCheck, RunningMarker()), r.isLocal, r.archiveExists, r.extractExit == 0,
           Contains(r.dbCheck, MissingMarker()), r.integrityExit == 0 && IntegrityPasses(r.integrityOutput))
  }

  /** The injection's run, decided from the guards' verdicts in the order the commands are issued. */
  function RunGuards(g: Guards): (run: InjectRun)
    ensures run.ok <==> !g.running && (g.isLocal ==> g.archiveExists) && g.extracted && !g.dbMissing && g.integrityPasses
    ensures g.running ==> run.steps == [CheckContainer]
    ensures Extract in run.steps <==> !g.running && (g.isLocal ==> g.archiveExists)
    ensures FixOwner in run.steps <==> run.ok
    ensures TransferArchive in run.steps ==> !g.isLocal
    ensures run.steps != [] && run.steps[0] == CheckContainer
  {
    if g.running then InjectRun(false, [CheckContainer])
    else if g.isLocal && !g.archiveExists then InjectRun(false, [CheckContainer])
    else
      var before := if g.isLocal then [CheckContainer] else [CheckContainer, TransferArchive];
      var extracted := before + [MakeDirectories, Extract];
      if !g.extracted then InjectRun(false, extracted)
      else if g.dbMissing then InjectRun(false, extracted + [CheckDbFile])
      else
        var checked := extracted + [CheckDbFile, CheckIntegrity];
        if !g.integrityPasses then InjectRun(false, checked)
        else InjectRun(true, checked + [FixOwner, FixMode, MeasureDb, MeasureMetadata])
  }

  /**
   * The integrity check passes exactly when the trimmed report is `ok` in
   * one of its four letter cases.
   */
  lemma IntegrityOkPasses(output: string)
    ensures IntegrityPasses(output) <==>
      var s := Strip(output); s == "ok" || s == "oK" || s == "Ok" || s == "OK"
  {
    LowersToOk(Strip(output));
  }

  /** The texts that lower-case to `ok` are its four letter cases. */
  lemma LowersToOk(s: string)
    ensures ToLower(s) == "ok" <==> s == "ok" || s == "oK" || s == "Ok" || s == "OK"
  {
    if ToLower(s) == "ok" {
      assert |s| == 2 && LowerChar(s[0]) == 'o' && LowerChar(s[1]) == 'k';
      assert s == [s[0], s[1]];
    } else if |s| == 2 {
      assert ToLower(s) == [LowerChar(s[0]), LowerChar(s[1])];
    }
  }

  // ---------------------------------------------------------------------------
  // get_library_stats_from_db
  // ---------------------------------------------------------------------------

  /** The statistics counted by the eight `COUNT(*)` queries, in query order. */
  const CountKeys: seq<string> := ["artists", "albums", "tracks", "tracks_with_sonic",
                                   "movies", "shows", "episodes", "photos"]

  /** A count query's value: its trimmed output when the query succeeded and printed digits only. */
  function CountOf(r: Reply): Option<nat> {
    if r.exitCode == 0 && IsDigits(Strip(r.stdout)) then Some(DigitsValue(Strip(r.stdout))) else None
  }

  /** The lines of a query's trimmed output; none when it failed or printed only white space. */
  function OutputLines(r: Reply): (lines: seq<string>)
    ensures r.exitCode != 0 || Strip(r.stdout) == [] ==> lines == []
    ensures r.exitCode == 0 && Strip(r.stdout) != [] ==> |lines| >= 1
  {
    if r.exitCode == 0 && Strip(r.stdout) != [] then Split(Strip(r.stdout), '\n') else []
  }

  /** One row of `library_sections`. */
  datatype Section = Section(id: string, name: string, sectionType: string)

  /** A sections line gives a section when it has at least three `|` fields: id, name and type. */
  function SectionOf(line: string): (s: Option<Section>)
    ensures s.Some? <==> |Split(line, '|')| >= 3
    ensures s.Some? ==> s.value.id == Split(line, '|')[0] && s.value.name == Split(line, '|')[1]
                        && s.value.sectionType == Split(line, '|')[2]
  {
    var parts := Split(line, '|');
    if |parts| >= 3 then Some(Section(parts[0], parts[1], parts[2])) else None
  }

  /** The sections of the given lines, in order. */
  function SectionsOf(lines: seq<string>): (ss: seq<Section>)
    ensures |ss| <= |lines|
  {
    if lines == [] then []
    else
      var init := SectionsOf(lines[..|lines| - 1]);
      match SectionOf(lines[|lines| - 1])
      case Some(s) => init + [s]
      case None => init
  }

  /** A section is listed exactly when some line gives it. */
  lemma {:induction false} SectionsOfMembers(lines: seq<string>, s: Section)
    ensures s in SectionsOf(lines) <==> exists i :: 0 <= i < |lines| && SectionOf(lines[i]) == Some(s)
    decreases |lines|
  {
    if lines != [] {
      var init := lines[..|lines| - 1];
      SectionsOfMembers(init, s);
      if exists i :: 0 <= i < |lines| && SectionOf(lines[i]) == Some(s) {
        var i :| 0 <= i < |lines| && SectionOf(lines[i]) == Some(s);
        if i < |init| {
          assert SectionOf(init[i]) == Some(s);
        }
      }
      if exists i :: 0 <= i < |init| && SectionOf(init[i]) == Some(s) {
        var i :| 0 <= i < |init| && SectionOf(init[i]) == Some(s);
        assert SectionOf(lines[i]) == Some(s);
      }
    }
  }

  /** A `section_locations` line gives a (section id, root path) pair when it has at least two fields. */
  function LocationOf(line: string): (l: Option<(string, string)>)
    ensures l.Some? <==> |Split(line, '|')| >= 2
  {
    var parts := Split(line, '|');
    if |parts| >= 2 then Some((parts[0], parts[1])) else None
  }

  /** The root paths the given lines list for section `id`, in order. */
  function PathsOf(lines: seq<string>, id: string): (ps: seq<string>)
    ensures |ps| <= |lines|
  {
    if lines == [] then []
    else
      var init := PathsOf(lines[..|lines| - 1], id);
      match LocationOf(lines[|lines| - 1])
      case Some(loc) => if loc.0 == id then init + [loc.1] else init
      case None => init
  }

  /** The next line adds its path to the list of the section it names, and to no other list. */
  lemma PathsOfStep(lines: seq<string>, i: nat, id: string)
    requires i < |lines|
    ensures |Split(lines[i], '|')| >= 2 && Split(lines[i], '|')[0] == id ==>
      PathsOf(lines[..i + 1], id) == PathsOf(lines[..i], id) + [Split(lines[i], '|')[1]]
    ensures !(|Split(lines[i], '|')| >= 2 && Split(lines[i], '|')[0] == id) ==>
      PathsOf(lines[..i + 1], id) == PathsOf(lines[..i], id)
  {
    assert lines[..i + 1][..i] == lines[..i];
  }

  /** The line has at least two fields and its first names section `id`. */
  predicate Names(line: string, id: string) {
    LocationOf(line).Some? && LocationOf(line).value.0 == id
  }

  /** A section has paths exactly when some line names it. */
  lemma {:induction false} PathsOfNonEmpty(lines: seq<string>, id: string)
    ensures PathsOf(lines, id) != [] <==> exists i :: 0 <= i < |lines| && Names(lines[i], id)
    decreases |lines|
  {
    if lines != [] {
      var n := |lines| - 1;
      var init := lines[..n];
      PathsOfNonEmpty(init, id);
      assert PathsOf(lines, id) != [] <==> PathsOf(init, id) != [] || Names(lines[n], id);
      assert forall i :: 0 <= i < n ==> init[i] == lines[i];
    }
  }

  /**
   * The statistics record: the eight counts (the count named `CountKeys[k]`
   * is `counts[k]`), the sections, and the root paths grouped by section id.
   */
  datatype LibraryStats = LibraryStats(counts: seq<nat>, sections: seq<Section>,
                                       sectionPaths: map<string, seq<string>>)

  /**
   * get_library_stats_from_db, given the replies of the eight count queries
   * (in `CountKeys` order), of the sections query and of the paths query.
   * A count stays 0 unless its query succeeded with a digits-only output.
   */
  method GetLibraryStatsFromDb(countReplies: seq<Reply>, sectionsReply: Reply, pathsReply: Reply)
    returns (stats: LibraryStats)
    requires |countReplies| == |CountKeys|
    ensures |stats.counts| == |CountKeys|
    ensures forall k :: 0 <= k < |CountKeys| ==> stats.counts[k] == CountOf(countReplies[k]).GetOr(0)
    ensures stats.sections == SectionsOf(OutputLines(sectionsReply))
    ensures forall id :: id in stats.sectionPaths <==> PathsOf(OutputLines(pathsReply), id) != []
    ensures forall id :: id in stats.sectionPaths ==> stats.sectionPaths[id] == PathsOf(OutputLines(pathsReply), id)
  {
    var counts := CountsOf(countReplies);
    var sections := ParseSections(OutputLines(sectionsReply));
    var paths := GroupPaths(OutputLines(pathsReply));
    stats := LibraryStats(counts, sections, paths);
  }

  /** The count loop: every statistic starts at 0 and takes its query's value when that parses. */
  method CountsOf(countReplies: seq<Reply>) returns (counts: seq<nat>)
    requires |countReplies| == |CountKeys|
    ensures |counts| == |CountKeys|
    ensures forall k :: 0 <= k < |CountKeys| ==> counts[k] == CountOf(countReplies[k]).GetOr(0)
  {
    counts := seq(|CountKeys|, _ => 0);
    var i := 0;
    while i < |CountKeys|
      invariant 0 <= i <= |CountKeys| && |counts| == |CountKeys|
      invariant forall k :: 0 <= k < i ==> counts[k] == CountOf(countReplies[k]).GetOr(0)
      invariant forall k :: i <= k < |CountKeys| ==> counts[k] == 0
    {
      var c := CountOf(countReplies[i]);
      if c.Some? {
        counts := counts[i := c.value];
      }
      i := i + 1;
    }
  }

  /** The sections loop: one section per line with at least three fields, in order. */
  method ParseSections(lines: seq<string>) returns (sections: seq<Section>)
    ensures sections == SectionsOf(lines)
  {
    sections := [];
    var i := 0;
    while i < |lines|
      invariant 0 <= i <= |lines|
      invariant sections == SectionsOf(lines[..i])
    {
      assert lines[..i + 1][..i] == lines[..i];
      var parts := Split(lines[i], '|');
      if |parts| >= 3 {
        sections := sections + [Section(parts[0], parts[1], parts[2])];
      }
      i := i + 1;
    }
    assert lines[..i] == lines;
  }

  /** The paths loop: each line with at least two fields appends its path to its section's list. */
  method GroupPaths(lines: seq<string>) returns (paths: map<string, seq<string>>)
    ensures forall id :: id in paths <==> PathsOf(lines, id) != []
    ensures forall id :: id in paths ==> paths[id] == PathsOf(lines, id)
  {
    paths := map[];
    var i := 0;
    while i < |lines|
      invariant 0 <= i <= |lines|
      invariant Grouped(paths, lines[..i])
    {
      GroupedStep(paths, lines, i);
      var parts := Split(lines[i], '|');
      if |parts| >= 2 {
        var sectionId := parts[0];
        var path := parts[1];
        if sectionId !in paths {
          paths := paths[sectionId := []];
        }
        paths := paths[sectionId := paths[sectionId] + [path]];
      }
      i := i + 1;
    }
    assert lines[..i] == lines;
  }

  /** `paths` holds, for each section some line names, exactly the paths the lines list for it. */
  ghost predicate Grouped(paths: map<string, seq<string>>, lines: seq<string>) {
    forall id :: (id in paths <==> PathsOf(lines, id) != []) && (id in paths ==> paths[id] == PathsOf(lines, id))
  }

  /** The grouping after one more line: its path is appended to its section's list, created empty if missing. */
  function WithLine(paths: map<string, seq<string>>, line: string): map<string, seq<string>> {
    var parts := Split(line, '|');
    if |parts| >= 2 then
      var withKey := if parts[0] in paths then paths else paths[parts[0] := []];
      withKey[parts[0] := withKey[parts[0]] + [parts[1]]]
    else paths
  }

  /** Taking one more line into account keeps the grouping exact. */
  lemma GroupedStep(paths: map<string, seq<string>>, lines: seq<string>, i: nat)
    requires i < |lines| && Grouped(paths, lines[..i])
    ensures Grouped(WithLine(paths, lines[i]), lines[..i + 1])
  {
    forall id ensures id in WithLine(paths, lines[i]) <==> PathsOf(lines[..i + 1], id) != []
      ensures id in WithLine(paths, lines[i]) ==> WithLine(paths, lines[i])[id] == PathsOf(lines[..i + 1], id)
    {
      PathsOfStep(lines, i, id);
    }
  }

  // ---------------------------------------------------------------------------
  // verify_paths_match
  // ---------------------------------------------------------------------------

  /** The standard media root, in the two spellings the relative path drops. */
  function MediaRoot(): string {
    "/media/"
  }

  function MediaRootCapitalised(): string {
    "/Media/"
  }

  /** The path relative to the media root: every `/media/`, then every `/Media/`, removed. */
  function RelativePath(dbPath: string): string {
    ReplaceAll(ReplaceAll(dbPath, MediaRoot(), ""), MediaRootCapitalised(), "")
  }

  /** Where a database path is looked for under the current mount point. */
  function CheckPath(mountPoint: string, dbPath: string): string {
    mountPoint + "/" + RelativePath(dbPath)
  }

  /** A library under the standard `/media/` root is looked for at the same place under the mount point. */
  lemma MediaPathRemapped(mountPoint: string, rel: string)
    requires !Contains(rel, MediaRoot()) && !Contains(rel, MediaRootCapitalised())
    ensures CheckPath(mountPoint, MediaRoot() + rel) == mountPoint + "/" + rel
  {
    var p := MediaRoot() + rel;
    assert p[..|MediaRoot()|] == MediaRoot() && p[|MediaRoot()|..] == rel;
    ReplaceAbsent(rel, MediaRoot(), "");
    assert ReplaceAll(p, MediaRoot(), "") == "" + ReplaceAll(rel, MediaRoot(), "");
    assert "" + rel == rel;
    ReplaceAbsent(rel, MediaRootCapitalised(), "");
  }

  /** The directory test's output reports the directory missing. */
  predicate ReportsMissing(output: string) {
    Contains(output, MissingMarker())
  }

  function MissingLabel(): string {
    "Chemin manquant: "
  }

  function MissingSuggestion(checkPath: string): string {
    MissingLabel() + checkPath
  }

  /** One suggestion per database path reported missing, in order. */
  function Suggestions(mountPoint: string, dbPaths: seq<string>, dirChecks: seq<string>): (ss: seq<string>)
    requires |dirChecks| >= |dbPaths|
    ensures |ss| <= |dbPaths|
  {
    if dbPaths == [] then []
    else
      var n := |dbPaths| - 1;
      Suggestions(mountPoint, dbPaths[..n], dirChecks)
      + if ReportsMissing(dirChecks[n]) then [MissingSuggestion(CheckPath(mountPoint, dbPaths[n]))] else []
  }

  /** There are no suggestions exactly when no path is reported missing. */
  lemma {:induction false} NoSuggestionsIffAllPresent(mountPoint: string, dbPaths: seq<string>, dirChecks: seq<string>)
    requires |dirChecks| >= |dbPaths|
    ensures Suggestions(mountPoint, dbPaths, dirChecks) == [] <==>
      forall i :: 0 <= i < |dbPaths| ==> !ReportsMissing(dirChecks[i])
    decreases |dbPaths|
  {
    if dbPaths != [] {
      var n := |dbPaths| - 1;
      NoSuggestionsIffAllPresent(mountPoint, dbPaths[..n], dirChecks);
      if forall i :: 0 <= i < n ==> !ReportsMissing(dirChecks[i]) {
      }
    }
  }

  /** Each suggestion names the check path of a database path that was reported missing, and each such path has one. */
  lemma {:induction false} SuggestionsAreMissingPaths(mountPoint: string, dbPaths: seq<string>, dirChecks: seq<string>, s: string)
    requires |dirChecks| >= |dbPaths|
    ensures s in Suggestions(mountPoint, dbPaths, dirChecks) <==>
      exists i :: 0 <= i < |dbPaths| && Suggests(mountPoint, dbPaths[i], dirChecks[i], s)
    decreases |dbPaths|
  {
    if dbPaths != [] {
      var n := |dbPaths| - 1;
      var init := dbPaths[..n];
      SuggestionsAreMissingPaths(mountPoint, init, dirChecks, s);
      assert s in Suggestions(mountPoint, dbPaths, dirChecks) <==>
        s in Suggestions(mountPoint, init, dirChecks) || Suggests(mountPoint, dbPaths[n], dirChecks[n], s);
      assert forall i :: 0 <= i < n ==> init[i] == dbPaths[i];
    }
  }

  /** The directory test of `dbPath` reports it missing, and `s` is the suggestion for its check path. */
  predicate Suggests(mountPoint: string, dbPath: string, dirCheck: string, s: string) {
    ReportsMissing(dirCheck) && s == MissingSuggestion(CheckPath(mountPoint, dbPath))
  }

  /** The record verify_paths_match returns. */
  datatype PathCheck = PathCheck(matches: bool, dbPaths: seq<string>, mountPoint: string, suggestions: seq<string>)

  /**
   * verify_paths_match, given the output of the root-path query and the
   * output of the directory test run for each database path. The paths match
   * unless some check path is reported missing, and each missing one yields
   * one suggestion.
   */
  method VerifyPathsMatch(query: Reply, mountPoint: string, dirChecks: seq<string>) returns (r: PathCheck)
    requires |dirChecks| >= |OutputLines(query)|
    ensures r.dbPaths == OutputLines(query) && r.mountPoint == mountPoint
    ensures r.suggestions == Suggestions(mountPoint, r.dbPaths, dirChecks)
    ensures r.matches <==> forall i :: 0 <= i < |r.dbPaths| ==> !ReportsMissing(dirChecks[i])
  {
    var dbPaths := OutputLines(query);
    var allMatch, suggestions := CheckPaths(mountPoint, dbPaths, dirChecks);
    r := PathCheck(allMatch, dbPaths, mountPoint, suggestions);
  }

  /** The loop of verify_paths_match over the database paths. */
  method CheckPaths(mountPoint: string, dbPaths: seq<string>, dirChecks: seq<string>)
    returns (allMatch: bool, suggestions: seq<string>)
    requires |dirChecks| >= |dbPaths|
    ensures suggestions == Suggestions(mountPoint, dbPaths, dirChecks)
    ensures allMatch <==> forall i :: 0 <= i < |dbPaths| ==> !ReportsMissing(dirChecks[i])
  {
    suggestions := [];
    allMatch := true;
    var i := 0;
    while i < |dbPaths|
      invariant 0 <= i <= |dbPaths|
      invariant suggestions == Suggestions(mountPoint, dbPaths[..i], dirChecks)
      invariant allMatch <==> forall j :: 0 <= j < i ==> !ReportsMissing(dirChecks[j])
    {
      assert dbPaths[..i + 1][..i] == dbPaths[..i];
      var checkPath := CheckPath(mountPoint, dbPaths[i]);
      if ReportsMissing(dirChecks[i]) {
        allMatch := false;
        suggestions := suggestions + [MissingSuggestion(checkPath)];
      }
      i := i + 1;
    }
    assert dbPaths[..i] == dbPaths;
  }

  /** The paths match exactly when there is no suggestion; an empty path list matches. */
  lemma MatchIffNoSuggestions(query: Reply, mountPoint: string, dirChecks: seq<string>, r: PathCheck)
    requires |dirChecks| >= |OutputLines(query)|
    requires r.dbPaths == OutputLines(query)
    requires r.suggestions == Suggestions(mountPoint, r.dbPaths, dirChecks)
    requires r.matches <==> forall i :: 0 <= i < |r.dbPaths| ==> !ReportsMissing(dirChecks[i])
    ensures r.matches <==> r.suggestions == []
    ensures r.dbPaths == [] ==> r.matches
  {
    NoSuggestionsIffAllPresent(mountPoint, r.dbPaths, dirChecks);
  }
}
