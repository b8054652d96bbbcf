/**
 * `RepositoryAnalyzer.analyze`: one pass over the walked entries that builds
 * the analysis record. The functions state what each step produces; the
 * class `Analysis` is the record the source mutates in place and
 * `Analyze` is its loop.
 */
module Analyzer {
  import opened Wrappers
  import opened Entries
  import opened IgnorePolicy
  import opened Classification
  import opened Text

  /**
   * The finished analysis: `file_types` and `languages` as sets (their
   * list order is unspecified), the other lists in the order they were built.
   */
  datatype Profile = Profile(
    fileTypes: set<string>,
    languages: set<string>,
    structure: seq<string>,
    mainFiles: seq<string>,
    configFiles: seq<string>,
    dependencies: seq<string>,
    projectType: string)

  /** The record before the first file is seen. */
  const Empty: Profile := Profile({}, {}, [], [], [], [], Unknown)

  /** No concrete project type has been chosen yet. */
  predicate Unset(projectType: string)
  {
    projectType == "" || projectType == Unknown
  }

  /**
   * What `_analyze_file` adds to the record for one kept file. It leaves the
   * paths and file types alone, adds at most one path to each name list,
   * and never replaces a concrete project type.
   */
  function Classified(p: Profile, e: FileEntry): (r: Profile)
    ensures r.structure == p.structure && r.fileTypes == p.fileTypes
    ensures |p.mainFiles| <= |r.mainFiles| <= |p.mainFiles| + 1
    ensures |p.configFiles| <= |r.configFiles| <= |p.configFiles| + 1
    ensures !Unset(p.projectType) ==> r.projectType == p.projectType
  {
    var name := FileName(e);
    var suffix := FileType(e);
    var lang := Language(suffix);
    p.(
      mainFiles := p.mainFiles + (if name in MainNames then [e.relative] else []),
      configFiles := p.configFiles + (if name in ConfigNames then [e.relative] else []),
      languages := p.languages + (if lang.Some? then {lang.value} else {}),
      projectType := if lang.Some? && IsPrimary(suffix) && Unset(p.projectType) then lang.value else p.projectType,
      dependencies := p.dependencies +
        (if name == Manifest && e.text.Some? then Dependencies(e.text.value) else []))
  }

  /**
   * What the loop body adds for one kept file: its path, its file type, then
   * `_analyze_file`. The path is the one new entry of `structure`.
   */
  function Recorded(p: Profile, e: FileEntry): (r: Profile)
    ensures |r.structure| == |p.structure| + 1 && r.structure[|p.structure|] == e.relative
    ensures p.fileTypes <= r.fileTypes && p.languages <= r.languages
    ensures !Unset(p.projectType) ==> r.projectType == p.projectType
  {
    var suffix := FileType(e);
    Classified(
      p.(structure := p.structure + [e.relative],
         fileTypes := p.fileTypes + (if suffix != "" then {suffix} else {})),
      e)
  }

  /**
   * One iteration of the walk: a failing `is_file()` or `stat()` aborts;
   * otherwise what is not a file or is ignored is skipped.
   */
  function Visit(p: Profile, e: FileEntry): (r: Result<Profile, ScanError>)
    ensures e.isFile.None? ==> r == Failure(IsFileFailed(e.parts))
    ensures e.isFile == Some(false) ==> r == Success(p)
    ensures r.Success? ==> |p.structure| <= |r.value.structure| <= |p.structure| + 1
  {
    match e.isFile
    case None => Failure(IsFileFailed(e.parts))
    case Some(isFile) =>
      if !isFile then Success(p)
      else match ShouldIgnore(e)
        case Failure(err) => Failure(err)
        case Success(ignore) => if ignore then Success(p) else Success(Recorded(p, e))
  }

  /** The record after walking `walk` in order, or the error that aborted the walk. */
  function Scan(walk: seq<FileEntry>): (r: Result<Profile, ScanError>)
    ensures walk == [] ==> r == Success(Empty)
    ensures r.Success? ==> |r.value.structure| <= |walk|
  {
    if walk == [] then Success(Empty)
    else match Scan(walk[..|walk| - 1])
      case Failure(err) => Failure(err)
      case Success(p) => Visit(p, walk[|walk| - 1])
  }

  /** Once the walk has failed, walking on does not undo the failure. */
  lemma {:induction false} FailureIsFinal(walk: seq<FileEntry>, i: nat)
    requires i <= |walk| && Scan(walk[..i]).Failure?
    ensures Scan(walk) == Scan(walk[..i])
    decreases |walk| - i
  {
    if i < |walk| {
      assert walk[..i + 1][..i] == walk[..i];
      FailureIsFinal(walk, i + 1);
    } else {
      assert walk[..i] == walk;
    }
  }

  /** The analysis record that `analyze` fills in (the `result` dictionary). */
  class Analysis {
    var fileTypes: set<string>
    var languages: set<string>
    var structure: seq<string>
    var mainFiles: seq<string>
    var configFiles: seq<string>
    var dependencies: seq<string>
    var projectType: string

    /** The record's current contents as a value. */
    function Snapshot(): Profile
      reads this
    {
      Profile(fileTypes, languages, structure, mainFiles, configFiles, dependencies, projectType)
    }

    /** The record of lines 45-53: every collection empty, project type "unknown". */
    constructor ()
      ensures Snapshot() == Empty
    {
      fileTypes, languages := {}, {};
      structure, mainFiles, configFiles, dependencies := [], [], [], [];
      projectType := Unknown;
    }

    /** The loop at lines 138-141: appends each stripped dependency line, in order. */
    method ExtractDependencies(content: string)
      modifies this`dependencies
      ensures dependencies == old(dependencies) + Dependencies(content)
    {
      var lines := Split(content, '\n');
      var i := 0;
      while i < |lines|
        invariant 0 <= i <= |lines|
        invariant dependencies == old(dependencies) + DependencyLines(lines[..i])
      {
        var line := Strip(lines[i]);
        if IsDependency(line) {
          dependencies := dependencies + [line];
        }
        assert lines[..i + 1][..i] == lines[..i];
        i := i + 1;
      }
      assert lines[..i] == lines;
    }

    /** `_analyze_file`: records entry points, configuration files, the language, the project type and dependencies. */
    method AnalyzeFile(e: FileEntry)
      modifies this
      ensures Snapshot() == Classified(old(Snapshot()), e)
    {
      ghost var p := Snapshot();
      ghost var q := Classified(p, e);
      var filename := FileName(e);
      var suffix := FileType(e);
      if filename in MainNames {
        mainFiles := mainFiles + [e.relative];
      }
      assert mainFiles == q.mainFiles;
      if filename in ConfigNames {
        configFiles := configFiles + [e.relative];
      }
      assert configFiles == q.configFiles;
      var lang := Language(suffix);
      if lang.Some? {
        languages := languages + {lang.value};
        if IsPrimary(suffix) && Unset(projectType) {
          projectType := lang.value;
        }
      }
      assert languages == q.languages && projectType == q.projectType;
      if filename == Manifest {
        match e.text
        case Some(content) => ExtractDependencies(content);
        case None =>
      }
      assert dependencies == q.dependencies;
    }

    /** The body of the walk for a kept file: its path, its non-empty file type, then `_analyze_file`. */
    method Record(e: FileEntry)
      modifies this
      ensures Snapshot() == Recorded(old(Snapshot()), e)
    {
      structure := structure + [e.relative];
      var suffix := FileType(e);
      if suffix != "" {
        fileTypes := fileTypes + {suffix};
      }
      AnalyzeFile(e);
    }
  }

  /**
   * `analyze`: walks the entries in the order given, skipping non-files and
   * ignored files, recording every kept file, and stops at the first
   * unguarded `is_file()` or `stat()` failure.
   */
  method Analyze(walk: seq<FileEntry>) returns (r: Result<Profile, ScanError>)
    ensures r == Scan(walk)
  {
    var result := new Analysis();
    var i := 0;
    while i < |walk|
      invariant 0 <= i <= |walk|
      invariant Scan(walk[..i]) == Success(result.Snapshot())
    {
      var e := walk[i];
      assert walk[..i + 1][..i] == walk[..i];
      assert Scan(walk[..i + 1]) == Visit(result.Snapshot(), e);
      if e.isFile.None? {
        FailureIsFinal(walk, i + 1);
        return Failure(IsFileFailed(e.parts));
      }
      if e.isFile.value {
        var verdict := ShouldIgnore(e);
        match verdict
        case Failure(err) =>
          FailureIsFinal(walk, i + 1);
          return Failure(err);
        case Success(ignore) =>
          if !ignore {
            result.Record(e);
          }
      }
      i := i + 1;
    }
    assert walk[..i] == walk;
    return Success(result.Snapshot());
  }
}
