/**
 * What `RepositoryAnalyzer.analyze` computes, stated without its loop: the
 * record is determined by the files the ignore policy keeps, each field by
 * a definition of its own (a filter, a set of suffixes, the first
 * primary-language file), and the walk fails exactly when some entry's
 * `is_file()`, or some file's `stat()`, raises.
 */
module ScanProperties {
  import opened Wrappers
  import opened Entries
  import opened IgnorePolicy
  import opened Classification
  import opened Analyzer
  import opened Lists

  /** A walked entry that is a file and that the ignore policy keeps. */
  predicate Kept(e: FileEntry)
  {
    e.isFile == Some(true) && ShouldIgnore(e) == Success(false)
  }

  /**
   * A walked entry that ends the walk: its `is_file()` raises, wherever it
   * lies, or it is a file whose `stat()` raises outside the ignored directories.
   */
  predicate Aborts(e: FileEntry)
  {
    e.isFile.None? || (e.isFile == Some(true) && !InIgnoredDir(e.parts) && e.size.None?)
  }

  /** The error with which an entry ends the walk. */
  function AbortError(e: FileEntry): ScanError
  {
    if e.isFile.None? then IsFileFailed(e.parts) else StatFailed(e.parts)
  }

  /** No entry of the walk ends it. */
  predicate Completes(walk: seq<FileEntry>)
  {
    forall i :: 0 <= i < |walk| ==> !Aborts(walk[i])
  }

  /** The kept entries of a walk, in walk order. */
  function KeptFiles(walk: seq<FileEntry>): seq<FileEntry>
  {
    Filter(walk, Kept)
  }

  /** The test "the lower-cased file name is one of `names`". */
  function NameIn(names: set<string>): FileEntry -> bool
  {
    e => FileName(e) in names
  }

  /** The kept entries whose lower-cased file name is one of `names`, in order. */
  function Named(kept: seq<FileEntry>, names: set<string>): seq<FileEntry>
  {
    Filter(kept, NameIn(names))
  }

  /** The relative paths of some entries, in order. */
  function Relatives(entries: seq<FileEntry>): seq<string>
  {
    seq(|entries|, i requires 0 <= i < |entries| => entries[i].relative)
  }

  /** The non-empty file types of the kept entries. */
  function FileTypesOf(kept: seq<FileEntry>): set<string>
  {
    set e | e in kept && FileType(e) != "" :: FileType(e)
  }

  /** The languages the suffix table gives the kept entries. */
  function LanguagesOf(kept: seq<FileEntry>): set<string>
  {
    set e | e in kept && Language(FileType(e)).Some? :: Language(FileType(e)).value
  }

  /** The dependencies one entry contributes: those of a readable `requirements.txt`, else none. */
  function ManifestLines(e: FileEntry): seq<string>
  {
    if FileName(e) == Manifest && e.text.Some? then Dependencies(e.text.value) else []
  }

  /** The dependencies of every readable `requirements.txt` among the kept entries, file after file. */
  function ManifestDependencies(kept: seq<FileEntry>): seq<string>
  {
    FlatMap(kept, ManifestLines)
  }

  /** An entry with a Python or JavaScript suffix. */
  predicate PrimaryFile(e: FileEntry)
  {
    IsPrimary(FileType(e))
  }

  /** The first kept entry with a Python or JavaScript suffix. */
  function FirstPrimary(kept: seq<FileEntry>): Option<FileEntry>
  {
    FirstWhere(kept, PrimaryFile)
  }

  /** "Python" for a `.py` file, "JavaScript" for the script suffixes. */
  function PrimaryLanguage(e: FileEntry): string
  {
    if FileType(e) == ".py" then "Python" else "JavaScript"
  }

  /** The project type: the language of the first primary-language file, "unknown" without one. */
  function ProjectTypeOf(kept: seq<FileEntry>): string
  {
    match FirstPrimary(kept)
    case None => Unknown
    case Some(e) => PrimaryLanguage(e)
  }

  /** The whole record for a walk that keeps `kept`. */
  function Summary(kept: seq<FileEntry>): Profile
  {
    Profile(
      FileTypesOf(kept),
      LanguagesOf(kept),
      Relatives(kept),
      Relatives(Named(kept, MainNames)),
      Relatives(Named(kept, ConfigNames)),
      ManifestDependencies(kept),
      ProjectTypeOf(kept))
  }

  lemma RelativesAppend(a: seq<FileEntry>, b: seq<FileEntry>)
    ensures Relatives(a + b) == Relatives(a) + Relatives(b)
  {
  }

  // The record of one more kept file.

  /** A project type taken from `ProjectTypeOf` is unset exactly when no primary file was seen. */
  lemma ProjectTypeUnset(kept: seq<FileEntry>)
    ensures Unset(ProjectTypeOf(kept)) <==> FirstPrimary(kept).None?
  {
  }

  /** The language the suffix table gives a primary suffix. */
  lemma PrimaryLanguageAgrees(e: FileEntry)
    requires IsPrimary(FileType(e))
    ensures Language(FileType(e)) == Some(PrimaryLanguage(e))
  {
  }

  lemma FileTypesSnoc(kept: seq<FileEntry>, e: FileEntry)
    ensures FileTypesOf(kept + [e]) == FileTypesOf(kept) + (if FileType(e) != "" then {FileType(e)} else {})
  {
    assert forall x :: x in kept + [e] <==> x in kept || x == e;
  }

  lemma LanguagesSnoc(kept: seq<FileEntry>, e: FileEntry)
    ensures var lang := Language(FileType(e));
      LanguagesOf(kept + [e]) == LanguagesOf(kept) + (if lang.Some? then {lang.value} else {})
  {
    assert forall x :: x in kept + [e] <==> x in kept || x == e;
  }

  lemma NamedSnoc(kept: seq<FileEntry>, e: FileEntry, names: set<string>)
    ensures Relatives(Named(kept + [e], names)) == Relatives(Named(kept, names)) + (if FileName(e) in names then [e.relative] else [])
  {
    FilterAppend(kept, [e], NameIn(names));
    assert Named([e], names) == if FileName(e) in names then [e] else [];
    RelativesAppend(Named(kept, names), Named([e], names));
  }

  lemma ManifestDependenciesSnoc(kept: seq<FileEntry>, e: FileEntry)
    ensures ManifestDependencies(kept + [e]) == ManifestDependencies(kept) +
      (if FileName(e) == Manifest && e.text.Some? then Dependencies(e.text.value) else [])
  {
    FlatMapAppend(kept, [e], ManifestLines);
    assert ManifestDependencies([e]) == if FileName(e) == Manifest && e.text.Some? then Dependencies(e.text.value) else [];
  }

  lemma ProjectTypeSnoc(kept: seq<FileEntry>, e: FileEntry)
    ensures var suffix := FileType(e);
      var lang := Language(suffix);
      ProjectTypeOf(kept + [e]) ==
        if lang.Some? && IsPrimary(suffix) && Unset(ProjectTypeOf(kept)) then lang.value else ProjectTypeOf(kept)
  {
    FirstWhereAppend(kept, [e], PrimaryFile);
    ProjectTypeUnset(kept);
    if IsPrimary(FileType(e)) {
      PrimaryLanguageAgrees(e);
    }
  }

  /** The record for `kept` followed by one more kept file is that file recorded into the record for `kept`. */
  lemma SummarySnoc(kept: seq<FileEntry>, e: FileEntry)
    ensures Summary(kept + [e]) == Recorded(Summary(kept), e)
  {
    FileTypesSnoc(kept, e);
    LanguagesSnoc(kept, e);
    RelativesAppend(kept, [e]);
    assert Relatives([e]) == [e.relative];
    NamedSnoc(kept, e, MainNames);
    NamedSnoc(kept, e, ConfigNames);
    ManifestDependenciesSnoc(kept, e);
    ProjectTypeSnoc(kept, e);
  }

  // The walk as a whole.

  /** A walk that no file ends yields the record of its kept files. */
  lemma {:induction false} ScanSummary(walk: seq<FileEntry>)
    requires Completes(walk)
    ensures Scan(walk) == Success(Summary(KeptFiles(walk)))
  {
    if walk == [] {
      assert Summary([]) == Empty;
    } else {
      var init := walk[..|walk| - 1];
      var last := walk[|walk| - 1];
      assert walk == init + [last];
      assert Completes(init) by {
        forall i | 0 <= i < |init| ensures !Aborts(init[i]) {
          assert init[i] == walk[i];
        }
      }
      ScanSummary(init);
      FilterAppend(init, [last], Kept);
      assert !Aborts(last);
      var p := Summary(KeptFiles(init));
      if Kept(last) {
        assert KeptFiles([last]) == [last];
        KeptVisit(p, last);
        SummarySnoc(KeptFiles(init), last);
      } else {
        assert KeptFiles([last]) == [];
        SkippedVisit(p, last);
        assert KeptFiles(walk) == KeptFiles(init);
      }
    }
  }

  /** The walk fails exactly when some file in it ends it. */
  lemma {:induction false} ScanFailsExactly(walk: seq<FileEntry>)
    ensures Scan(walk).Failure? <==> !Completes(walk)
  {
    if walk != [] {
      var init := walk[..|walk| - 1];
      var last := walk[|walk| - 1];
      ScanFailsExactly(init);
      assert forall i :: 0 <= i < |init| ==> init[i] == walk[i];
      if !Completes(init) {
        var i :| 0 <= i < |init| && Aborts(init[i]);
        assert Aborts(walk[i]);
      } else if Aborts(last) {
        assert !Completes(walk);
      } else {
        assert Completes(walk);
      }
    }
  }

  /** The walk stops at an entry that ends it, once everything before it went through. */
  lemma AbortStep(walk: seq<FileEntry>, i: nat)
    requires i < |walk| && Aborts(walk[i])
    requires Scan(walk[..i]).Success?
    ensures Scan(walk[..i + 1]) == Failure(AbortError(walk[i]))
  {
    var pre := walk[..i];
    assert walk[..i + 1] == pre + [walk[i]];
    assert (pre + [walk[i]])[..i] == pre;
    StatFailureExactly(walk[i]);
  }

  /** The error is the `is_file()` or `stat()` failure of the first entry that ends the walk. */
  lemma ScanFailsAtFirst(walk: seq<FileEntry>, i: nat)
    requires i < |walk| && Aborts(walk[i]) && Completes(walk[..i])
    ensures Scan(walk) == Failure(AbortError(walk[i]))
  {
    CompletedSucceeds(walk[..i]);
    AbortStep(walk, i);
    FailureIsFinal(walk, i + 1);
  }

  /** A walk that no entry ends goes through. */
  lemma CompletedSucceeds(walk: seq<FileEntry>)
    requires Completes(walk)
    ensures Scan(walk).Success?
  {
    ScanFailsExactly(walk);
  }

  /**
   * An entry whose `is_file()` raises ends a walk that went through so far,
   * even inside an ignored directory: the ignore test comes after it.
   */
  lemma IsFileFailureEndsWalk(a: seq<FileEntry>, e: FileEntry)
    requires Completes(a) && e.isFile.None?
    ensures Scan(a + [e]) == Failure(IsFileFailed(e.parts))
    ensures InIgnoredDir(e.parts) ==> Aborts(e) && !Kept(e)
  {
    ScanFailsExactly(a);
    assert (a + [e])[..|a|] == a;
  }

  /** An entry that is not kept and does not end the walk changes nothing, wherever it stands. */
  lemma {:induction false} ExcludedEntryHasNoEffect(a: seq<FileEntry>, e: FileEntry, b: seq<FileEntry>)
    requires !Kept(e) && !Aborts(e)
    ensures Scan(a + [e] + b) == Scan(a + b)
    decreases |b|
  {
    if b == [] {
      assert a + [e] + b == a + [e] && (a + [e])[..|a|] == a;
      assert a + b == a;
      if Scan(a).Success? {
        SkippedVisit(Scan(a).value, e);
      }
    } else {
      var b' := b[..|b| - 1];
      ExcludedEntryHasNoEffect(a, e, b');
      assert (a + [e] + b)[..|a + [e] + b| - 1] == a + [e] + b';
      assert (a + b)[..|a + b| - 1] == a + b';
    }
  }

  /** Visiting a kept file records it. */
  lemma KeptVisit(p: Profile, e: FileEntry)
    requires Kept(e)
    ensures Visit(p, e) == Success(Recorded(p, e))
  {
  }

  /** Visiting an entry that is neither kept nor ends the walk leaves the record as it is. */
  lemma SkippedVisit(p: Profile, e: FileEntry)
    requires !Kept(e) && !Aborts(e)
    ensures Visit(p, e) == Success(p)
  {
  }

  // The fields of a completed walk.

  /** `structure` lists the relative path of every kept file, in walk order. */
  lemma StructureIsKeptPaths(walk: seq<FileEntry>)
    requires Scan(walk).Success?
    ensures Scan(walk).value.structure == Relatives(KeptFiles(walk))
    ensures |Scan(walk).value.structure| == |KeptFiles(walk)|
  {
    ScanFailsExactly(walk);
    ScanSummary(walk);
  }

  /** `file_types` holds exactly the non-empty file types of kept files. */
  lemma FileTypesExactly(walk: seq<FileEntry>, t: string)
    requires Scan(walk).Success?
    ensures t in Scan(walk).value.fileTypes <==> t != "" && exists e :: e in walk && Kept(e) && FileType(e) == t
  {
    ScanFailsExactly(walk);
    ScanSummary(walk);
    forall e ensures e in KeptFiles(walk) <==> e in walk && Kept(e) {
      FilterMembers(walk, Kept, e);
    }
  }

  /** `languages` holds exactly the languages the suffix table gives kept files. */
  lemma LanguagesExactly(walk: seq<FileEntry>, l: string)
    requires Scan(walk).Success?
    ensures l in Scan(walk).value.languages <==> exists e :: e in walk && Kept(e) && Language(FileType(e)) == Some(l)
  {
    ScanFailsExactly(walk);
    ScanSummary(walk);
    forall e ensures e in KeptFiles(walk) <==> e in walk && Kept(e) {
      FilterMembers(walk, Kept, e);
    }
  }

  /**
   * `main_files` and `config_files` are the paths of the kept files with a
   * listed name, in walk order, and each of them is also in `structure`.
   */
  lemma NamedFilesExactly(walk: seq<FileEntry>, e: FileEntry)
    requires Scan(walk).Success?
    ensures Scan(walk).value.mainFiles == Relatives(Named(KeptFiles(walk), MainNames))
    ensures Scan(walk).value.configFiles == Relatives(Named(KeptFiles(walk), ConfigNames))
    ensures e in Named(KeptFiles(walk), MainNames) <==> e in walk && Kept(e) && FileName(e) in MainNames
    ensures e in Named(KeptFiles(walk), ConfigNames) <==> e in walk && Kept(e) && FileName(e) in ConfigNames
    ensures e in Named(KeptFiles(walk), MainNames) ==> e.relative in Scan(walk).value.structure
    ensures e in Named(KeptFiles(walk), ConfigNames) ==> e.relative in Scan(walk).value.structure
  {
    ScanFailsExactly(walk);
    ScanSummary(walk);
    FilterMembers(walk, Kept, e);
    FilterMembers(KeptFiles(walk), NameIn(MainNames), e);
    FilterMembers(KeptFiles(walk), NameIn(ConfigNames), e);
    if e in KeptFiles(walk) {
      var k :| 0 <= k < |KeptFiles(walk)| && KeptFiles(walk)[k] == e;
      assert Relatives(KeptFiles(walk))[k] == e.relative;
    }
  }

  /** `dependencies` is the dependency lines of the kept, readable `requirements.txt` files, file after file. */
  lemma DependenciesOfManifests(walk: seq<FileEntry>)
    requires Scan(walk).Success?
    ensures Scan(walk).value.dependencies == ManifestDependencies(KeptFiles(walk))
  {
    ScanFailsExactly(walk);
    ScanSummary(walk);
  }

  /** Every dependency comes from a kept, readable `requirements.txt`, and each of those contributes all of its own. */
  lemma ManifestDependencySource(walk: seq<FileEntry>, d: string)
    requires Scan(walk).Success?
    ensures d in Scan(walk).value.dependencies <==>
      exists e :: e in walk && Kept(e) && FileName(e) == Manifest && e.text.Some? && d in Dependencies(e.text.value)
  {
    DependenciesOfManifests(walk);
    FlatMapMembers(KeptFiles(walk), ManifestLines, d);
    forall e ensures e in KeptFiles(walk) <==> e in walk && Kept(e) {
      FilterMembers(walk, Kept, e);
    }
  }

  /** The project type of a completed walk is that of its kept files. */
  lemma ProjectTypeField(walk: seq<FileEntry>)
    requires Scan(walk).Success?
    ensures Scan(walk).value.projectType == ProjectTypeOf(KeptFiles(walk))
  {
    ScanFailsExactly(walk);
    ScanSummary(walk);
  }

  /** The project type of a completed walk is the language of its first kept primary-language file. */
  lemma ProjectTypeIsFirstPrimary(walk: seq<FileEntry>, i: nat)
    requires Scan(walk).Success?
    requires i < |walk| && Kept(walk[i]) && IsPrimary(FileType(walk[i]))
    requires forall j :: 0 <= j < i ==> !(Kept(walk[j]) && IsPrimary(FileType(walk[j])))
    ensures Scan(walk).value.projectType == PrimaryLanguage(walk[i])
  {
    ProjectTypeField(walk);
    FirstWhereOfFilter(walk, Kept, PrimaryFile, i);
  }

  /** The project type stays "unknown" exactly when no kept file has a primary-language suffix. */
  lemma ProjectTypeUnknown(walk: seq<FileEntry>)
    requires Scan(walk).Success?
    ensures Scan(walk).value.projectType == Unknown <==> forall e :: e in walk && Kept(e) ==> !IsPrimary(FileType(e))
  {
    ScanFailsExactly(walk);
    ScanSummary(walk);
    forall e ensures e in KeptFiles(walk) <==> e in walk && Kept(e) {
      FilterMembers(walk, Kept, e);
    }
    FirstWhereNone(KeptFiles(walk), PrimaryFile);
  }

  /** Once the project type is concrete, walking on does not change it. */
  lemma ProjectTypeSticks(a: seq<FileEntry>, b: seq<FileEntry>)
    requires Scan(a + b).Success?
    requires Scan(a).Success? && Scan(a).value.projectType != Unknown
    ensures Scan(a + b).value.projectType == Scan(a).value.projectType
  {
    ScanFailsExactly(a);
    ScanFailsExactly(a + b);
    ScanSummary(a);
    ScanSummary(a + b);
    FilterAppend(a, b, Kept);
    FirstWhereAppend(KeptFiles(a), KeptFiles(b), PrimaryFile);
  }

  // Single files.

  /** A kept file adds at most one language, the one its suffix names. */
  lemma AtMostOneLanguage(p: Profile, e: FileEntry)
    ensures Language(FileType(e)).None? ==> Recorded(p, e).languages == p.languages
    ensures Language(FileType(e)).Some? ==> Recorded(p, e).languages == p.languages + {Language(FileType(e)).value}
  {
  }

  /** A suffix outside the table is still recorded as a file type, but names no language. */
  lemma UnlistedSuffixOnlyRecorded(p: Profile, e: FileEntry)
    requires FileType(e) != "" && Language(FileType(e)).None?
    ensures Recorded(p, e).fileTypes == p.fileTypes + {FileType(e)}
    ensures Recorded(p, e).languages == p.languages
  {
  }

  /** An unreadable `requirements.txt` adds no dependency but is listed as a kept and a configuration file. */
  lemma UnreadableManifest(p: Profile, e: FileEntry)
    requires FileName(e) == Manifest && e.text.None?
    ensures Recorded(p, e).dependencies == p.dependencies
    ensures Recorded(p, e).structure == p.structure + [e.relative]
    ensures Recorded(p, e).configFiles == p.configFiles + [e.relative]
  {
  }
}
