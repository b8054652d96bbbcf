/**
 * The fixed tables of `RepositoryAnalyzer._analyze_file`: entry-point and
 * configuration file names, the suffix-to-language table, and the filter
 * that picks dependency lines out of `requirements.txt`.
 */
module Classification {
  import opened Wrappers
  import opened Text
  import opened TextSlices

  /** Lower-cased names of entry-point files. */
  const MainNames: set<string> := {"main.py", "app.py", "index.py", "run.py"}

  /** Lower-cased names of configuration files. */
  const ConfigNames: set<string> :=
    {"requirements.txt", "package.json", "setup.py", "pyproject.toml",
     "dockerfile", "docker-compose.yml", ".env.example", "config.json"}

  /** The one manifest whose lines are read as dependencies. */
  const Manifest: string := "requirements.txt"

  /** Suffixes of the JavaScript family. */
  const ScriptSuffixes: set<string> := {".js", ".jsx", ".ts", ".tsx"}

  /** The project type before any primary-language file is seen. */
  const Unknown: string := "unknown"

  /** The suffixes the language table knows. */
  const TableSuffixes: set<string> :=
    {".py", ".js", ".jsx", ".ts", ".tsx", ".html", ".htm", ".css", ".json", ".md", ".yml", ".yaml", ".txt"}

  /** The languages the table can name. */
  const TableLanguages: set<string> := {"Python", "JavaScript", "HTML", "CSS", "JSON", "Markdown", "YAML", "Text"}

  /**
   * The language a lower-cased suffix stands for, tried in the order of the
   * source's elif chain: one of the table's languages for a suffix the table
   * lists, nothing for any other.
   */
  function Language(suffix: string): (r: Option<string>)
    ensures r.Some? <==> suffix in TableSuffixes
    ensures r.Some? ==> r.value in TableLanguages
  {
    if suffix == ".py" then Some("Python")
    else if suffix in ScriptSuffixes then Some("JavaScript")
    else if suffix in {".html", ".htm"} then Some("HTML")
    else if suffix == ".css" then Some("CSS")
    else if suffix == ".json" then Some("JSON")
    else if suffix == ".md" then Some("Markdown")
    else if suffix in {".yml", ".yaml"} then Some("YAML")
    else if suffix == ".txt" then Some("Text")
    else None
  }

  /** A primary-language suffix: one that may also set the project type. */
  predicate IsPrimary(suffix: string)
  {
    suffix == ".py" || suffix in ScriptSuffixes
  }

  /** The primary suffixes are exactly those mapped to Python or JavaScript. */
  lemma PrimaryLanguages(suffix: string)
    ensures IsPrimary(suffix) <==> Language(suffix) == Some("Python") || Language(suffix) == Some("JavaScript")
  {
  }

  /** A stripped line kept as a dependency: non-empty, not a comment, pinned with `==`. */
  predicate IsDependency(line: string)
  {
    line != [] && !StartsWith(line, "#") && Contains(line, "==")
  }

  /** The loop over `content.split('\n')`: each line stripped, kept if it is a dependency. */
  function DependencyLines(lines: seq<string>): (r: seq<string>)
    ensures |r| <= |lines|
    ensures lines != [] && IsDependency(Strip(lines[|lines| - 1])) ==> r != [] && r[|r| - 1] == Strip(lines[|lines| - 1])
  {
    if lines == [] then []
    else
      var line := Strip(lines[|lines| - 1]);
      DependencyLines(lines[..|lines| - 1]) + (if IsDependency(line) then [line] else [])
  }

  /** The dependencies listed in the text of a `requirements.txt`. */
  function Dependencies(content: string): (r: seq<string>)
    ensures |r| <= |Split(content, '\n')|
  {
    DependencyLines(Split(content, '\n'))
  }

  /** Every extracted string is the stripped form of some line and passes the filter. */
  lemma {:induction false} DependencyLinesSound(lines: seq<string>, d: string)
    requires d in DependencyLines(lines)
    ensures IsDependency(d) && exists k :: 0 <= k < |lines| && Strip(lines[k]) == d
  {
    var init := lines[..|lines| - 1];
    if d in DependencyLines(init) {
      DependencyLinesSound(init, d);
      var k :| 0 <= k < |init| && Strip(init[k]) == d;
      assert Strip(lines[k]) == d;
    } else {
      assert Strip(lines[|lines| - 1]) == d;
    }
  }

  /** Every line whose stripped form passes the filter is extracted. */
  lemma {:induction false} DependencyLinesComplete(lines: seq<string>, k: nat)
    requires k < |lines| && IsDependency(Strip(lines[k]))
    ensures Strip(lines[k]) in DependencyLines(lines)
  {
    var init := lines[..|lines| - 1];
    if k < |init| {
      assert init[k] == lines[k];
      DependencyLinesComplete(init, k);
    }
  }

  /** Extracted dependencies keep the relative order of their lines. */
  lemma {:induction false} DependencyLinesAppend(a: seq<string>, b: seq<string>)
    ensures DependencyLines(a + b) == DependencyLines(a) + DependencyLines(b)
    decreases |b|
  {
    if b == [] {
      assert a + b == a;
    } else {
      var b' := b[..|b| - 1];
      assert (a + b)[..|a + b| - 1] == a + b';
      DependencyLinesAppend(a, b');
    }
  }

  /** Every dependency is trimmed, passes the filter and is a verbatim slice of the file. */
  lemma DependenciesVerbatim(content: string, d: string)
    requires d in Dependencies(content)
    ensures IsDependency(d) && Strip(d) == d && Contains(content, d)
  {
    var lines := Split(content, '\n');
    DependencyLinesSound(lines, d);
    var k :| 0 <= k < |lines| && Strip(lines[k]) == d;
    StripIdempotent(lines[k]);
    StrippedPieceInText(content, '\n', k);
  }

  /** A single line contributes its stripped form exactly when that passes the filter. */
  lemma OneLine(line: string)
    ensures DependencyLines([line]) == if IsDependency(Strip(line)) then [Strip(line)] else []
  {
    assert [line][..0] == [];
  }

  /** A text without a newline is one line: it yields its stripped form exactly when that passes the filter. */
  lemma SingleLineManifest(content: string)
    requires '\n' !in content
    ensures Dependencies(content) == if IsDependency(Strip(content)) then [Strip(content)] else []
  {
    SplitWithoutSeparator(content, '\n');
    OneLine(content);
  }

  /** A line without surrounding white space that is pinned with `==` is a dependency of its own. */
  lemma PinnedLine(line: string, at: nat)
    requires line != [] && !IsSpace(line[0]) && !IsSpace(line[|line| - 1]) && line[0] != '#'
    requires OccursAt(line, "==", at)
    ensures DependencyLines([line]) == [line]
  {
    assert StripLeading(line) == line && StripTrailing(line) == line;
    assert line[..1] != "#";
    OneLine(line);
  }

  /** A manifest of two lines yields the dependencies of the first line, then those of the second. */
  lemma TwoLines(first: string, second: string)
    requires '\n' !in first && '\n' !in second
    ensures Dependencies(first + ['\n'] + second) == DependencyLines([first]) + DependencyLines([second])
  {
    SplitAtFirst(first, '\n', second);
    SplitWithoutSeparator(second, '\n');
    DependencyLinesAppend([first], [second]);
  }

  /**
   * The sample manifest `requests==2.28.0\nflask==2.3.0` yields both of its
   * pinned lines, in order.
   */
  lemma SampleManifest(first: string, second: string)
    requires first == "requests==2.28.0" && second == "flask==2.3.0"
    ensures Dependencies(first + ['\n'] + second) == ["requests==2.28.0", "flask==2.3.0"]
  {
    PinnedLine(first, 8);
    PinnedLine(second, 5);
    TwoLines(first, second);
  }
}
