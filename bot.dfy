/**
 * `DocumentationBot`: the checks of its constructor, and
 * `generate_documentation`, which analyzes the repository, writes a README
 * when there is none, and then the documentation files, all through the one
 * generator the bot creates on first use and keeps, and so within one
 * budget across every run of the same bot.
 */
module Bot {
  import opened Wrappers
  import opened Entries
  import opened IgnorePolicy
  import opened Analyzer
  import opened Generator

  /** The recognised detail levels. */
  datatype DetailLevel = Low | Medium | High

  /** The detail level a command-line word names, if any. */
  function ParseDetailLevel(word: string): (r: Option<DetailLevel>)
    ensures r.Some? <==> word in {"low", "medium", "high"}
  {
    if word == "low" then Some(Low)
    else if word == "medium" then Some(Medium)
    else if word == "high" then Some(High)
    else None
  }

  /** Why the constructor raised `ValueError`. */
  datatype BotError = MissingRepository | BadDetailLevel | NonPositiveBudget

  /** A call budget the constructor accepts: at least one call. */
  type Budget = n: nat | n > 0 witness 1

  /** A constructed bot: its detail level and its positive call budget. */
  datatype BotConfig = BotConfig(detail: DetailLevel, maxLlmCalls: Budget)

  /**
   * `DocumentationBot.__init__`: the repository must exist, the detail level
   * must be one of the three words, and the budget must be positive; the
   * checks run in that order and the first that fails decides the error.
   */
  function NewBot(repoExists: bool, detailLevel: string, maxLlmCalls: int): (r: Result<BotConfig, BotError>)
    ensures r.Success? <==> repoExists && detailLevel in {"low", "medium", "high"} && maxLlmCalls > 0
    ensures !repoExists ==> r == Failure(MissingRepository)
    ensures repoExists && detailLevel !in {"low", "medium", "high"} ==> r == Failure(BadDetailLevel)
    ensures repoExists && detailLevel in {"low", "medium", "high"} && maxLlmCalls <= 0 ==> r == Failure(NonPositiveBudget)
    ensures r.Success? ==> r.value.maxLlmCalls == maxLlmCalls > 0 && Some(r.value.detail) == ParseDetailLevel(detailLevel)
  {
    if !repoExists then Failure(MissingRepository)
    else match ParseDetailLevel(detailLevel)
      case None => Failure(BadDetailLevel)
      case Some(level) =>
        if maxLlmCalls <= 0 then Failure(NonPositiveBudget)
        else Success(BotConfig(level, maxLlmCalls))
  }

  /** The defaults of the constructor: detail "medium", at most 20 calls. */
  lemma DefaultsAccepted(detailLevel: string, maxLlmCalls: int)
    requires detailLevel == "medium" && maxLlmCalls == 20
    ensures NewBot(true, detailLevel, maxLlmCalls) == Success(BotConfig(Medium, 20))
  {
  }

  /** The replies the API would give each of the five possible calls. */
  datatype Replies = Replies(readme: Reply, arch: Reply, api: Reply, setup: Reply, usage: Reply)

  /** The README step, present only when there is no README yet. */
  function ReadmeSteps(readmeExists: bool, replies: Replies): seq<Step>
  {
    if readmeExists then [] else [Step(Readme, replies.readme)]
  }

  /** The steps `generate_documentation` runs: the README only when there is none yet. */
  function BotSteps(readmeExists: bool, replies: Replies): (r: seq<Step>)
    ensures |r| == if readmeExists then 4 else 5
  {
    ReadmeSteps(readmeExists, replies) + DocSteps(replies.arch, replies.api, replies.setup, replies.usage)
  }

  /**
   * `generate_documentation_files` gets past its guard and creates `docs`:
   * the README step, if any, did not fail and left budget over.
   */
  predicate DocsReached(max: int, made: nat, readmeExists: bool, replies: Replies)
  {
    var first := RunSteps(max, made, ReadmeSteps(readmeExists, replies));
    first.error.None? && first.made < max
  }

  /** What ended a run of the bot early. */
  datatype BotFailure = ScanFailed(scan: ScanError) | LlmFailed(llm: LlmError)

  /**
   * A constructed `DocumentationBot`: its checked settings, and the generator
   * `_get_generator` creates on first use and keeps for later runs.
   */
  class DocumentationBot {
    const config: BotConfig
    var generator: DocumentationGenerator?

    /** The kept generator has the bot's budget and has stayed within it. */
    predicate Valid()
      reads this, generator
    {
      generator != null ==>
        generator.maxLlmCalls == config.maxLlmCalls && generator.llmCallsMade <= config.maxLlmCalls
    }

    /** The calls the kept generator has counted, 0 before there is one. */
    function CallsMade(): nat
      reads this, generator
    {
      if generator == null then 0 else generator.llmCallsMade
    }

    /** The documents the kept generator has written, none before there is one. */
    function Written(): seq<Document>
      reads this, generator
    {
      if generator == null then [] else generator.written
    }

    /** The kept generator has created `docs`. */
    predicate DocsDir()
      reads this, generator
    {
      generator != null && generator.docsDir
    }

    /** Lines 467-470: the analyzer is ready, the generator not yet created. */
    constructor (config: BotConfig)
      ensures this.config == config && generator == null && Valid()
    {
      this.config := config;
      generator := null;
    }

    /** `_get_generator`: creates the generator with the bot's budget the first time, then returns the same one. */
    method GetGenerator() returns (g: DocumentationGenerator)
      requires Valid()
      modifies this
      ensures g == generator && Valid()
      ensures old(generator) != null ==> g == old(generator)
      ensures old(generator) == null ==> fresh(g) && g.llmCallsMade == 0 && g.written == [] && !g.docsDir
    {
      if generator == null {
        generator := new DocumentationGenerator(config.maxLlmCalls);
      }
      g := generator;
    }

    /**
     * Steps 2 and 3 of `generate_documentation` on the kept generator, from
     * the calls it has already counted. Getting the generator once before
     * both steps is the same as the source's two `_get_generator` calls,
     * since creating it changes nothing else.
     */
    method WriteDocuments(readmeExists: bool, replies: Replies) returns (outcome: Outcome<LlmError>)
      requires Valid()
      modifies this, generator
      ensures Valid() && generator != null
      ensures old(generator) != null ==> generator == old(generator)
      ensures var run := RunSteps(config.maxLlmCalls, old(CallsMade()), BotSteps(readmeExists, replies));
        && CallsMade() == run.made
        && Written() == old(Written()) + run.docs
        && outcome == if run.error.Some? then Fail(run.error.value) else Pass
      ensures DocsDir() == (old(DocsDir()) || DocsReached(config.maxLlmCalls, old(CallsMade()), readmeExists, replies))
    {
      ghost var made0 := CallsMade();
      var g := GetGenerator();
      outcome := RunBotSteps(g, readmeExists, replies);
      WithinBudget(config.maxLlmCalls, made0, BotSteps(readmeExists, replies));
    }

    /**
     * `generate_documentation`: a failed analysis ends the run before any
     * call; otherwise the documents are written as `WriteDocuments` says,
     * and the first failed call ends the run after the documents written
     * before it. No step meets `_call_llm`'s budget error, and every counted
     * call wrote a document but a last one whose response held no text.
     */
    method GenerateDocumentation(readmeExists: bool, walk: seq<FileEntry>, replies: Replies)
      returns (r: Outcome<BotFailure>)
      requires Valid()
      modifies this, generator
      ensures Valid()
      ensures old(generator) != null ==> generator == old(generator)
      ensures Scan(walk).Failure? ==>
        && r == Fail(ScanFailed(Scan(walk).error))
        && generator == old(generator) && CallsMade() == old(CallsMade()) && Written() == old(Written())
      ensures Scan(walk).Success? ==>
        var run := RunSteps(config.maxLlmCalls, old(CallsMade()), BotSteps(readmeExists, replies));
        && generator != null
        && CallsMade() == run.made
        && Written() == old(Written()) + run.docs
        && r == if run.error.Some? then Fail(LlmFailed(run.error.value)) else Pass
      ensures Scan(walk).Success? ==>
        CallsMade() == old(CallsMade()) + |Written()| - |old(Written())| + (if r == Fail(LlmFailed(ContentError)) then 1 else 0)
      ensures r != Fail(LlmFailed(BudgetExhausted))
      ensures Scan(walk).Failure? ==> DocsDir() == old(DocsDir())
      ensures Scan(walk).Success? ==>
        DocsDir() == (old(DocsDir()) || DocsReached(config.maxLlmCalls, old(CallsMade()), readmeExists, replies))
      ensures DocsDir() && !old(DocsDir()) ==> old(CallsMade()) < config.maxLlmCalls
    {
      var analysis := Analyze(walk);
      if analysis.Failure? {
        return Fail(ScanFailed(analysis.error));
      }
      ghost var made0 := CallsMade();
      var outcome := WriteDocuments(readmeExists, replies);
      CallsMatchDocuments(config.maxLlmCalls, made0, BotSteps(readmeExists, replies));
      NeverOverBudgetCall(config.maxLlmCalls, made0, BotSteps(readmeExists, replies));
      match outcome
      case Fail(err) =>
        return Fail(LlmFailed(err));
      case Pass =>
        return Pass;
    }
  }

  /**
   * The README step when there is no README, then
   * `generate_documentation_files`; a failed README call ends the run.
   */
  method RunBotSteps(g: DocumentationGenerator, readmeExists: bool, replies: Replies) returns (outcome: Outcome<LlmError>)
    modifies g`llmCallsMade, g`written, g`docsDir
    ensures g.Reached(old(g.llmCallsMade), old(g.written), BotSteps(readmeExists, replies), outcome)
    ensures g.docsDir == (old(g.docsDir) || DocsReached(g.maxLlmCalls, old(g.llmCallsMade), readmeExists, replies))
  {
    var docs := DocSteps(replies.arch, replies.api, replies.setup, replies.usage);
    if readmeExists {
      assert BotSteps(readmeExists, replies) == docs;
      assert ReadmeSteps(readmeExists, replies) == [];
      outcome := g.GenerateDocumentationFiles(replies.arch, replies.api, replies.setup, replies.usage);
    } else {
      ghost var made0, written0 := g.llmCallsMade, g.written;
      var readme := Step(Readme, replies.readme);
      assert BotSteps(readmeExists, replies) == [readme] + docs;
      outcome := g.Generate(readme);
      ghost var first := RunSteps(g.maxLlmCalls, made0, [readme]);
      RunStepsAppend(g.maxLlmCalls, made0, [readme], docs);
      if outcome.Pass? {
        assert g.llmCallsMade == first.made && g.written == written0 + first.docs && first.error.None?;
        outcome := g.GenerateDocumentationFiles(replies.arch, replies.api, replies.setup, replies.usage);
        ghost var second := RunSteps(g.maxLlmCalls, first.made, docs);
        assert RunSteps(g.maxLlmCalls, made0, [readme] + docs) == Run(second.made, first.docs + second.docs, second.error);
      }
    }
  }

  /** A run of the bot makes at most five calls: four when there is already a README. */
  lemma AtMostFiveCalls(cfg: BotConfig, readmeExists: bool, replies: Replies)
    ensures RunSteps(cfg.maxLlmCalls, 0, BotSteps(readmeExists, replies)).made <= (if readmeExists then 4 else 5)
  {
    WithinBudget(cfg.maxLlmCalls, 0, BotSteps(readmeExists, replies));
  }

  /**
   * With a budget of one call and no README, only the README is written: the
   * documentation step then finds the budget spent.
   */
  lemma SingleCallGoesToReadme(cfg: BotConfig, replies: Replies)
    requires cfg.maxLlmCalls == 1 && replies.readme.Answer?
    ensures RunSteps(cfg.maxLlmCalls, 0, BotSteps(false, replies)) == Run(1, [Document(Readme, replies.readme.content)], None)
  {
    var steps := BotSteps(false, replies);
    SpentBudgetSkipsAll(1, 1, steps[1..]);
  }
}
