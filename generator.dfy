/**
 * The LLM-call budget of `DocumentationGenerator`: every documentation step
 * first checks `llm_calls_made < max_llm_calls`, skips itself when the
 * budget is spent, and otherwise makes one call through `_call_llm`, which
 * counts the call as soon as the API has returned a response and writes one
 * file when the response holds text. The language-model API is an oracle:
 * each step is handed the reply it would get.
 */
module Generator {
  import opened Wrappers

  /** The files the generator writes: README.md and docs/architecture.md, api.md, setup.md, usage.md. */
  datatype DocKind = Readme | Architecture | Api | Setup | Usage

  /**
   * What the API does with one request: it answers with text, the request
   * itself raises, or it returns a response whose text cannot be read
   * (`response.choices[0].message.content` raises).
   */
  datatype Reply = Answer(content: string) | RequestFailed | NoContent

  /** Why `_call_llm` raised: the budget was spent, the request failed, or the response had no readable text. */
  datatype LlmError = BudgetExhausted | RequestError | ContentError

  /** A written file: what it is and the reply it holds. */
  datatype Document = Document(kind: DocKind, content: string)

  /** One guarded documentation step and the reply the API would give it. */
  datatype Step = Step(kind: DocKind, reply: Reply)

  /** The counter after one `_call_llm`, and the text it returned or the error it raised. */
  datatype Call = Call(made: nat, result: Result<string, LlmError>)

  /** The calls counted, the documents written, and the error that ended the run, if any. */
  datatype Run = Run(made: nat, docs: seq<Document>, error: Option<LlmError>)

  /**
   * `_call_llm` from counter `made`: refuses once the budget is spent;
   * otherwise counts the call exactly when the API returned a response, and
   * returns text exactly when the API answered with text.
   */
  function LlmCall(max: int, made: nat, reply: Reply): (c: Call)
    ensures made >= max ==> c == Call(made, Failure(BudgetExhausted))
    ensures made < max ==> c.result != Failure(BudgetExhausted)
    ensures c.made == made || c.made == made + 1
    ensures c.made == made + 1 <==> made < max && !reply.RequestFailed?
    ensures c.result.Success? <==> made < max && reply.Answer?
    ensures c.result.Success? ==> c.result.value == reply.content
  {
    if made >= max then Call(made, Failure(BudgetExhausted))
    else match reply
      case Answer(content) => Call(made + 1, Success(content))
      case RequestFailed => Call(made, Failure(RequestError))
      case NoContent => Call(made + 1, Failure(ContentError))
  }

  /**
   * The steps run in order from `made` calls already counted: a step is
   * skipped once `made >= max`; otherwise it calls `_call_llm`, whose error
   * ends the run and whose text is written as the step's document.
   */
  function RunSteps(max: int, made: nat, steps: seq<Step>): (r: Run)
    ensures made <= r.made
    ensures |r.docs| <= |steps|
    decreases |steps|
  {
    if steps == [] then Run(made, [], None)
    else if made >= max then RunSteps(max, made, steps[1..])
    else
      var call := LlmCall(max, made, steps[0].reply);
      match call.result
      case Failure(err) => Run(call.made, [], Some(err))
      case Success(content) =>
        var rest := RunSteps(max, call.made, steps[1..]);
        Run(rest.made, [Document(steps[0].kind, content)] + rest.docs, rest.error)
  }

  /** Running more steps after a run: nothing more happens once it has failed. */
  function Then(first: Run, max: int, more: seq<Step>): Run
  {
    if first.error.Some? then first
    else
      var second := RunSteps(max, first.made, more);
      Run(second.made, first.docs + second.docs, second.error)
  }

  /** The documents the steps would write if every call were answered with text. */
  function Answered(steps: seq<Step>): seq<Document>
    requires forall i :: 0 <= i < |steps| ==> steps[i].reply.Answer?
  {
    if steps == [] then []
    else [Document(steps[0].kind, steps[0].reply.content)] + Answered(steps[1..])
  }

  /** The error `_call_llm` raises for a reply that is not an answer. */
  function ReplyError(reply: Reply): LlmError
  {
    if reply.NoContent? then ContentError else RequestError
  }

  /** The smaller of two integers. */
  function Min(a: int, b: int): int
  {
    if a <= b then a else b
  }

  /** Running `a` and then `b` is running `a + b`. */
  lemma {:induction false} RunStepsAppend(max: int, made: nat, a: seq<Step>, b: seq<Step>)
    ensures RunSteps(max, made, a + b) == Then(RunSteps(max, made, a), max, b)
    decreases |a|
  {
    if a == [] {
      assert a + b == b;
    } else {
      assert (a + b)[0] == a[0] && (a + b)[1..] == a[1..] + b;
      if made >= max {
        RunStepsAppend(max, made, a[1..], b);
      } else if a[0].reply.Answer? {
        RunStepsAppend(max, made + 1, a[1..], b);
      }
    }
  }

  /** A run that failed after the first `n` steps is not changed by the steps after them. */
  lemma Stopped(max: int, made: nat, steps: seq<Step>, n: nat)
    requires n <= |steps| && RunSteps(max, made, steps[..n]).error.Some?
    ensures RunSteps(max, made, steps) == RunSteps(max, made, steps[..n])
  {
    RunStepsAppend(max, made, steps[..n], steps[n..]);
    assert steps[..n] + steps[n..] == steps;
  }

  /**
   * Every counted call wrote exactly one document, except a last call whose
   * response held no readable text: it is counted and writes nothing.
   */
  lemma {:induction false} CallsMatchDocuments(max: int, made: nat, steps: seq<Step>)
    ensures var run := RunSteps(max, made, steps);
      run.made == made + |run.docs| + (if run.error == Some(ContentError) then 1 else 0)
    decreases |steps|
  {
    if steps != [] {
      if made >= max {
        CallsMatchDocuments(max, made, steps[1..]);
      } else if steps[0].reply.Answer? {
        CallsMatchDocuments(max, made + 1, steps[1..]);
      }
    }
  }

  /** The counter never passes the budget, and rises by at most one per step. */
  lemma {:induction false} WithinBudget(max: int, made: nat, steps: seq<Step>)
    requires made <= max
    ensures made <= RunSteps(max, made, steps).made <= max
    ensures RunSteps(max, made, steps).made <= made + |steps|
    decreases |steps|
  {
    if steps != [] && made < max && steps[0].reply.Answer? {
      WithinBudget(max, made + 1, steps[1..]);
    } else if steps != [] && made >= max {
      WithinBudget(max, made, steps[1..]);
    }
  }

  /** With the budget spent, every step does nothing. */
  lemma {:induction false} SpentBudgetSkipsAll(max: int, made: nat, steps: seq<Step>)
    requires made >= max
    ensures RunSteps(max, made, steps) == Run(made, [], None)
    decreases |steps|
  {
    if steps != [] {
      SpentBudgetSkipsAll(max, made, steps[1..]);
    }
  }

  /**
   * Because every step checks the budget before it calls `_call_llm`, the
   * call's budget error is never raised.
   */
  lemma {:induction false} NeverOverBudgetCall(max: int, made: nat, steps: seq<Step>)
    ensures RunSteps(max, made, steps).error != Some(BudgetExhausted)
    decreases |steps|
  {
    if steps != [] {
      if made >= max {
        NeverOverBudgetCall(max, made, steps[1..]);
      } else if steps[0].reply.Answer? {
        NeverOverBudgetCall(max, made + 1, steps[1..]);
      }
    }
  }

  /**
   * When every call is answered with text, the run writes the documents of
   * the first `max - made` steps and counts exactly as many calls.
   */
  lemma {:induction false} AnsweredRun(max: int, made: nat, steps: seq<Step>)
    requires made <= max
    requires forall i :: 0 <= i < |steps| ==> steps[i].reply.Answer?
    ensures var k := Min(|steps|, max - made);
      RunSteps(max, made, steps) == Run(made + k, Answered(steps[..k]), None)
    decreases |steps|
  {
    var k := Min(|steps|, max - made);
    if steps == [] {
    } else if made == max {
      SpentBudgetSkipsAll(max, made, steps);
      assert steps[..k] == [];
    } else {
      AnsweredRun(max, made + 1, steps[1..]);
      var k' := Min(|steps| - 1, max - made - 1);
      assert k == k' + 1;
      assert steps[..k][1..] == steps[1..][..k'];
    }
  }

  /**
   * Within the budget, a run fails exactly when one of the steps it reaches
   * gets no text, and then it fails with the error of the first such step.
   */
  lemma {:induction false} FailsOnMissingReply(max: int, made: nat, steps: seq<Step>)
    requires made <= max
    ensures RunSteps(max, made, steps).error.Some? <==>
      exists i :: 0 <= i < Min(|steps|, max - made) && !steps[i].reply.Answer?
    ensures RunSteps(max, made, steps).error.Some? ==>
      exists i :: 0 <= i < Min(|steps|, max - made) && !steps[i].reply.Answer?
        && (forall j :: 0 <= j < i ==> steps[j].reply.Answer?)
        && RunSteps(max, made, steps).error == Some(ReplyError(steps[i].reply))
    decreases |steps|
  {
    if steps != [] && made < max {
      var n := Min(|steps|, max - made);
      if steps[0].reply.Answer? {
        FailsOnMissingReply(max, made + 1, steps[1..]);
        assert forall i :: 1 <= i < n ==> steps[i] == steps[1..][i - 1];
        assert forall i :: 0 <= i < n - 1 ==> steps[1..][i] == steps[i + 1];
        if RunSteps(max, made, steps).error.Some? {
          var i :| 0 <= i < n - 1 && !steps[1..][i].reply.Answer?
            && (forall j :: 0 <= j < i ==> steps[1..][j].reply.Answer?)
            && RunSteps(max, made + 1, steps[1..]).error == Some(ReplyError(steps[1..][i].reply));
          assert forall j :: 0 <= j < i + 1 ==> steps[j].reply.Answer?;
        }
      } else {
        assert 0 < n;
      }
    } else if steps != [] {
      SpentBudgetSkipsAll(max, made, steps);
    }
  }

  /** The four steps of `generate_documentation_files`, in the order it runs them. */
  function DocSteps(arch: Reply, api: Reply, setup: Reply, usage: Reply): (r: seq<Step>)
    ensures |r| == 4
  {
    [Step(Architecture, arch), Step(Api, api), Step(Setup, setup), Step(Usage, usage)]
  }

  /** `DocumentationGenerator` with its counter, its cap and the files it has written. */
  class DocumentationGenerator {
    const maxLlmCalls: int
    var llmCallsMade: nat
    var written: seq<Document>
    var docsDir: bool

    /** The state after running `steps` from counter `made0` and files `written0`, ending in `r`. */
    predicate Reached(made0: nat, written0: seq<Document>, steps: seq<Step>, r: Outcome<LlmError>)
      reads this
    {
      var run := RunSteps(maxLlmCalls, made0, steps);
      && llmCallsMade == run.made
      && written == written0 + run.docs
      && r == (if run.error.Some? then Fail(run.error.value) else Pass)
    }

    /** The counter starts at 0; no file is written and `docs` does not exist yet. */
    constructor (maxLlmCalls: int)
      ensures this.maxLlmCalls == maxLlmCalls
      ensures llmCallsMade == 0 && written == [] && !docsDir
    {
      this.maxLlmCalls := maxLlmCalls;
      llmCallsMade := 0;
      written := [];
      docsDir := false;
    }

    /**
     * `_call_llm`: refuses once the budget is spent; counts the call as soon
     * as the API has returned a response, before its text is read.
     */
    method CallLlm(reply: Reply) returns (r: Result<string, LlmError>)
      modifies this`llmCallsMade
      ensures Call(llmCallsMade, r) == LlmCall(maxLlmCalls, old(llmCallsMade), reply)
      ensures old(llmCallsMade) >= maxLlmCalls ==> r == Failure(BudgetExhausted) && llmCallsMade == old(llmCallsMade)
      ensures old(llmCallsMade) < maxLlmCalls && reply.RequestFailed? ==> r == Failure(RequestError) && llmCallsMade == old(llmCallsMade)
      ensures old(llmCallsMade) < maxLlmCalls && reply.NoContent? ==> r == Failure(ContentError) && llmCallsMade == old(llmCallsMade) + 1
      ensures old(llmCallsMade) < maxLlmCalls && reply.Answer? ==> r == Success(reply.content) && llmCallsMade == old(llmCallsMade) + 1
    {
      if llmCallsMade >= maxLlmCalls {
        return Failure(BudgetExhausted);
      }
      match reply
      case RequestFailed =>
        return Failure(RequestError);
      case NoContent =>
        llmCallsMade := llmCallsMade + 1;
        return Failure(ContentError);
      case Answer(content) =>
        llmCallsMade := llmCallsMade + 1;
        return Success(content);
    }

    /**
     * `generate_readme` and each `_generate_*_doc`: skip when the budget is
     * spent, otherwise call the model and write its reply. The guard means
     * the step never sees `_call_llm`'s budget error.
     */
    method Generate(step: Step) returns (r: Outcome<LlmError>)
      modifies this`llmCallsMade, this`written
      ensures Reached(old(llmCallsMade), old(written), [step], r)
      ensures r != Fail(BudgetExhausted)
    {
      assert [step][1..] == [];
      if llmCallsMade >= maxLlmCalls {
        return Pass;
      }
      var reply := CallLlm(step.reply);
      match reply
      case Failure(err) =>
        return Fail(err);
      case Success(content) =>
        written := written + [Document(step.kind, content)];
        return Pass;
    }

    /** Runs one more step after `done`, as long as nothing has failed. */
    method Continue(ghost made0: nat, ghost written0: seq<Document>, ghost done: seq<Step>, step: Step)
      returns (r: Outcome<LlmError>)
      requires Reached(made0, written0, done, Pass)
      modifies this`llmCallsMade, this`written
      ensures Reached(made0, written0, done + [step], r)
    {
      RunStepsAppend(maxLlmCalls, made0, done, [step]);
      r := Generate(step);
    }

    /**
     * `generate_documentation_files`: when budget remains, creates `docs` and
     * runs the architecture, API, setup and usage steps in turn; a failed
     * call ends the run.
     */
    method GenerateDocumentationFiles(arch: Reply, api: Reply, setup: Reply, usage: Reply)
      returns (r: Outcome<LlmError>)
      modifies this`llmCallsMade, this`written, this`docsDir
      ensures Reached(old(llmCallsMade), old(written), DocSteps(arch, api, setup, usage), r)
      ensures docsDir == (old(docsDir) || old(llmCallsMade) < maxLlmCalls)
    {
      var steps := DocSteps(arch, api, setup, usage);
      if llmCallsMade >= maxLlmCalls {
        SpentBudgetSkipsAll(maxLlmCalls, llmCallsMade, steps);
        return Pass;
      }
      docsDir := true;
      ghost var made0, written0 := llmCallsMade, written;
      r := Generate(steps[0]);
      assert steps[..1] == [steps[0]];
      if r.Fail? {
        Stopped(maxLlmCalls, made0, steps, 1);
        return;
      }
      assert steps[..2] == steps[..1] + [steps[1]];
      r := Continue(made0, written0, steps[..1], steps[1]);
      if r.Fail? {
        Stopped(maxLlmCalls, made0, steps, 2);
        return;
      }
      assert steps[..3] == steps[..2] + [steps[2]];
      r := Continue(made0, written0, steps[..2], steps[2]);
      if r.Fail? {
        Stopped(maxLlmCalls, made0, steps, 3);
        return;
      }
      assert steps[..4] == steps[..3] + [steps[3]];
      r := Continue(made0, written0, steps[..3], steps[3]);
      assert steps[..4] == steps;
    }
  }
}
