/**
 * The `generateSummary` server action and its `runGeneration` pipeline of
 * src/serverActions/generateSummary.ts as imperative code over the shared
 * `PullRequestTable`. Each database call, the GitHub request and the model
 * call is preceded by `Resume`, which merges in what other calls wrote while
 * this one was suspended. Each method is proved to do what the step machine
 * of `SummaryCoordinator` does amid the same writes.
 */
module SummaryHandler {
  import opened Wrappers
  import opened Text
  import opened SummaryPrompt
  import opened SummaryStore
  import opened SummaryCoordinator

  /**
   * The handler. `dispatched` is true when the pipeline was started without
   * waiting (`void runGeneration(...)`): the caller got its answer already
   * and the pipeline is `RunGeneration`, run afterwards from the call's state.
   */
  method GenerateSummary(table: PullRequestTable, req: Request, others: Others)
    returns (resp: Response, dispatched: bool)
    modifies table
    ensures table.rows == Respond(old(table.rows), Start(req), others).0
    ensures Respond(old(table.rows), Start(req), others).1.resp == Some(resp)
    ensures dispatched <==> Respond(old(table.rows), Start(req), others).1.pc != Finished
  {
    ghost var c := Start(req);
    ghost var pre := table.rows;
    table.Resume(others(Begin));
    RespondStep(pre, c, others);
    if !Truthy(req.headSha) {
      assert Step(table.rows, c) == (table.rows, Finish(c, Threw(MissingHeadSha)));
      return Threw(MissingHeadSha), false;
    }
    var k, sha := req.key, req.headSha.value;
    assert Step(table.rows, c) == (table.rows, c.(pc := Lookup));
    c := c.(pc := Lookup);
    pre := table.rows;
    table.Resume(others(Lookup));
    RespondStep(pre, c, others);
    var existing := table.FindUnique(k);
    if CacheHit(existing, sha) {
      assert Step(table.rows, c)
          == (table.rows, Finish(c, Served(existing.value.summary.value, existing.value.diff.value)));
      return Served(existing.value.summary.value, existing.value.diff.value), false;
    }
    if existing.Some? && existing.value.headSha != Some(sha) {
      assert Step(table.rows, c) == (table.rows, c.(pc := ResetStale));
      c := c.(pc := ResetStale);
      pre := table.rows;
      table.Resume(others(ResetStale));
      RespondStep(pre, c, others);
      ghost var mid := table.rows;
      table.Update(k, ResetFor(sha));
      assert Step(mid, c) == (table.rows, c.(pc := Lock));
    } else {
      assert Step(table.rows, c) == (table.rows, c.(pc := Lock));
    }
    resp, dispatched := TakeLock(table, req, others, c.(pc := Lock));
  }

  /** The lock and, when it fails, the create. */
  method TakeLock(table: PullRequestTable, req: Request, others: Others, ghost c: Call)
    returns (resp: Response, dispatched: bool)
    requires c.req == req && c.pc == Lock && c.resp.None? && req.headSha.Some?
    modifies table
    ensures table.rows == Respond(old(table.rows), c, others).0
    ensures Respond(old(table.rows), c, others).1.resp == Some(resp)
    ensures dispatched <==> Respond(old(table.rows), c, others).1.pc != Finished
  {
    var k, sha := req.key, req.headSha.value;
    ghost var pre := table.rows;
    table.Resume(others(Lock));
    RespondStep(pre, c, others);
    ghost var mid := table.rows;
    var count := table.UpdateMany(k, sha, req.now);
    if count > 0 {
      assert Step(mid, c) == (table.rows, Acquire(c));
      resp, dispatched := RunOrDispatch(table, req, others, Acquire(c));
      return;
    }
    assert Step(mid, c) == (mid, c.(pc := Create));
    ghost var cc := c.(pc := Create);
    pre := table.rows;
    table.Resume(others(Create));
    RespondStep(pre, cc, others);
    mid := table.rows;
    var created := table.Create(k, NewRow(sha, req.now));
    if created {
      assert Step(mid, cc) == (table.rows, Acquire(cc));
      resp, dispatched := RunOrDispatch(table, req, others, Acquire(cc));
      return;
    }
    assert Step(mid, cc) == (mid, cc.(pc := Reread));
    resp, dispatched := Retry(table, req, others, cc.(pc := Reread));
  }

  /** After a failed create: re-read the row, and reset and lock it again if it is stale. */
  method Retry(table: PullRequestTable, req: Request, others: Others, ghost c: Call)
    returns (resp: Response, dispatched: bool)
    requires c.req == req && c.pc == Reread && c.resp.None? && req.headSha.Some?
    modifies table
    ensures table.rows == Respond(old(table.rows), c, others).0
    ensures Respond(old(table.rows), c, others).1.resp == Some(resp)
    ensures dispatched <==> Respond(old(table.rows), c, others).1.pc != Finished
  {
    var k, sha := req.key, req.headSha.value;
    ghost var pre := table.rows;
    table.Resume(others(Reread));
    RespondStep(pre, c, others);
    ghost var mid := table.rows;
    var inProgress := table.FindUnique(k);
    if CacheHit(inProgress, sha) {
      assert Step(mid, c)
          == (mid, Finish(c, Served(inProgress.value.summary.value, inProgress.value.diff.value)));
      return Served(inProgress.value.summary.value, inProgress.value.diff.value), false;
    }
    if !(inProgress.Some? && inProgress.value.headSha != Some(sha)) {
      assert Step(mid, c) == (mid, Finish(c, Busy(inProgress)));
      return Busy(inProgress), false;
    }
    assert Step(mid, c) == (mid, c.(pc := ResetAgain, seen := inProgress));
    resp, dispatched := ResetAndRelock(table, req, inProgress, others, c.(pc := ResetAgain, seen := inProgress));
  }

  /**
   * The re-read found another head SHA: reset the row and take the lock once
   * more. A waiting caller then runs the pipeline; a caller that does not wait
   * is told "generating" and no pipeline is started for it.
   */
  method ResetAndRelock(table: PullRequestTable, req: Request, seen: Option<Row>, others: Others, ghost c: Call)
    returns (resp: Response, dispatched: bool)
    requires c.req == req && c.pc == ResetAgain && c.seen == seen && c.resp.None? && req.headSha.Some?
    requires req.key in table.rows
    modifies table
    ensures table.rows == Respond(old(table.rows), c, others).0
    ensures Respond(old(table.rows), c, others).1.resp == Some(resp)
    ensures dispatched <==> Respond(old(table.rows), c, others).1.pc != Finished
  {
    var k, sha := req.key, req.headSha.value;
    ghost var pre := table.rows;
    table.Resume(others(ResetAgain));
    RespondStep(pre, c, others);
    ghost var mid := table.rows;
    table.Update(k, ResetFor(sha));
    ghost var cr := c.(pc := Relock);
    assert Step(mid, c) == (table.rows, cr);
    pre := table.rows;
    table.Resume(others(Relock));
    RespondStep(pre, cr, others);
    mid := table.rows;
    var retry := table.UpdateMany(k, sha, req.now);
    if retry > 0 {
      if !ShouldWait(req) {
        assert Step(mid, cr) == (table.rows, Finish(cr, InProgress(FetchingDiff, Some(req.now))));
        return InProgress(FetchingDiff, Some(req.now)), false;
      }
      assert Step(mid, cr) == (table.rows, Acquire(cr));
      CompleteIsRespond(table.rows, Acquire(cr), others);
      resp := RunGeneration(table, req, others, Acquire(cr));
      dispatched := false;
      return;
    }
    assert Step(mid, cr) == (mid, Finish(cr, Busy(seen)));
    return Busy(seen), false;
  }

  /**
   * After the lock: `await runGeneration(...)` when the caller waits,
   * otherwise the immediate in-progress answer.
   */
  method RunOrDispatch(table: PullRequestTable, req: Request, others: Others, ghost c: Call)
    returns (resp: Response, dispatched: bool)
    requires c.req == req && c.pc == FetchDiff && req.key in table.rows
    requires c.resp == if ShouldWait(req) then None else Some(InProgress(FetchingDiff, Some(req.now)))
    modifies table
    ensures table.rows == Respond(old(table.rows), c, others).0
    ensures Respond(old(table.rows), c, others).1.resp == Some(resp)
    ensures dispatched <==> Respond(old(table.rows), c, others).1.pc != Finished
  {
    if !ShouldWait(req) {
      return InProgress(FetchingDiff, Some(req.now)), true;
    }
    CompleteIsRespond(table.rows, c, others);
    resp := RunGeneration(table, req, others, c);
    dispatched := false;
  }

  /**
   * `runGeneration`: fetch the diff, check the API key, prompt the model,
   * save; on a failure mark the row as errored and rethrow. `resp` is what
   * a waiting caller gets.
   */
  method RunGeneration(table: PullRequestTable, req: Request, others: Others, ghost c: Call)
    returns (resp: Response)
    requires c.req == req && c.pc == FetchDiff && req.key in table.rows
    modifies table
    ensures table.rows == Complete(old(table.rows), c, others).0
    ensures c.resp.None? ==> Complete(old(table.rows), c, others).1.resp == Some(resp)
  {
    var k, sha := req.key, Sha(req);
    ghost var pre := table.rows;
    table.Resume(others(FetchDiff));
    CompleteStep(pre, c, others);
    ghost var mid := table.rows;
    if req.env.diff.None? {
      assert Step(mid, c) == (mid, c.(pc := Fail(DiffFetchFailed)));
      resp := Abort(table, k, DiffFetchFailed, others, c.(pc := Fail(DiffFetchFailed)));
      return;
    }
    var diff := req.env.diff.value;
    var cleanedDiff := Escape(diff);
    if !Truthy(req.env.apiKey) {
      assert Step(mid, c) == (mid, c.(pc := Fail(MissingApiKey), diff := diff));
      resp := Abort(table, k, MissingApiKey, others, c.(pc := Fail(MissingApiKey), diff := diff));
      return;
    }
    assert Step(mid, c) == (mid, c.(pc := MarkPrompting, diff := diff));
    resp := PromptModel(table, k, sha, req.env, diff, cleanedDiff, others, c.(pc := MarkPrompting, diff := diff));
  }

  /** Stage prompting_model, then the model call. */
  method PromptModel(table: PullRequestTable, k: Key, sha: string, env: Env, diff: string, cleanedDiff: string,
                     others: Others, ghost c: Call)
    returns (resp: Response)
    requires c.pc == MarkPrompting && c.req.key == k && k in table.rows
    requires Sha(c.req) == sha && c.req.env == env && c.diff == diff && cleanedDiff == Escape(diff)
    modifies table
    ensures table.rows == Complete(old(table.rows), c, others).0
    ensures c.resp.None? ==> Complete(old(table.rows), c, others).1.resp == Some(resp)
  {
    ghost var pre := table.rows;
    table.Resume(others(MarkPrompting));
    CompleteStep(pre, c, others);
    ghost var mid := table.rows;
    table.Update(k, EnterStage(PromptingModel));
    ghost var c2 := c.(pc := Prompt);
    assert Step(mid, c) == (table.rows, c2);
    resp := AskModel(table, k, sha, env, diff, cleanedDiff, others, c2);
  }

  /** The model call on the escaped diff and the unescape of its reply, then save or abort. */
  method AskModel(table: PullRequestTable, k: Key, sha: string, env: Env, diff: string, cleanedDiff: string,
                  others: Others, ghost c: Call)
    returns (resp: Response)
    requires c.pc == Prompt && c.req.key == k && k in table.rows
    requires Sha(c.req) == sha && c.req.env == env && c.diff == diff && cleanedDiff == Escape(diff)
    modifies table
    ensures table.rows == Complete(old(table.rows), c, others).0
    ensures c.resp.None? ==> Complete(old(table.rows), c, others).1.resp == Some(resp)
  {
    ghost var pre := table.rows;
    table.Resume(others(Prompt));
    CompleteStep(pre, c, others);
    ghost var mid := table.rows;
    var prompt, text := Generate(cleanedDiff, env);
    if text.None? {
      ghost var c3 := c.(pc := Fail(ModelFailed), filled := Some(cleanedDiff));
      assert Step(mid, c) == (mid, c3);
      resp := Abort(table, k, ModelFailed, others, c3);
      return;
    }
    var cleanedText := Unescape(text.value);
    ghost var c3 := c.(pc := MarkSaving, filled := Some(cleanedDiff), summary := cleanedText);
    assert Step(mid, c) == (mid, c3);
    resp := SaveSummary(table, k, sha, diff, cleanedText, others, c3);
  }

  /**
   * `generateText` with the template filled in with the escaped diff: the
   * prompt sent is the fixed instructions followed by exactly that diff, and
   * the model's reply is an input of the call.
   */
  method Generate(cleanedDiff: string, env: Env) returns (prompt: string, text: Option<string>)
    ensures PromptDiff(prompt) == Some(cleanedDiff)
    ensures text == env.reply
  {
    prompt := GetPrompt(cleanedDiff);
    PromptRoundTrip(cleanedDiff);
    text := env.reply;
  }

  /** The last two updates of `runGeneration`: stage saving_result, then the result. */
  method SaveSummary(table: PullRequestTable, k: Key, sha: string, diff: string, summary: string,
                     others: Others, ghost c: Call)
    returns (resp: Response)
    requires c.pc == MarkSaving && c.req.key == k && k in table.rows
    requires Sha(c.req) == sha && c.diff == diff && c.summary == summary
    modifies table
    ensures table.rows == Complete(old(table.rows), c, others).0
    ensures c.resp.None? ==> Complete(old(table.rows), c, others).1.resp == Some(resp)
    ensures resp == Served(summary, diff)
  {
    ghost var pre := table.rows;
    table.Resume(others(MarkSaving));
    CompleteStep(pre, c, others);
    ghost var mid := table.rows;
    table.Update(k, EnterStage(SavingResult));
    ghost var c1 := c.(pc := Save);
    assert Step(mid, c) == (table.rows, c1);
    pre := table.rows;
    table.Resume(others(Save));
    CompleteStep(pre, c1, others);
    mid := table.rows;
    table.Update(k, SaveResult(diff, summary, sha));
    assert Step(mid, c1) == (table.rows, Finish(c1, Served(summary, diff)));
    resp := Served(summary, diff);
  }

  /** The `catch` of `runGeneration`: mark the row as errored and rethrow. */
  method Abort(table: PullRequestTable, k: Key, e: Failure, others: Others, ghost c: Call)
    returns (resp: Response)
    requires c.pc == Fail(e) && c.req.key == k && k in table.rows
    modifies table
    ensures table.rows == Complete(old(table.rows), c, others).0
    ensures c.resp.None? ==> Complete(old(table.rows), c, others).1.resp == Some(resp)
    ensures resp == Threw(e)
  {
    ghost var pre := table.rows;
    table.Resume(others(Fail(e)));
    CompleteStep(pre, c, others);
    ghost var mid := table.rows;
    table.Update(k, MarkError);
    assert Step(mid, c) == (table.rows, Finish(c, Threw(e)).(failed := true));
    resp := Threw(e);
  }
}
