/**
 * What one call of the summary handler does when it runs alone, stated
 * directly over the row it finds, and proved to be what the step machine of
 * `SummaryCoordinator` does. The lemmas after it are the handler's promises:
 * caching, retry after an error, restart on a new head SHA, a second caller
 * seeing the first caller's run, and the well-formedness of every row.
 */
module SummaryHandling {
  import opened Wrappers
  import opened Text
  import opened SummaryPrompt
  import opened SummaryStore
  import opened SummaryCoordinator

  /** The lock or the create succeeds: no row, a row of another SHA, or a row the guard admits. */
  predicate Claimable(rows: Rows, k: Key, sha: string)
  {
    k !in rows || rows[k].headSha != Some(sha) || LockGuard(rows[k])
  }

  /** The row a call leaves when it takes the lock. */
  function ClaimedRow(rows: Rows, k: Key, sha: string, now: int): (r: Row)
    requires Claimable(rows, k, sha)
    ensures r.status == Generating && r.stage == Some(FetchingDiff) && r.startedAt == Some(now)
    ensures r.headSha == Some(sha) && r.summary == None
    ensures k in rows && rows[k].headSha == Some(sha) ==> r.diff == rows[k].diff
    ensures k !in rows || rows[k].headSha != Some(sha) ==> r.diff == None
  {
    if k !in rows || rows[k].headSha != Some(sha) then NewRow(sha, now)
    else Locked(rows[k], sha, now)
  }

  /** A row marked as failed: status error, stage and start time cleared, the rest kept. */
  function Errored(r: Row): Row
  {
    Row(r.headSha, r.diff, r.summary, Error, None, None)
  }

  /** The final row and the answer of `runGeneration` started on the claimed row `r`. */
  function PipelineResult(r: Row, req: Request): (Row, Response)
  {
    match req.env.diff
    case None => (Errored(r), Threw(DiffFetchFailed))
    case Some(d) =>
      if !Truthy(req.env.apiKey) then (Errored(r), Threw(MissingApiKey))
      else
        match req.env.reply
        case None => (Errored(r), Threw(ModelFailed))
        case Some(text) =>
          (Row(Some(Sha(req)), Some(d), Some(Unescape(text)), Ready, None, None),
           Served(Unescape(text), d))
  }

  /**
   * One call on its own: the table it leaves when it answers and the answer.
   * A dispatched pipeline has not run yet when the caller is answered.
   */
  function Handle(rows: Rows, req: Request): (Rows, Response)
  {
    var k, sha := req.key, Sha(req);
    if !Truthy(req.headSha) then (rows, Threw(MissingHeadSha))
    else if CacheHit(Find(rows, k), sha) then (rows, Served(rows[k].summary.value, rows[k].diff.value))
    else if Claimable(rows, k, sha) then
      var r := ClaimedRow(rows, k, sha, req.now);
      if ShouldWait(req) then
        var (r', resp) := PipelineResult(r, req);
        (rows[k := r'], resp)
      else
        (rows[k := r], InProgress(FetchingDiff, Some(req.now)))
    else
      (rows, InProgress(rows[k].stage.GetOr(FetchingDiff), rows[k].startedAt))
  }

  /** One step of `Respond` when no other call runs. */
  lemma RespondAlone(rows: Rows, c: Call, rows': Rows, c': Call)
    requires c.resp.None? && c.pc != Finished && Step(rows, c) == (rows', c')
    ensures Respond(rows, c, Quiet) == Respond(rows', c', Quiet)
  {
    QuietMerge(rows, c.pc);
    RespondStep(rows, c, Quiet);
  }

  /** One step of `Complete` when no other call runs. */
  lemma CompleteAlone(rows: Rows, c: Call, rows': Rows, c': Call)
    requires c.pc != Finished && Step(rows, c) == (rows', c')
    ensures Complete(rows, c, Quiet) == Complete(rows', c', Quiet)
  {
    QuietMerge(rows, c.pc);
    CompleteStep(rows, c, Quiet);
  }

  /** A second write to a key hides the first. */
  lemma Overwrite(rows: Rows, k: Key, a: Row, b: Row)
    ensures rows[k := a][k := b] == rows[k := b]
  {
    assert rows[k := a][k := b].Keys == rows[k := b].Keys;
  }

  /** `Complete` from the `catch`: the row is marked as errored and the error rethrown. */
  lemma CompleteFromFail(rows: Rows, c: Call)
    requires c.pc.Fail? && c.req.key in rows
    ensures Complete(rows, c, Quiet)
         == (rows[c.req.key := Errored(rows[c.req.key])], Finish(c, Threw(c.pc.failure)).(failed := true))
  {
    var k := c.req.key;
    assert Apply(rows[k], MarkError) == Errored(rows[k]);
    CompleteAlone(rows, c, rows[k := Errored(rows[k])], Finish(c, Threw(c.pc.failure)).(failed := true));
  }

  /** The row `runGeneration` saves: the head SHA, the diff and the summary, ready. */
  function SavedRow(c: Call): Row
  {
    Row(Some(Sha(c.req)), Some(c.diff), Some(c.summary), Ready, None, None)
  }

  /** `Complete` from the stage update before the save. */
  lemma CompleteFromSaving(rows: Rows, c: Call)
    requires c.pc == MarkSaving && c.req.key in rows
    ensures Complete(rows, c, Quiet)
         == (rows[c.req.key := SavedRow(c)], Finish(c.(pc := Save), Served(c.summary, c.diff)))
  {
    var k := c.req.key;
    var rows1 := rows[k := rows[k].(stage := Some(SavingResult))];
    var c1 := c.(pc := Save);
    CompleteAlone(rows, c, rows1, c1);
    Overwrite(rows, k, rows[k].(stage := Some(SavingResult)), SavedRow(c));
    CompleteAlone(rows1, c1, rows[k := SavedRow(c)], Finish(c1, Served(c.summary, c.diff)));
  }

  /** `Complete` from the model call when the model fails. */
  lemma CompleteFromPromptFailing(rows: Rows, c: Call)
    requires c.pc == Prompt && c.req.key in rows && c.req.env.reply.None?
    ensures Complete(rows, c, Quiet).0 == rows[c.req.key := Errored(rows[c.req.key])]
    ensures c.resp.None? ==> Complete(rows, c, Quiet).1.resp == Some(Threw(ModelFailed))
  {
    var c1 := c.(pc := Fail(ModelFailed), filled := Some(Escape(c.diff)));
    CompleteAlone(rows, c, rows, c1);
    CompleteFromFail(rows, c1);
  }

  /** `Complete` from the model call when the model replies. */
  lemma CompleteFromPromptReplying(rows: Rows, c: Call)
    requires c.pc == Prompt && c.req.key in rows && c.req.env.reply.Some?
    ensures Complete(rows, c, Quiet).0
         == rows[c.req.key := Row(Some(Sha(c.req)), Some(c.diff), Some(Unescape(c.req.env.reply.value)), Ready, None, None)]
    ensures c.resp.None? ==> Complete(rows, c, Quiet).1.resp == Some(Served(Unescape(c.req.env.reply.value), c.diff))
  {
    var text := c.req.env.reply.value;
    var c1 := c.(pc := MarkSaving, filled := Some(Escape(c.diff)), summary := Unescape(text));
    CompleteAlone(rows, c, rows, c1);
    CompleteFromSaving(rows, c1);
  }

  /** `Complete` from the stage update before the model call. */
  lemma CompleteFromPrompting(rows: Rows, c: Call)
    requires c.pc == MarkPrompting && c.req.key in rows && c.req.env.diff == Some(c.diff)
    requires Truthy(c.req.env.apiKey)
    ensures Complete(rows, c, Quiet).0 == rows[c.req.key := PipelineResult(rows[c.req.key], c.req).0]
    ensures c.resp.None? ==> Complete(rows, c, Quiet).1.resp == Some(PipelineResult(rows[c.req.key], c.req).1)
  {
    var k := c.req.key;
    var rows1 := rows[k := rows[k].(stage := Some(PromptingModel))];
    var c1 := c.(pc := Prompt);
    CompleteAlone(rows, c, rows1, c1);
    if c.req.env.reply.None? {
      CompleteFromPromptFailing(rows1, c1);
      Overwrite(rows, k, rows[k].(stage := Some(PromptingModel)), Errored(rows1[k]));
      assert PipelineResult(rows[k], c.req) == (Errored(rows[k]), Threw(ModelFailed));
    } else {
      CompleteFromPromptReplying(rows1, c1);
      var summary := Unescape(c.req.env.reply.value);
      var saved := Row(Some(Sha(c.req)), Some(c.diff), Some(summary), Ready, None, None);
      Overwrite(rows, k, rows[k].(stage := Some(PromptingModel)), saved);
      assert PipelineResult(rows[k], c.req) == (saved, Served(summary, c.diff));
    }
  }

  /** The pipeline run to its end from the stage after the lock. */
  lemma PipelineRun(rows: Rows, c: Call)
    requires c.pc == FetchDiff && c.req.key in rows
    ensures Complete(rows, c, Quiet).0 == rows[c.req.key := PipelineResult(rows[c.req.key], c.req).0]
    ensures c.resp.None? ==> Complete(rows, c, Quiet).1.resp == Some(PipelineResult(rows[c.req.key], c.req).1)
  {
    var req := c.req;
    match req.env.diff
    case None =>
      var c1 := c.(pc := Fail(DiffFetchFailed));
      CompleteAlone(rows, c, rows, c1);
      CompleteFromFail(rows, c1);
    case Some(d) =>
      if !Truthy(req.env.apiKey) {
        var c1 := c.(pc := Fail(MissingApiKey), diff := d);
        CompleteAlone(rows, c, rows, c1);
        CompleteFromFail(rows, c1);
      } else {
        var c1 := c.(pc := MarkPrompting, diff := d);
        CompleteAlone(rows, c, rows, c1);
        CompleteFromPrompting(rows, c1);
      }
  }

  /** The table after the first read resets a row of another head SHA. */
  function AfterLookup(rows: Rows, k: Key, sha: string): Rows
  {
    if k in rows && rows[k].headSha != Some(sha) then rows[k := Apply(rows[k], ResetFor(sha))] else rows
  }

  /** The SHA check, the first read and the reset of a stale row. */
  lemma LookupPhase(rows: Rows, req: Request)
    requires Truthy(req.headSha) && !CacheHit(Find(rows, req.key), Sha(req))
    ensures Respond(rows, Start(req), Quiet)
         == Respond(AfterLookup(rows, req.key, Sha(req)), Start(req).(pc := Lock), Quiet)
  {
    var s0 := Start(req);
    var k, sha := req.key, Sha(req);
    var c := s0.(pc := Lookup);
    RespondAlone(rows, s0, rows, c);
    if k in rows && rows[k].headSha != Some(sha) {
      RespondAlone(rows, c, rows, c.(pc := ResetStale));
      RespondAlone(rows, c.(pc := ResetStale), AfterLookup(rows, k, sha), s0.(pc := Lock));
    } else {
      RespondAlone(rows, c, rows, s0.(pc := Lock));
    }
  }

  /** The lock or the create succeeds on a claimable row. */
  lemma ClaimPhase(rows: Rows, c: Call)
    requires c.pc == Lock && c.resp.None?
    requires Claimable(rows, c.req.key, Sha(c.req))
    ensures Respond(AfterLookup(rows, c.req.key, Sha(c.req)), c, Quiet)
         == Respond(rows[c.req.key := ClaimedRow(rows, c.req.key, Sha(c.req), c.req.now)], Acquire(c), Quiet)
  {
    var k, sha, now := c.req.key, Sha(c.req), c.req.now;
    var rows1 := AfterLookup(rows, k, sha);
    var rowsC := rows[k := ClaimedRow(rows, k, sha, now)];
    if k in rows1 && LockGuard(rows1[k]) {
      if rows[k].headSha != Some(sha) {
        assert Locked(rows1[k], sha, now) == NewRow(sha, now);
      }
      assert rows1[k := Locked(rows1[k], sha, now)] == rowsC;
      RespondAlone(rows1, c, rowsC, Acquire(c));
    } else {
      var cc := c.(pc := Create);
      RespondAlone(rows1, c, rows1, cc);
      assert Acquire(cc) == Acquire(c);
      RespondAlone(rows1, cc, rowsC, Acquire(c));
    }
  }

  /** Neither the lock nor the create succeeds: the re-read answers with the row's progress. */
  lemma BusyPhase(rows: Rows, c: Call)
    requires c.pc == Lock && c.resp.None? && c.req.key in rows
    requires !Claimable(rows, c.req.key, Sha(c.req)) && !CacheHit(Find(rows, c.req.key), Sha(c.req))
    ensures Respond(rows, c, Quiet).0 == rows
    ensures Respond(rows, c, Quiet).1.resp == Some(Busy(Some(rows[c.req.key])))
  {
    var k := c.req.key;
    var cc := c.(pc := Create);
    RespondAlone(rows, c, rows, cc);
    var cr := cc.(pc := Reread);
    RespondAlone(rows, cc, rows, cr);
    RespondAlone(rows, cr, rows, Finish(cr, Busy(Some(rows[k]))));
  }

  /** The handler run alone on a row it can claim. */
  lemma ClaimingCallIsHandle(rows: Rows, req: Request)
    requires Truthy(req.headSha) && !CacheHit(Find(rows, req.key), Sha(req))
    requires Claimable(rows, req.key, Sha(req))
    ensures Respond(rows, Start(req), Quiet).0 == Handle(rows, req).0
    ensures Respond(rows, Start(req), Quiet).1.resp == Some(Handle(rows, req).1)
  {
    var k, sha := req.key, Sha(req);
    var cL := Start(req).(pc := Lock);
    var r := ClaimedRow(rows, k, sha, req.now);
    LookupPhase(rows, req);
    ClaimPhase(rows, cL);
    Finale(rows[k := r], Acquire(cL));
    assert rows[k := r][k] == r;
    if ShouldWait(req) {
      Overwrite(rows, k, r, PipelineResult(r, req).0);
      assert Handle(rows, req) == (rows[k := PipelineResult(r, req).0], PipelineResult(r, req).1);
    } else {
      assert Handle(rows, req) == (rows[k := r], InProgress(FetchingDiff, Some(req.now)));
    }
  }

  /**
   * The handler run alone is `Handle`: the same table when it answers and the
   * same answer.
   */
  lemma RespondIsHandle(rows: Rows, req: Request)
    ensures Respond(rows, Start(req), Quiet).0 == Handle(rows, req).0
    ensures Respond(rows, Start(req), Quiet).1.resp == Some(Handle(rows, req).1)
  {
    var s0 := Start(req);
    var k, sha := req.key, Sha(req);
    if !Truthy(req.headSha) {
      RespondAlone(rows, s0, rows, Finish(s0, Threw(MissingHeadSha)));
    } else if CacheHit(Find(rows, k), sha) {
      var c := s0.(pc := Lookup);
      RespondAlone(rows, s0, rows, c);
      RespondAlone(rows, c, rows, Finish(c, Served(rows[k].summary.value, rows[k].diff.value)));
    } else if Claimable(rows, k, sha) {
      ClaimingCallIsHandle(rows, req);
    } else {
      LookupPhase(rows, req);
      assert AfterLookup(rows, k, sha) == rows;
      BusyPhase(rows, s0.(pc := Lock));
    }
  }

  /** After the lock: the caller's answer is the immediate one or the pipeline's. */
  lemma Finale(rows: Rows, c: Call)
    requires c.pc == FetchDiff && c.req.key in rows
    requires c.resp == if ShouldWait(c.req) then None else Some(InProgress(FetchingDiff, Some(c.req.now)))
    ensures Respond(rows, c, Quiet).0 == (if ShouldWait(c.req) then rows[c.req.key := PipelineResult(rows[c.req.key], c.req).0] else rows)
    ensures Respond(rows, c, Quiet).1.resp == Some(if ShouldWait(c.req) then PipelineResult(rows[c.req.key], c.req).1 else InProgress(FetchingDiff, Some(c.req.now)))
  {
    if ShouldWait(c.req) {
      CompleteIsRespond(rows, c, Quiet);
      PipelineRun(rows, c);
    }
  }

  /**
   * Without a head SHA the call throws before it reads or writes the table:
   * whatever other calls do, the table is only what they wrote.
   */
  lemma MissingShaTouchesNothing(rows: Rows, req: Request, others: Others)
    requires !Truthy(req.headSha)
    ensures Respond(rows, Start(req), others).0 == rows + others(Begin)
    ensures Respond(rows, Start(req), others).1.resp == Some(Threw(MissingHeadSha))
  {
    RespondStep(rows, Start(req), others);
  }

  /**
   * Without an API key the pipeline fails before it writes a stage: the row
   * still reads `fetching_diff` when the failure is recorded, and the error
   * write keeps the head SHA, the diff and the summary.
   */
  lemma MissingApiKeyFailsInFetchingDiff(rows: Rows, c: Call)
    requires c.pc == FetchDiff && c.req.key in rows
    requires c.req.env.diff.Some? && !Truthy(c.req.env.apiKey)
    ensures Step(rows, c).0 == rows
    ensures Step(rows, c).1.pc == Fail(MissingApiKey)
    ensures Complete(rows, c, Quiet).0 == rows[c.req.key := Errored(rows[c.req.key])]
    ensures c.resp.None? ==> Complete(rows, c, Quiet).1.resp == Some(Threw(MissingApiKey))
  {
    var (rows', c') := Step(rows, c);
    CompleteAlone(rows, c, rows', c');
    CompleteFromFail(rows', c');
  }

  /**
   * Whatever other calls write meanwhile, a call throws only for a missing
   * head SHA or from a pipeline it took the lock for itself: losing the lock
   * or the create is never reported as an error.
   */
  lemma {:induction false} OnlyThePipelineThrows(rows: Rows, c: Call, others: Others)
    requires c.resp.None? && (InPipelinePc(c.pc) ==> c.acquired)
    ensures var r := Respond(rows, c, others).1;
            r.resp.Some? && r.resp.value.Threw? ==> r.resp.value.failure == MissingHeadSha || r.acquired
    decreases Rank(c.pc)
  {
    if c.pc != Finished {
      RespondStep(rows, c, others);
      var (rows', c') := Step(rows + others(c.pc), c);
      StepThrowsOnlyFromItsRun(rows + others(c.pc), c);
      if c'.resp.None? {
        OnlyThePipelineThrows(rows', c', others);
      }
    }
  }

  /** One step of `OnlyThePipelineThrows`: a throw is the missing SHA or the call's own run, and the pipeline is entered only with the lock. */
  lemma StepThrowsOnlyFromItsRun(rows: Rows, c: Call)
    requires c.resp.None? && c.pc != Finished && (InPipelinePc(c.pc) ==> c.acquired)
    ensures var c' := Step(rows, c).1;
            (c'.resp.Some? && c'.resp.value.Threw? ==> c'.resp.value.failure == MissingHeadSha || c'.acquired)
            && (c'.resp.None? && InPipelinePc(c'.pc) ==> c'.acquired)
  {
  }

  /**
   * A call whose caller is answered while its run is still going is a call
   * that does not wait and took the lock: the dispatched run is its own.
   */
  lemma {:induction false} DispatchOnlyWithoutWaiting(rows: Rows, c: Call, others: Others)
    requires c.resp.None? && (InPipelinePc(c.pc) ==> c.acquired && ShouldWait(c.req))
    ensures var r := Respond(rows, c, others).1;
            r.pc != Finished ==> !ShouldWait(c.req) && r.acquired && InPipelinePc(r.pc)
    decreases Rank(c.pc)
  {
    if c.pc != Finished {
      RespondStep(rows, c, others);
      var (rows', c') := Step(rows + others(c.pc), c);
      StepEntersPipelineLocked(rows + others(c.pc), c);
      EarlyAnswerIsDispatch(rows + others(c.pc), c);
      if c'.resp.None? {
        DispatchOnlyWithoutWaiting(rows', c', others);
      }
    }
  }

  /** One step of `DispatchOnlyWithoutWaiting`: an unanswered call enters the pipeline only with the lock, and only when it waits. */
  lemma StepEntersPipelineLocked(rows: Rows, c: Call)
    requires c.resp.None? && c.pc != Finished && (InPipelinePc(c.pc) ==> c.acquired && ShouldWait(c.req))
    ensures var c' := Step(rows, c).1;
            c'.resp.None? && InPipelinePc(c'.pc) ==> c'.acquired && ShouldWait(c'.req)
  {
  }

  /** A call from its start: a pipeline left running after the answer was dispatched by a caller that does not wait. */
  lemma DispatchedRunIsTheCallers(rows: Rows, req: Request, others: Others)
    ensures var r := Respond(rows, Start(req), others).1;
            r.pc != Finished ==> !ShouldWait(req) && r.acquired && InPipelinePc(r.pc)
  {
    DispatchOnlyWithoutWaiting(rows, Start(req), others);
  }

  /** A call from its start: the errors it can throw. */
  lemma CallThrowsOnlyMissingShaOrFromItsRun(rows: Rows, req: Request, others: Others)
    ensures var r := Respond(rows, Start(req), others).1;
            r.resp.Some? && r.resp.value.Threw? ==> r.resp.value.failure == MissingHeadSha || r.acquired
  {
    OnlyThePipelineThrows(rows, Start(req), others);
  }

  /** Another call writes row `r` under `k` just before this call reaches `at`, and nothing else. */
  function WritesAt(at: Pc, k: Key, r: Row): Others
  {
    pc => if pc == at then map[k := r] else map[]
  }

  /**
   * The re-read after a failed create applies the cache test again: a call
   * that loses the lock and the create to a run that then saves its result
   * is served that result, and writes nothing itself.
   */
  lemma RereadServesSavedRun(rows: Rows, req: Request, r: Row)
    requires Truthy(req.headSha) && req.key in rows && rows[req.key].headSha == req.headSha
    requires !LockGuard(rows[req.key]) && !CacheHit(Find(rows, req.key), Sha(req))
    requires CacheHit(Some(r), Sha(req))
    ensures Respond(rows, Start(req), WritesAt(Reread, req.key, r)).0 == rows[req.key := r]
    ensures Respond(rows, Start(req), WritesAt(Reread, req.key, r)).1.resp
         == Some(Served(r.summary.value, r.diff.value))
  {
    var k, sha := req.key, Sha(req);
    var others := WritesAt(Reread, k, r);
    var c0 := Start(req);
    var c1 := c0.(pc := Lookup);
    var c2 := c0.(pc := Lock);
    var c3 := c0.(pc := Create);
    var c4 := c0.(pc := Reread);
    QuietMerge(rows, Begin);
    assert others(Begin) == map[] && others(Lookup) == map[] && others(Lock) == map[] && others(Create) == map[];
    RespondStep(rows, c0, others);
    assert Step(rows, c0) == (rows, c1);
    RespondStep(rows, c1, others);
    assert Step(rows, c1) == (rows, c2);
    RespondStep(rows, c2, others);
    assert Step(rows, c2) == (rows, c3);
    RespondStep(rows, c3, others);
    assert Step(rows, c3) == (rows, c4);
    var rows' := rows + others(Reread);
    assert rows' == rows[k := r];
    RespondStep(rows, c4, others);
    assert Step(rows', c4) == (rows', Finish(c4, Served(r.summary.value, r.diff.value)));
  }

  /**
   * A caller that does not wait, loses the create to a row of another head
   * SHA, resets it and wins the second lock, is told "generating" with its
   * own start time, and no pipeline is started for it: the row it leaves is
   * generating at fetching_diff with nobody running.
   */
  lemma SecondLockStartsNoRun(rows: Rows, req: Request, other: Row, others: Others)
    requires Truthy(req.headSha) && !ShouldWait(req) && req.key !in rows
    requires other.headSha != req.headSha
    requires others(Begin) == map[] && others(Lookup) == map[] && others(Lock) == map[]
    requires others(Create) == map[req.key := other]
    requires others(Reread) == map[] && others(ResetAgain) == map[] && others(Relock) == map[]
    ensures Respond(rows, Start(req), others).0 == rows[req.key := NewRow(Sha(req), req.now)]
    ensures var c := Respond(rows, Start(req), others).1;
            c.pc == Finished && !c.acquired && c.resp == Some(InProgress(FetchingDiff, Some(req.now)))
  {
    LostCreate(rows, req, other, others);
    RelockWithoutWaiting(rows[req.key := other], Start(req).(pc := Reread), others);
    Overwrite(rows, req.key, other, NewRow(Sha(req), req.now));
  }

  /** A first call that finds no row loses the create to a row another call inserts meanwhile. */
  lemma LostCreate(rows: Rows, req: Request, other: Row, others: Others)
    requires Truthy(req.headSha) && req.key !in rows
    requires others(Begin) == map[] && others(Lookup) == map[] && others(Lock) == map[]
    requires others(Create) == map[req.key := other]
    ensures Respond(rows, Start(req), others) == Respond(rows[req.key := other], Start(req).(pc := Reread), others)
  {
    var k := req.key;
    var c0 := Start(req);
    var c1 := c0.(pc := Lookup);
    var c2 := c0.(pc := Lock);
    var c3 := c0.(pc := Create);
    QuietMerge(rows, Begin);
    RespondStep(rows, c0, others);
    assert Step(rows, c0) == (rows, c1);
    RespondStep(rows, c1, others);
    assert Step(rows, c1) == (rows, c2);
    RespondStep(rows, c2, others);
    assert Step(rows, c2) == (rows, c3);
    assert rows + others(Create) == rows[k := other];
    RespondStep(rows, c3, others);
    assert Step(rows[k := other], c3) == (rows[k := other], c0.(pc := Reread));
  }

  /** The re-read, the second reset and the second lock of a caller that does not wait. */
  lemma RelockWithoutWaiting(rows: Rows, c: Call, others: Others)
    requires c.pc == Reread && c.resp.None? && !c.acquired && !ShouldWait(c.req)
    requires c.req.key in rows && rows[c.req.key].headSha != Some(Sha(c.req))
    requires others(Reread) == map[] && others(ResetAgain) == map[] && others(Relock) == map[]
    ensures Respond(rows, c, others).0 == rows[c.req.key := NewRow(Sha(c.req), c.req.now)]
    ensures var c' := Respond(rows, c, others).1;
            c'.pc == Finished && !c'.acquired && c'.resp == Some(InProgress(FetchingDiff, Some(c.req.now)))
  {
    var k, sha := c.req.key, Sha(c.req);
    var c5 := c.(pc := ResetAgain, seen := Some(rows[k]));
    var reset := Row(Some(sha), None, None, Idle, None, None);
    var c6 := c5.(pc := Relock);
    QuietMerge(rows, Reread);
    RespondStep(rows, c, others);
    assert Step(rows, c) == (rows, c5);
    RespondStep(rows, c5, others);
    assert Step(rows, c5) == (rows[k := reset], c6);
    QuietMerge(rows[k := reset], Relock);
    RespondStep(rows[k := reset], c6, others);
    Overwrite(rows, k, reset, NewRow(sha, c.req.now));
    assert Step(rows[k := reset], c6)
        == (rows[k := NewRow(sha, c.req.now)], Finish(c6, InProgress(FetchingDiff, Some(c.req.now))));
  }

  /**
   * A row left generating with nobody running is never released: every later
   * call for its head SHA is told "generating" with the stored start time and
   * writes nothing, so the next call finds the same row.
   */
  lemma OrphanedLockStays(rows: Rows, later: Request, t: int)
    requires later.key in rows && Truthy(later.headSha) && rows[later.key] == NewRow(Sha(later), t)
    ensures Handle(rows, later) == (rows, InProgress(FetchingDiff, Some(t)))
  {
  }

  /**
   * The model step records the diff its prompt was built from: the escaped
   * diff the call fetched, which the prompt carries after the fixed
   * instructions and which holds no "```".
   */
  lemma PromptCarriesEscapedDiff(rows: Rows, c: Call)
    requires c.pc == Prompt
    ensures Step(rows, c).0 == rows
    ensures Step(rows, c).1.filled == Some(Escape(c.diff))
    ensures PromptDiff(GetPrompt(Step(rows, c).1.filled.value)) == Some(Escape(c.diff))
    ensures !HasInfix(Step(rows, c).1.filled.value, Fence)
  {
    PromptDiffHasNoFence(c.diff);
  }

  /** The call leaves every other row as it was. */
  lemma HandleKeepsOtherRows(rows: Rows, req: Request, j: Key)
    requires j in rows && j != req.key
    ensures j in Handle(rows, req).0 && Handle(rows, req).0[j] == rows[j]
  {
  }

  /** Whatever the handler serves is what the table holds for that head SHA afterwards. */
  lemma ServedMatchesTable(rows: Rows, req: Request)
    requires Handle(rows, req).1.Served?
    ensures req.key in Handle(rows, req).0
    ensures Handle(rows, req).0[req.key].summary == Some(Handle(rows, req).1.summary)
    ensures Handle(rows, req).0[req.key].diff == Some(Handle(rows, req).1.diff)
    ensures Handle(rows, req).0[req.key].headSha == req.headSha
  {
  }

  /**
   * Caching: once a summary and diff that are not empty have been served, a
   * later call for the same pull request and head SHA gets them again and
   * changes nothing.
   */
  lemma ServedSummaryIsCached(rows: Rows, req: Request, later: Request)
    requires Handle(rows, req).1.Served?
    requires Handle(rows, req).1.summary != "" && Handle(rows, req).1.diff != ""
    requires later.key == req.key && later.headSha == req.headSha
    ensures Handle(Handle(rows, req).0, later) == (Handle(rows, req).0, Handle(rows, req).1)
  {
    ServedMatchesTable(rows, req);
  }

  /**
   * An empty summary (or diff) is stored but never served: it is falsy, so
   * it is no cache hit; a stored summary fails the lock guard; the row
   * exists, so the create fails. Every later call for that head SHA gets the
   * in-progress answer with the row's empty progress, and nothing changes.
   */
  lemma EmptyResultIsNeverServed(rows: Rows, req: Request, later: Request)
    requires Handle(rows, req).1.Served?
    requires Handle(rows, req).1.summary == "" || Handle(rows, req).1.diff == ""
    requires later.key == req.key && later.headSha == req.headSha
    ensures Handle(Handle(rows, req).0, later) == (Handle(rows, req).0, InProgress(FetchingDiff, None))
  {
    ServedMatchesTable(rows, req);
    var k := req.key;
    var rows' := Handle(rows, req).0;
    assert rows'[k] == PipelineResult(ClaimedRow(rows, k, Sha(req), req.now), req).0;
  }

  /**
   * A caller that finds the run another caller dispatched gets that run's
   * progress, with its start time, and starts nothing.
   */
  lemma SecondCallerSeesTheRun(rows: Rows, first: Request, second: Request)
    requires Truthy(first.headSha) && !CacheHit(Find(rows, first.key), Sha(first))
    requires Claimable(rows, first.key, Sha(first)) && !ShouldWait(first)
    requires second.key == first.key && second.headSha == first.headSha
    ensures Handle(Handle(rows, first).0, second)
         == (Handle(rows, first).0, InProgress(FetchingDiff, Some(first.now)))
  {
  }

  /**
   * A row stored for another head SHA is replaced by a fresh running row:
   * its diff and summary are dropped, whatever its status was. A waiting
   * caller runs the pipeline on that row and gets its result.
   */
  lemma StaleRowIsReplaced(rows: Rows, req: Request)
    requires Truthy(req.headSha) && req.key in rows && rows[req.key].headSha != req.headSha
    ensures var cleared := NewRow(Sha(req), req.now);
            Handle(rows, req)
            == if ShouldWait(req) then (rows[req.key := PipelineResult(cleared, req).0], PipelineResult(cleared, req).1)
               else (rows[req.key := cleared], InProgress(FetchingDiff, Some(req.now)))
  {
  }

  /**
   * A failed run is retried: an errored row of the same head SHA without a
   * summary is locked again, keeping the diff it stored.
   */
  lemma FailedRunIsRetried(rows: Rows, req: Request)
    requires Truthy(req.headSha) && req.key in rows && rows[req.key].headSha == req.headSha
    requires rows[req.key].status == Error && rows[req.key].summary.None?
    ensures Handle(rows, req).0[req.key].diff
         == (if ShouldWait(req) then PipelineResult(ClaimedRow(rows, req.key, Sha(req), req.now), req).0.diff
             else rows[req.key].diff)
    ensures !ShouldWait(req) ==> Handle(rows, req).1 == InProgress(FetchingDiff, Some(req.now))
    ensures !ShouldWait(req) ==> Handle(rows, req).0[req.key].status == Generating
    ensures var claimed := ClaimedRow(rows, req.key, Sha(req), req.now);
            ShouldWait(req) ==> Handle(rows, req) == (rows[req.key := PipelineResult(claimed, req).0], PipelineResult(claimed, req).1)
  {
  }

  /**
   * The answer of a pipeline agrees with the row it leaves: an error marks
   * the row as errored and keeps its head SHA, diff and summary; a success
   * stores exactly what it returns, for the call's head SHA.
   */
  lemma {:induction false} PipelineAnswerMatchesRow(r: Row, req: Request)
    ensures PipelineResult(r, req).1.Threw? <==> PipelineResult(r, req).0.status == Error
    ensures PipelineResult(r, req).1.Threw? ==>
      var r' := PipelineResult(r, req).0;
      r'.headSha == r.headSha && r'.diff == r.diff && r'.summary == r.summary
      && r'.stage.None? && r'.startedAt.None?
    ensures PipelineResult(r, req).1.Served? ==>
      PipelineResult(r, req).0
        == Row(Some(Sha(req)), Some(PipelineResult(r, req).1.diff), Some(PipelineResult(r, req).1.summary), Ready, None, None)
    ensures PipelineResult(r, req).1.Served? ==> Some(PipelineResult(r, req).1.diff) == req.env.diff
  {
  }

  /** Every step keeps every row well-formed: a ready row has its diff and summary, a generating row its stage and start time. */
  predicate AllWellFormed(rows: Rows)
  {
    forall j :: j in rows ==> WellFormed(rows[j])
  }

  /**
   * Every step keeps every row well formed: a ready row has its diff and
   * summary, a generating row its stage and start time.
   */
  lemma StepKeepsRowsWellFormed(rows: Rows, c: Call)
    requires AllWellFormed(rows)
    ensures AllWellFormed(Step(rows, c).0)
  {
    StepFrame(rows, c);
  }
}
