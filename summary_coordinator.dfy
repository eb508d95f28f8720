/**
 * The `generateSummary` handler of src/serverActions/generateSummary.ts as a
 * machine of atomic steps. One step is one Prisma call, or one call to GitHub
 * or the model, whose outcome is an input (`Env`). Calls made at the same
 * time interleave at step boundaries: `Respond` (until the caller is
 * answered) and `Complete` (until the pipeline has ended) run one call amid
 * arbitrary writes of the others, and module `SummaryRaces` runs several
 * calls together.
 */
module SummaryCoordinator {
  import opened Wrappers
  import opened SummaryPrompt
  import opened SummaryStore

  /** The errors the handler throws. */
  datatype Failure = MissingHeadSha | DiffFetchFailed | MissingApiKey | ModelFailed

  /**
   * What the outside world answers during one call: the diff GitHub returns
   * (`None`: the request throws), the `OPENROUTER_API_KEY` setting, and the
   * text the model replies to the one prompt the call sends (`None`:
   * `generateText` throws). What the prompt
   * was built from is recorded in the call's state.
   */
  datatype Env = Env(diff: Option<string>, apiKey: Option<string>, reply: Option<string>)

  /** One call: its key, the head SHA GitHub reported, `wait`, the call's start time in ms. */
  datatype Request = Request(key: Key, headSha: Option<string>, wait: Option<bool>, now: int, env: Env)

  /** What the call returns, or `Threw` for the error it throws. */
  datatype Response =
    | Served(summary: string, diff: string)
    | InProgress(stage: Stage, startedAt: Option<int>)
    | Threw(failure: Failure)

  /** `wait ?? true`. */
  function ShouldWait(req: Request): bool
  {
    req.wait.GetOr(true)
  }

  function Sha(req: Request): string
  {
    req.headSha.GetOr("")
  }

  /** Where a call is: the next atomic step it takes. */
  datatype Pc =
    | Begin          // check the head SHA
    | Lookup         // findUnique
    | ResetStale     // update: reset a row of another head SHA
    | Lock           // updateMany: take the lock
    | Create         // create the row
    | Reread         // findUnique after a failed create
    | ResetAgain     // update: reset after the re-read
    | Relock         // updateMany: the second lock attempt
    | FetchDiff      // GitHub diff request and key check
    | MarkPrompting  // update: stage prompting_model
    | Prompt         // generateText
    | MarkSaving     // update: stage saving_result
    | Save           // update: the result
    | Fail(failure: Failure)  // update: the error
    | Finished

  /**
   * The state of one call. `seen` is the row of the re-read, `diff` and
   * `summary` the pipeline's locals, `filled` the escaped diff the prompt
   * sent to the model was built from (`GetPrompt(filled)`), `resp` what the
   * caller got (a dispatched pipeline runs on after its caller got an answer). `acquired` and `failed`
   * record whether the call ever ran the pipeline and whether it failed.
   */
  datatype Call = Call(
    req: Request, pc: Pc, seen: Option<Row>, diff: string, summary: string,
    filled: Option<string>, resp: Option<Response>, acquired: bool, failed: bool)

  function Start(req: Request): Call
  {
    Call(req, Begin, None, "", "", None, None, false, false)
  }

  function Finish(c: Call, r: Response): Call
  {
    c.(pc := Finished, resp := if c.resp.Some? then c.resp else Some(r))
  }

  /** Lock taken: run the pipeline, either inline or dispatched with an immediate answer. */
  function Acquire(c: Call): Call
  {
    c.(pc := FetchDiff, acquired := true,
       resp := if ShouldWait(c.req) || c.resp.Some? then c.resp else Some(InProgress(FetchingDiff, Some(c.req.now))))
  }

  /** The in-progress answer built from a row read earlier. */
  function Busy(seen: Option<Row>): Response
  {
    match seen
    case Some(r) => InProgress(r.stage.GetOr(FetchingDiff), r.startedAt)
    case None => InProgress(FetchingDiff, None)
  }

  function Rank(pc: Pc): nat
  {
    match pc
    case Begin => 14
    case Lookup => 13
    case ResetStale => 12
    case Lock => 11
    case Create => 10
    case Reread => 9
    case ResetAgain => 8
    case Relock => 7
    case FetchDiff => 6
    case MarkPrompting => 5
    case Prompt => 4
    case MarkSaving => 3
    case Save => 2
    case Fail(_) => 1
    case Finished => 0
  }

  /** A step writes at most the row under key `k`, and may insert it. */
  predicate Frame(rows: Rows, rows': Rows, k: Key)
  {
    rows.Keys <= rows'.Keys <= rows.Keys + {k}
    && forall j :: j in rows && j != k ==> rows'[j] == rows[j]
  }

  /** A step keeps the call's request and moves it strictly closer to `Finished`. */
  predicate Progress(c: Call, c': Call)
  {
    c'.req == c.req && Rank(c'.pc) < Rank(c.pc)
  }

  /**
   * A step never changes an answer the caller already has, and a call that
   * has finished has an answer.
   */
  predicate Answers(c: Call, c': Call)
  {
    (c.resp.Some? ==> c'.resp == c.resp) && (c'.pc == Finished ==> c'.resp.Some?)
  }

  predicate EntryPc(pc: Pc)
  {
    pc.Begin? || pc.Lookup? || pc.ResetStale? || pc.Lock? || pc.Create?
  }

  predicate RetryPc(pc: Pc)
  {
    pc.Reread? || pc.ResetAgain? || pc.Relock?
  }

  /** The steps of `runGeneration`. */
  predicate InPipelinePc(pc: Pc)
  {
    pc.FetchDiff? || pc.MarkPrompting? || pc.Prompt? || pc.MarkSaving? || pc.Save? || pc.Fail?
  }

  /** The SHA check, the first read, the reset of a stale row, the lock and the create. */
  function EntryStep(rows: Rows, c: Call): (res: (Rows, Call))
    requires EntryPc(c.pc)
    ensures Progress(c, res.1) && Answers(c, res.1)
    ensures c.resp.None? && res.1.resp.Some? && res.1.pc != Finished
            ==> (c.pc.Lock? || c.pc.Create?) && !ShouldWait(c.req) && res.1.acquired && res.1.pc == FetchDiff
  {
    var req := c.req;
    var k := req.key;
    var sha := Sha(req);
    match c.pc
    case Begin =>
      if !Truthy(req.headSha) then (rows, Finish(c, Threw(MissingHeadSha)))
      else (rows, c.(pc := Lookup))
    case Lookup =>
      var existing := Find(rows, k);
      if CacheHit(existing, sha) then
        (rows, Finish(c, Served(existing.value.summary.value, existing.value.diff.value)))
      else if existing.Some? && existing.value.headSha != Some(sha) then
        (rows, c.(pc := ResetStale))
      else
        (rows, c.(pc := Lock))
    case ResetStale =>
      (Patched(rows, k, ResetFor(sha)), c.(pc := Lock))
    case Lock =>
      var (rows', count) := LockMany(rows, k, sha, req.now);
      if count > 0 then (rows', Acquire(c)) else (rows, c.(pc := Create))
    case Create =>
      if k in rows then (rows, c.(pc := Reread))
      else (rows[k := NewRow(sha, req.now)], Acquire(c))
  }

  /** After a failed create: the re-read, the reset of a stale row and the second lock. */
  function RetryStep(rows: Rows, c: Call): (res: (Rows, Call))
    requires RetryPc(c.pc)
    ensures Progress(c, res.1) && Answers(c, res.1)
    ensures c.resp.None? && res.1.resp.Some? ==> res.1.pc == Finished
    ensures c.pc == Relock
            ==> (res.1.pc == FetchDiff <==> ShouldWait(c.req) && LockMany(rows, c.req.key, Sha(c.req), c.req.now).1 == 1)
    ensures c.pc == Relock && !ShouldWait(c.req) ==> res.1.pc == Finished
  {
    var req := c.req;
    var k := req.key;
    var sha := Sha(req);
    match c.pc
    case Reread =>
      var inProgress := Find(rows, k);
      if CacheHit(inProgress, sha) then
        (rows, Finish(c, Served(inProgress.value.summary.value, inProgress.value.diff.value)))
      else if inProgress.Some? && inProgress.value.headSha != Some(sha) then
        (rows, c.(pc := ResetAgain, seen := inProgress))
      else
        (rows, Finish(c, Busy(inProgress)))
    case ResetAgain =>
      (Patched(rows, k, ResetFor(sha)), c.(pc := Relock))
    case Relock =>
      // A second lock runs the pipeline only for a waiting caller; a caller
      // that does not wait is answered and no pipeline is started.
      var (rows', count) := LockMany(rows, k, sha, req.now);
      if count == 0 then (rows, Finish(c, Busy(c.seen)))
      else if ShouldWait(req) then (rows', Acquire(c))
      else (rows', Finish(c, InProgress(FetchingDiff, Some(req.now))))
  }

  /** One step of `runGeneration`. */
  function PipelineStep(rows: Rows, c: Call): (res: (Rows, Call))
    requires InPipelinePc(c.pc)
    ensures Progress(c, res.1) && Answers(c, res.1)
  {
    var req := c.req;
    var k := req.key;
    match c.pc
    case FetchDiff =>
      (match req.env.diff
       case None => (rows, c.(pc := Fail(DiffFetchFailed)))
       case Some(d) =>
         if !Truthy(req.env.apiKey) then (rows, c.(pc := Fail(MissingApiKey), diff := d))
         else (rows, c.(pc := MarkPrompting, diff := d)))
    case MarkPrompting =>
      (Patched(rows, k, EnterStage(PromptingModel)), c.(pc := Prompt))
    case Prompt =>
      var sent := Some(Escape(c.diff));
      (match req.env.reply
       case None => (rows, c.(pc := Fail(ModelFailed), filled := sent))
       case Some(text) => (rows, c.(pc := MarkSaving, filled := sent, summary := Unescape(text))))
    case MarkSaving =>
      (Patched(rows, k, EnterStage(SavingResult)), c.(pc := Save))
    case Save =>
      (Patched(rows, k, SaveResult(c.diff, c.summary, Sha(req))), Finish(c, Served(c.summary, c.diff)))
    case Fail(e) =>
      (Patched(rows, k, MarkError), Finish(c, Threw(e)).(failed := true))
  }

  /**
   * One atomic step of call `c` on the table `rows`. Every step of an
   * unfinished call moves it closer to `Finished` and keeps any answer its
   * caller already has.
   */
  function Step(rows: Rows, c: Call): (res: (Rows, Call))
    ensures res.1.req == c.req
    ensures c.pc != Finished ==> Progress(c, res.1) && Answers(c, res.1)
    ensures c.pc == Finished ==> res == (rows, c)
  {
    match c.pc
    case Begin | Lookup | ResetStale | Lock | Create => EntryStep(rows, c)
    case Reread | ResetAgain | Relock => RetryStep(rows, c)
    case FetchDiff | MarkPrompting | Prompt | MarkSaving | Save | Fail(_) => PipelineStep(rows, c)
    case Finished => (rows, c)
  }

  /**
   * The only step that answers a caller before its call ends is the first
   * lock or the create of a caller that does not wait: the run it took the
   * lock for is dispatched.
   */
  lemma EarlyAnswerIsDispatch(rows: Rows, c: Call)
    ensures var c' := Step(rows, c).1;
            c.resp.None? && c'.resp.Some? && c'.pc != Finished
            ==> (c.pc.Lock? || c.pc.Create?) && !ShouldWait(c.req) && c'.acquired && c'.pc == FetchDiff
  {
  }

  /**
   * The writes other calls make while a call is suspended at an `await`:
   * `others(pc)` is merged into the table just before the step at `pc`.
   * Rows are never deleted, so a merge is all another call can do.
   */
  type Others = Pc -> Rows

  /** No other call runs. */
  function Quiet(pc: Pc): Rows
  {
    map[]
  }

  /** Every step writes at most the call's own row, and may insert it. */
  lemma StepFrame(rows: Rows, c: Call)
    ensures Frame(rows, Step(rows, c).0, c.req.key)
  {
  }

  /** Runs call `c` until its caller has an answer, amid the writes of `others`. */
  function Respond(rows: Rows, c: Call, others: Others): (res: (Rows, Call))
    ensures (c.pc == Finished ==> c.resp.Some?) ==> res.1.resp.Some?
    ensures c.resp.Some? ==> res == (rows, c)
    ensures res.1.req == c.req
    decreases Rank(c.pc)
  {
    if c.resp.Some? || c.pc == Finished then (rows, c)
    else
      var (rows', c') := Step(rows + others(c.pc), c);
      Respond(rows', c', others)
  }

  /** Runs call `c` to its end, amid the writes of `others`. */
  function Complete(rows: Rows, c: Call, others: Others): (res: (Rows, Call))
    ensures res.1.pc == Finished
    ensures (c.pc == Finished ==> c.resp.Some?) ==> res.1.resp.Some?
    ensures c.resp.Some? ==> res.1.resp == c.resp
    ensures res.1.req == c.req
    decreases Rank(c.pc)
  {
    if c.pc == Finished then (rows, c)
    else
      var (rows', c') := Step(rows + others(c.pc), c);
      Complete(rows', c', others)
  }

  /** One step of `Respond`, unfolded. */
  lemma RespondStep(rows: Rows, c: Call, others: Others)
    requires c.resp.None? && c.pc != Finished
    ensures Respond(rows, c, others)
         == Respond(Step(rows + others(c.pc), c).0, Step(rows + others(c.pc), c).1, others)
  {
  }

  /** One step of `Complete`, unfolded. */
  lemma CompleteStep(rows: Rows, c: Call, others: Others)
    requires c.pc != Finished
    ensures Complete(rows, c, others)
         == Complete(Step(rows + others(c.pc), c).0, Step(rows + others(c.pc), c).1, others)
  {
  }

  /** Without other calls the merge changes nothing. */
  lemma QuietMerge(rows: Rows, pc: Pc)
    ensures rows + Quiet(pc) == rows
  {
    assert (rows + Quiet(pc)).Keys == rows.Keys;
  }

  /** A pipeline whose caller waits answers its caller only when it ends. */
  lemma {:induction false} CompleteIsRespond(rows: Rows, c: Call, others: Others)
    requires c.resp.None? && (c.pc == Finished || InPipelinePc(c.pc))
    ensures Respond(rows, c, others) == Complete(rows, c, others)
    decreases Rank(c.pc)
  {
    if c.pc != Finished {
      var (rows', c') := Step(rows + others(c.pc), c);
      if c'.resp.None? {
        CompleteIsRespond(rows', c', others);
      }
    }
  }
}
