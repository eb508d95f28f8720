/**
 * Several `generateSummary` calls interleaved step by step on one table.
 * Each call is a `SummaryCoordinator.Call`; a schedule says whose atomic step
 * comes next. For calls that share a key and a head SHA, and a row that is
 * absent or already carries that SHA, an invariant shows the lock of
 * src/serverActions/generateSummary.ts is single-flight: at most one call is
 * in the pipeline at a time, at most one pipeline ever succeeds, and while it
 * runs the row shows its stage and start time. A row of another SHA read by
 * two callers before either resets it breaks this: `StaleRowAdmitsTwoRuns`.
 */
module SummaryRaces {
  import opened Wrappers
  import opened SummaryStore
  import opened SummaryCoordinator

  /** The table and the state of every call in flight, by call id. */
  datatype System = System(rows: Rows, calls: map<nat, Call>)

  /** Call `id` takes its next atomic step; an unknown call has none. */
  function Next(s: System, id: nat): (s': System)
    ensures s'.calls.Keys == s.calls.Keys
    ensures forall j :: j in s.calls && j != id ==> s'.calls[j] == s.calls[j]
    ensures id in s.calls ==> s'.calls[id].req == s.calls[id].req
  {
    if id in s.calls then
      var (rows', c') := Step(s.rows, s.calls[id]);
      System(rows', s.calls[id := c'])
    else s
  }

  /** The steps of `schedule`, in order. */
  function Run(s: System, schedule: seq<nat>): (s': System)
    ensures s'.calls.Keys == s.calls.Keys
    decreases |schedule|
  {
    if schedule == [] then s else Run(Next(s, schedule[0]), schedule[1..])
  }

  /** A call that took the lock and has not failed: running the pipeline, or done with it. */
  predicate Holds(c: Call)
  {
    c.acquired && !c.failed
  }

  /** A call whose pipeline saved its result. */
  predicate Succeeded(c: Call)
  {
    Holds(c) && c.pc == Finished
  }

  /** The stage a holder at `pc` has written to the row. */
  function PcStage(pc: Pc): Stage
  {
    match pc
    case Prompt | MarkSaving => PromptingModel
    case Save => SavingResult
    case _ => FetchingDiff
  }

  /** Neither the lock nor the create can succeed on this table. */
  predicate Claimed(rows: Rows, k: Key)
  {
    k in rows && (rows[k].status == Generating || rows[k].summary.Some?)
  }

  /**
   * What the row shows while `c` holds the lock: generating, with no summary,
   * the holder's stage and start time; and a summary once it has succeeded.
   */
  predicate HolderRow(rows: Rows, k: Key, c: Call)
  {
    k in rows &&
    if c.pc == Finished then rows[k].summary.Some?
    else
      rows[k].status == Generating && rows[k].summary.None? && rows[k].stage.Some?
      && rows[k].startedAt == Some(c.req.now)
      && (!c.pc.Fail? ==> rows[k].stage == Some(PcStage(c.pc)))
  }

  /** The row, if any, carries the callers' SHA. */
  predicate RowOk(rows: Rows, k: Key, sha: string)
  {
    k in rows ==> rows[k].headSha == Some(sha)
  }

  /**
   * A call for `k` and `sha` that never needs to reset the row, that runs the
   * pipeline only while it holds the lock, and that holds it only in the
   * pipeline or once it has succeeded.
   */
  predicate CallOk(c: Call, k: Key, sha: string)
  {
    c.req.key == k && c.req.headSha == Some(sha)
    && !c.pc.ResetStale? && !c.pc.ResetAgain? && !c.pc.Relock?
    && (InPipelinePc(c.pc) ==> Holds(c))
    && (!InPipelinePc(c.pc) && c.pc != Finished ==> !c.acquired && !c.failed)
    && (Holds(c) ==> InPipelinePc(c.pc) || c.pc == Finished)
  }

  predicate Inv(s: System, k: Key, sha: string)
  {
    RowOk(s.rows, k, sha)
    && (forall id :: id in s.calls ==> CallOk(s.calls[id], k, sha))
    && (forall i, j :: i in s.calls && j in s.calls && Holds(s.calls[i]) && Holds(s.calls[j]) ==> i == j)
    && (forall id :: id in s.calls && Holds(s.calls[id]) ==> HolderRow(s.rows, k, s.calls[id]))
  }

  /** Calls for `k` and `sha` that have not started, on a table whose row is absent or has that SHA. */
  predicate Initial(s: System, k: Key, sha: string)
  {
    RowOk(s.rows, k, sha)
    && forall id :: id in s.calls ==>
         s.calls[id] == Start(s.calls[id].req) && s.calls[id].req.key == k && s.calls[id].req.headSha == Some(sha)
  }

  lemma InitInv(s: System, k: Key, sha: string)
    requires Initial(s, k, sha)
    ensures Inv(s, k, sha)
  {
  }

  /**
   * One step of one call, seen on the shared row: a call that does not hold
   * the lock and does not take it leaves the table alone; a call takes it
   * only on a table nobody has claimed; a holder keeps the row as `HolderRow`
   * says.
   */
  lemma StepLocal(rows: Rows, c: Call, k: Key, sha: string)
    requires RowOk(rows, k, sha) && CallOk(c, k, sha)
    requires Holds(c) ==> HolderRow(rows, k, c)
    ensures RowOk(Step(rows, c).0, k, sha) && CallOk(Step(rows, c).1, k, sha)
    ensures !Holds(c) && !Holds(Step(rows, c).1) ==> Step(rows, c).0 == rows
    ensures !Holds(c) && Holds(Step(rows, c).1) ==> !Claimed(rows, k)
    ensures Holds(Step(rows, c).1) ==> HolderRow(Step(rows, c).0, k, Step(rows, c).1)
  {
    match c.pc
    case Begin =>
    case Lookup =>
    case ResetStale =>
    case Lock =>
    case Create =>
    case Reread =>
    case ResetAgain =>
    case Relock =>
    case FetchDiff =>
    case MarkPrompting =>
    case Prompt =>
    case MarkSaving =>
    case Save =>
    case Fail(_) =>
    case Finished =>
  }

  lemma NextInv(s: System, id: nat, k: Key, sha: string)
    requires Inv(s, k, sha)
    ensures Inv(Next(s, id), k, sha)
  {
    if id in s.calls {
      StepLocal(s.rows, s.calls[id], k, sha);
      var (rows', c') := Step(s.rows, s.calls[id]);
      Replace(s, id, rows', c', k, sha);
    }
  }

  /** Call `id` replaced by `c'` on the table `rows'`, as `StepLocal` describes the step. */
  lemma Replace(s: System, id: nat, rows': Rows, c': Call, k: Key, sha: string)
    requires Inv(s, k, sha) && id in s.calls
    requires RowOk(rows', k, sha) && CallOk(c', k, sha)
    requires !Holds(s.calls[id]) && !Holds(c') ==> rows' == s.rows
    requires !Holds(s.calls[id]) && Holds(c') ==> !Claimed(s.rows, k)
    requires Holds(c') ==> HolderRow(rows', k, c')
    ensures Inv(System(rows', s.calls[id := c']), k, sha)
  {
    assert forall j :: j in s.calls && Holds(s.calls[j]) ==> Claimed(s.rows, k);
  }

  /** The invariant holds after every schedule. */
  lemma {:induction false} RunInv(s: System, schedule: seq<nat>, k: Key, sha: string)
    requires Inv(s, k, sha)
    ensures Inv(Run(s, schedule), k, sha)
    decreases |schedule|
  {
    if schedule != [] {
      NextInv(s, schedule[0], k, sha);
      RunInv(Next(s, schedule[0]), schedule[1..], k, sha);
    }
  }

  /**
   * Single flight for one head SHA: whatever the interleaving, no two calls
   * are in the pipeline at once, at most one pipeline succeeds, and no call
   * runs the pipeline beside one that has succeeded.
   */
  lemma SameShaSingleFlight(s: System, k: Key, sha: string, schedule: seq<nat>)
    requires Initial(s, k, sha)
    ensures var t := Run(s, schedule);
            forall i, j :: i in t.calls && j in t.calls && InPipelinePc(t.calls[i].pc) && InPipelinePc(t.calls[j].pc)
              ==> i == j
    ensures var t := Run(s, schedule);
            forall i, j :: i in t.calls && j in t.calls && Succeeded(t.calls[i]) && Succeeded(t.calls[j])
              ==> i == j
    ensures var t := Run(s, schedule);
            forall i, j :: i in t.calls && j in t.calls && Succeeded(t.calls[i]) ==> !InPipelinePc(t.calls[j].pc)
  {
    InitInv(s, k, sha);
    RunInv(s, schedule, k, sha);
  }

  /**
   * What a poller sees while a call runs the pipeline: the row is generating,
   * with that call's start time and the stage it has reached.
   */
  lemma PollersSeeTheRun(s: System, k: Key, sha: string, schedule: seq<nat>, id: nat)
    requires Initial(s, k, sha)
    requires id in s.calls
    requires InPipelinePc(Run(s, schedule).calls[id].pc)
    ensures var rows := Run(s, schedule).rows;
            var c := Run(s, schedule).calls[id];
            k in rows && rows[k].status == Generating && rows[k].summary.None?
            && rows[k].startedAt == Some(c.req.now)
            && (!c.pc.Fail? ==> rows[k].stage == Some(PcStage(c.pc)))
  {
    InitInv(s, k, sha);
    RunInv(s, schedule, k, sha);
  }

  /** Order of the stages; `None` before them all. */
  function StageRank(st: Option<Stage>): nat
  {
    match st
    case None => 0
    case Some(FetchingDiff) => 1
    case Some(PromptingModel) => 2
    case Some(SavingResult) => 3
  }

  /**
   * While the row stays generating, no step moves its stage back; and a row
   * whose run has succeeded keeps a summary.
   */
  lemma StageNeverMovesBack(s: System, id: nat, k: Key, sha: string)
    requires Inv(s, k, sha)
    requires k in s.rows && s.rows[k].status == Generating
    ensures k in Next(s, id).rows
    ensures Next(s, id).rows[k].status == Generating ==>
              StageRank(s.rows[k].stage) <= StageRank(Next(s, id).rows[k].stage)
  {
    if id in s.calls {
      StepLocal(s.rows, s.calls[id], k, sha);
    }
  }

  /** Once a run has succeeded, the row keeps a summary after every further step. */
  lemma SummaryStays(s: System, k: Key, sha: string, schedule: seq<nat>, id: nat)
    requires Inv(s, k, sha)
    requires id in s.calls && Succeeded(s.calls[id])
    ensures k in Run(s, schedule).rows && Run(s, schedule).rows[k].summary.Some?
  {
    RunInv(s, schedule, k, sha);
    RunKeepsFinished(s, schedule, id);
  }

  /** A finished call stays finished, unchanged. */
  lemma {:induction false} RunKeepsFinished(s: System, schedule: seq<nat>, id: nat)
    requires id in s.calls && s.calls[id].pc == Finished
    ensures Run(s, schedule).calls[id] == s.calls[id]
    decreases |schedule|
  {
    if schedule != [] {
      RunKeepsFinished(Next(s, schedule[0]), schedule[1..], id);
    }
  }

  /** Two waiting callers for one key and head SHA, and the row another SHA left. */
  datatype Race = Race(first: Request, second: Request, stale: Row)

  predicate Rivals(x: Race)
  {
    x.second.key == x.first.key && x.second.headSha == x.first.headSha && Truthy(x.first.headSha)
    && x.stale.headSha != x.first.headSha && ShouldWait(x.first) && ShouldWait(x.second)
  }

  /** Caller `req` at `pc`; past the lock it holds it. */
  function Racer(req: Request, pc: Pc): Call
  {
    Start(req).(pc := pc, acquired := pc == FetchDiff)
  }

  /** Both callers of `x` on the table holding `row`, one at `a`, the other at `b`. */
  function At(x: Race, row: Row, a: Pc, b: Pc): System
  {
    System(map[x.first.key := row], map[0 := Racer(x.first, a), 1 := Racer(x.second, b)])
  }

  /** A step of the first caller, moving it from `a` to `a'` and the row from `row` to `row'`. */
  lemma FirstMoves(x: Race, row: Row, a: Pc, b: Pc, row': Row, a': Pc)
    requires Step(map[x.first.key := row], Racer(x.first, a)) == (map[x.first.key := row'], Racer(x.first, a'))
    ensures Run(At(x, row, a, b), [0]) == At(x, row', a', b)
  {
    RunUnfold(At(x, row, a, b), 0);
    assert At(x, row, a, b).calls[0 := Racer(x.first, a')] == At(x, row', a', b).calls;
  }

  /** A step of the second caller. */
  lemma SecondMoves(x: Race, row: Row, a: Pc, b: Pc, row': Row, b': Pc)
    requires x.second.key == x.first.key
    requires Step(map[x.first.key := row], Racer(x.second, b)) == (map[x.first.key := row'], Racer(x.second, b'))
    ensures Run(At(x, row, a, b), [1]) == At(x, row', a, b')
  {
    RunUnfold(At(x, row, a, b), 1);
    assert At(x, row, a, b).calls[1 := Racer(x.second, b')] == At(x, row', a, b').calls;
  }

  lemma Overwritten(k: Key, row: Row, row': Row)
    ensures map[k := row][k := row'] == map[k := row']
  {
  }

  /** The first four steps: both callers read the stale row. */
  lemma BothReadStale(x: Race)
    requires Rivals(x)
    ensures Run(At(x, x.stale, Begin, Begin), [0, 0, 1, 1]) == At(x, x.stale, ResetStale, ResetStale)
  {
    FirstMoves(x, x.stale, Begin, Begin, x.stale, Lookup);
    FirstMoves(x, x.stale, Lookup, Begin, x.stale, ResetStale);
    SecondMoves(x, x.stale, ResetStale, Begin, x.stale, Lookup);
    SecondMoves(x, x.stale, ResetStale, Lookup, x.stale, ResetStale);
    FourSteps(At(x, x.stale, Begin, Begin), 0, 0, 1, 1);
  }

  /**
   * The next four: the first caller resets the row and locks it; the second,
   * acting on its stale read, resets the first caller's lock away and locks
   * the row too.
   */
  lemma BothLock(x: Race)
    requires Rivals(x)
    ensures Run(At(x, x.stale, ResetStale, ResetStale), [0, 0, 1, 1])
         == At(x, NewRow(Sha(x.first), x.second.now), FetchDiff, FetchDiff)
  {
    var k := x.first.key;
    var sha := Sha(x.first);
    var cleared := Apply(x.stale, ResetFor(sha));
    Overwritten(k, x.stale, cleared);
    FirstMoves(x, x.stale, ResetStale, ResetStale, cleared, Lock);
    Overwritten(k, cleared, NewRow(sha, x.first.now));
    FirstMoves(x, cleared, Lock, ResetStale, NewRow(sha, x.first.now), FetchDiff);
    Overwritten(k, NewRow(sha, x.first.now), cleared);
    SecondMoves(x, NewRow(sha, x.first.now), FetchDiff, ResetStale, cleared, Lock);
    Overwritten(k, cleared, NewRow(sha, x.second.now));
    SecondMoves(x, cleared, FetchDiff, Lock, NewRow(sha, x.second.now), FetchDiff);
    FourSteps(At(x, x.stale, ResetStale, ResetStale), 0, 0, 1, 1);
  }

  /**
   * Single flight fails on a row of another SHA, whatever its status: when
   * both callers read it before either resets it, the second reset wipes the
   * first caller's lock and both run the pipeline at the same time.
   */
  lemma StaleRowAdmitsTwoRuns(x: Race)
    requires Rivals(x)
    ensures var t := Run(At(x, x.stale, Begin, Begin), [0, 0, 1, 1, 0, 0, 1, 1]);
            InPipelinePc(t.calls[0].pc) && InPipelinePc(t.calls[1].pc)
  {
    BothReadStale(x);
    BothLock(x);
    Chain(At(x, x.stale, Begin, Begin), At(x, x.stale, ResetStale, ResetStale),
          At(x, NewRow(Sha(x.first), x.second.now), FetchDiff, FetchDiff), [0, 0, 1, 1]);
  }

  lemma Chain(s: System, m: System, t: System, h: seq<nat>)
    requires Run(s, h) == m && Run(m, h) == t
    ensures Run(s, h + h) == t
  {
    RunAppend(s, h, h);
  }

  /** Four steps, one at a time. */
  lemma FourSteps(s: System, a: nat, b: nat, c: nat, d: nat)
    ensures Run(s, [a, b, c, d]) == Run(Run(Run(Run(s, [a]), [b]), [c]), [d])
  {
    var s1 := Next(s, a);
    var s2 := Next(s1, b);
    var s3 := Next(s2, c);
    assert [a, b, c, d][1..] == [b, c, d] && [b, c, d][1..] == [c, d] && [c, d][1..] == [d];
    assert Run(s, [a, b, c, d]) == Run(s1, [b, c, d]);
    assert Run(s1, [b, c, d]) == Run(s2, [c, d]);
    assert Run(s2, [c, d]) == Run(s3, [d]);
    RunUnfold(s, a);
    RunUnfold(s1, b);
    RunUnfold(s2, c);
  }

  lemma RunUnfold(s: System, id: nat)
    ensures Run(s, [id]) == Next(s, id)
  {
    assert [id][1..] == [];
  }

  /** Running two schedules one after the other is running their concatenation. */
  lemma {:induction false} RunAppend(s: System, xs: seq<nat>, ys: seq<nat>)
    ensures Run(s, xs + ys) == Run(Run(s, xs), ys)
    decreases |xs|
  {
    if xs == [] {
      assert xs + ys == ys;
    } else {
      assert (xs + ys)[0] == xs[0] && (xs + ys)[1..] == xs[1..] + ys;
      RunAppend(Next(s, xs[0]), xs[1..], ys);
    }
  }
}
