/**
 * The persisted `pullRequest` table that the summary coordinator of
 * src/serverActions/generateSummary.ts works on: rows keyed by
 * (owner, repo, number), and the Prisma calls it makes, each one atomic.
 */
module SummaryStore {
  import opened Wrappers

  datatype Status = Idle | Generating | Ready | Error

  datatype Stage = FetchingDiff | PromptingModel | SavingResult

  /** The composite unique key `owner_repo_number`. */
  datatype Key = Key(owner: string, repo: string, number: int)

  /** One row; `startedAt` is a time in milliseconds. */
  datatype Row = Row(
    headSha: Option<string>,
    diff: Option<string>,
    summary: Option<string>,
    status: Status,
    stage: Option<Stage>,
    startedAt: Option<int>)

  type Rows = map<Key, Row>

  /**
   * The data of one `update` call of the coordinator: the fields it sets.
   */
  datatype Patch =
    | ResetFor(sha: string)
    | EnterStage(stage: Stage)
    | SaveResult(diff: string, summary: string, sha: string)
    | MarkError

  /** The row after `update` with patch `p`; fields the patch does not name keep their value. */
  function Apply(r: Row, p: Patch): Row
  {
    match p
    case ResetFor(sha) =>
      Row(Some(sha), None, None, Idle, None, None)
    case EnterStage(stage) =>
      r.(stage := Some(stage))
    case SaveResult(diff, summary, sha) =>
      Row(Some(sha), Some(diff), Some(summary), Ready, None, None)
    case MarkError =>
      r.(status := Error, stage := None, startedAt := None)
  }

  /** `findUnique` by key. */
  function Find(rows: Rows, k: Key): (r: Option<Row>)
    ensures r.Some? <==> k in rows
    ensures r.Some? ==> r.value == rows[k]
  {
    if k in rows then Some(rows[k]) else None
  }

  /** `update` on an existing row. */
  function Patched(rows: Rows, k: Key, p: Patch): Rows
  {
    if k in rows then rows[k := Apply(rows[k], p)] else rows
  }

  /** The `where` of the lock: no stored summary and not already generating. */
  predicate LockGuard(r: Row)
  {
    r.summary.None? && r.status != Generating
  }

  /** The `data` of the lock, written over an existing row. */
  function Locked(r: Row, sha: string, now: int): Row
  {
    r.(status := Generating, stage := Some(FetchingDiff), startedAt := Some(now), headSha := Some(sha))
  }

  /** The row `create` inserts. */
  function NewRow(sha: string, now: int): Row
  {
    Row(Some(sha), None, None, Generating, Some(FetchingDiff), Some(now))
  }

  /**
   * `updateMany` with the lock's `where` and `data`: the new rows and the
   * affected count. The key is unique, so the count is 0 or 1.
   */
  function LockMany(rows: Rows, k: Key, sha: string, now: int): (res: (Rows, nat))
    ensures res.1 <= 1
    ensures res.1 == 1 <==> k in rows && LockGuard(rows[k])
    ensures res.1 == 0 ==> res.0 == rows
    ensures res.1 == 1 ==> res.0 == rows[k := Locked(rows[k], sha, now)]
  {
    if k in rows && LockGuard(rows[k]) then (rows[k := Locked(rows[k], sha, now)], 1) else (rows, 0)
  }

  /**
   * A lock that takes the row sets the status, the stage, the start time and
   * the head SHA, keeps the stored diff and the (absent) summary, and leaves
   * every other row alone.
   */
  lemma LockSetsOnlyProgress(rows: Rows, k: Key, sha: string, now: int)
    requires k in rows && LockGuard(rows[k])
    ensures LockMany(rows, k, sha, now).0.Keys == rows.Keys
    ensures var r := LockMany(rows, k, sha, now).0[k];
            r.status == Generating && r.stage == Some(FetchingDiff) && r.startedAt == Some(now)
            && r.headSha == Some(sha) && r.diff == rows[k].diff && r.summary.None?
    ensures forall j :: j in rows && j != k ==> LockMany(rows, k, sha, now).0[j] == rows[j]
  {
  }

  /**
   * The cache test of the handler: stored summary and diff both truthy (so an
   * empty string does not count) and stored head SHA equal to the current one.
   */
  predicate CacheHit(existing: Option<Row>, sha: string)
  {
    existing.Some? && Truthy(existing.value.summary) && Truthy(existing.value.diff)
    && existing.value.headSha == Some(sha)
  }

  /** A ready row has its diff and summary; a generating row has its stage and start time. */
  predicate WellFormed(r: Row)
  {
    (r.status == Ready ==> r.diff.Some? && r.summary.Some?)
    && (r.status == Generating ==> r.stage.Some? && r.startedAt.Some?)
  }

  /** The Prisma client for this table: each method is one atomic database call. */
  class PullRequestTable {
    var rows: Rows

    constructor (initial: Rows)
      ensures rows == initial
    {
      rows := initial;
    }

    /**
     * The table as a call finds it when it resumes after an `await`: what
     * other calls wrote meanwhile is merged in (rows are never deleted).
     */
    method Resume(writes: Rows)
      modifies this
      ensures rows == old(rows) + writes
    {
      rows := rows + writes;
    }

    /** `findUnique({ where: prKey })`. */
    method FindUnique(k: Key) returns (r: Option<Row>)
      ensures r == Find(rows, k)
    {
      if k in rows {
        r := Some(rows[k]);
      } else {
        r := None;
      }
    }

    /** `update({ where: prKey, data })` on a row that exists. */
    method Update(k: Key, p: Patch)
      requires k in rows
      modifies this
      ensures rows == old(rows)[k := Apply(old(rows)[k], p)]
    {
      rows := rows[k := Apply(rows[k], p)];
    }

    /** `updateMany` with the lock's guard; returns the affected count. */
    method UpdateMany(k: Key, sha: string, now: int) returns (count: nat)
      modifies this
      ensures (rows, count) == LockMany(old(rows), k, sha, now)
    {
      if k in rows && LockGuard(rows[k]) {
        rows := rows[k := Locked(rows[k], sha, now)];
        count := 1;
      } else {
        count := 0;
      }
    }

    /** `create`, which fails with a unique-constraint error when the key exists. */
    method Create(k: Key, r: Row) returns (created: bool)
      modifies this
      ensures created <==> k !in old(rows)
      ensures rows == if created then old(rows)[k := r] else old(rows)
    {
      created := k !in rows;
      if created {
        rows := rows[k := r];
      }
    }
  }
}
