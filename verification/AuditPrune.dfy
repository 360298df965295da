/** Audit retention: age and count caps applied in batches, with rows arriving in the pauses. */
module AuditPrune {

  datatype AuditRow = AuditRow(id: nat, ts: int)

  const BATCH_ROWS: nat := 500
  const PRUNE_LOG_ROWS: nat := 30

  function Min(m: nat, n: nat): nat {
    if m <= n then m else n
  }

  /** The last `n` entries, or all. */
  function Newest<T>(s: seq<T>, n: nat): (newest: seq<T>)
    ensures |newest| == Min(n, |s|)
  {
    s[|s| - Min(n, |s|)..]
  }

  // -- what pruning should leave -----------------------------------------------------

  function Fresh(rows: seq<AuditRow>, cutoff: int): seq<AuditRow> {
    if rows == [] then []
    else (if rows[0].ts < cutoff then [] else [rows[0]]) + Fresh(rows[1..], cutoff)
  }

  function OldCount(rows: seq<AuditRow>, cutoff: int): nat {
    if rows == [] then 0 else (if rows[0].ts < cutoff then 1 else 0) + OldCount(rows[1..], cutoff)
  }

  /** In one step: the newest `cap` of the rows not older than the cutoff. */
  function Kept(rows: seq<AuditRow>, cutoff: int, cap: nat): (kept: seq<AuditRow>)
    ensures |kept| <= cap
  {
    var young := Fresh(rows, cutoff);
    Newest(young, cap)
  }

  lemma {:induction false} FreshAppend(a: seq<AuditRow>, b: seq<AuditRow>, cutoff: int)
    ensures Fresh(a + b, cutoff) == Fresh(a, cutoff) + Fresh(b, cutoff)
    ensures OldCount(a + b, cutoff) == OldCount(a, cutoff) + OldCount(b, cutoff)
  {
    if a == [] {
      assert a + b == b;
    } else {
      assert (a + b)[1..] == a[1..] + b;
      FreshAppend(a[1..], b, cutoff);
    }
  }

  lemma {:induction false} FreshAndOld(rows: seq<AuditRow>, cutoff: int)
    ensures |rows| == |Fresh(rows, cutoff)| + OldCount(rows, cutoff)
    ensures OldCount(rows, cutoff) == 0 ==> Fresh(rows, cutoff) == rows
    ensures forall row | row in Fresh(rows, cutoff) :: row.ts >= cutoff
  {
    if rows != [] {
      FreshAndOld(rows[1..], cutoff);
    }
  }

  /** Row by row in order: a row is old exactly when its time is before the cutoff. */
  lemma FreshOneMore(rows: seq<AuditRow>, row: AuditRow, cutoff: int)
    ensures Fresh([], cutoff) == [] && OldCount([], cutoff) == 0
    ensures Fresh(rows + [row], cutoff) == Fresh(rows, cutoff) + if row.ts < cutoff then [] else [row]
    ensures OldCount(rows + [row], cutoff) == OldCount(rows, cutoff) + if row.ts < cutoff then 1 else 0
  {
    FreshAppend(rows, [row], cutoff);
  }

  lemma {:induction false} FreshMultiplicity(rows: seq<AuditRow>, cutoff: int, row: AuditRow)
    ensures multiset(Fresh(rows, cutoff))[row] == if row.ts >= cutoff then multiset(rows)[row] else 0
  {
    if rows != [] {
      var n := |rows| - 1;
      FreshMultiplicity(rows[..n], cutoff, row);
      FreshOneMore(rows[..n], rows[n], cutoff);
      assert rows == rows[..n] + [rows[n]];
    }
  }

  // -- one batch ---------------------------------------------------------------------

  /** `DELETE ... WHERE ts < cutoff ORDER BY id LIMIT n`. */
  function DropOld(rows: seq<AuditRow>, cutoff: int, n: nat): seq<AuditRow> {
    if rows == [] || n == 0 then rows
    else if rows[0].ts < cutoff then DropOld(rows[1..], cutoff, n - 1)
    else [rows[0]] + DropOld(rows[1..], cutoff, n)
  }

  lemma {:induction false} DropOldOnly(rows: seq<AuditRow>, cutoff: int, n: nat)
    ensures Fresh(DropOld(rows, cutoff, n), cutoff) == Fresh(rows, cutoff)
    ensures OldCount(DropOld(rows, cutoff, n), cutoff) == OldCount(rows, cutoff) - Min(OldCount(rows, cutoff), n)
  {
    if rows != [] && n > 0 {
      if rows[0].ts < cutoff {
        DropOldOnly(rows[1..], cutoff, n - 1);
      } else {
        DropOldOnly(rows[1..], cutoff, n);
        var dropped := DropOld(rows, cutoff, n);
        assert dropped[1..] == DropOld(rows[1..], cutoff, n);
      }
    }
  }

  /** The rows deleted are the first old ones: up to some place every old row is gone, and from
      there on every row is left. */
  lemma {:induction false} DropOldFirst(rows: seq<AuditRow>, cutoff: int, n: nat) returns (k: nat)
    ensures k <= |rows| && DropOld(rows, cutoff, n) == Fresh(rows[..k], cutoff) + rows[k..]
    ensures OldCount(rows[..k], cutoff) == Min(OldCount(rows, cutoff), n)
  {
    if rows == [] || n == 0 {
      k := 0;
      assert rows[..0] == [] && rows[0..] == rows;
    } else {
      k := DropOldFirst(rows[1..], cutoff, if rows[0].ts < cutoff then n - 1 else n);
      k := k + 1;
      assert rows[..k][1..] == rows[1..][..k - 1] && rows[1..][k - 1..] == rows[k..];
    }
  }

  // How many rows the second phase of a batch deletes.
  function Excess(count: nat, cap: nat, remaining: nat): nat {
    if count > cap then Min(count - cap, remaining) else 0
  }

  /** What one batch does to the table: old rows first; once none is left, the oldest rows above the cap. */
  ghost predicate BatchDone(rows: seq<AuditRow>, after: seq<AuditRow>, cutoff: int, cap: nat, batch: nat,
                            age: nat, capped: nat) {
    && age == Min(OldCount(rows, cutoff), batch)
    && capped == (if age == batch then 0 else Excess(|Fresh(rows, cutoff)|, cap, batch - age))
    && capped <= |Fresh(rows, cutoff)|
    && after == if age == batch then DropOld(rows, cutoff, batch) else Fresh(rows, cutoff)[capped..]
  }

  /** The table `audit_log` in id order; ids only grow, so a new row goes to the end. */
  class AuditRepo {
    var rows: seq<AuditRow>
    var pruneLog: seq<(nat, nat, nat)>

    constructor ()
      ensures rows == [] && pruneLog == []
    {
      rows, pruneLog := [], [];
    }

    method Insert(arriving: seq<AuditRow>)
      modifies `rows
      ensures rows == old(rows) + arriving
    {
      rows := rows + arriving;
    }

    /** Up to `batch` rows: first by age, then, once nothing old is left, by count, oldest first. */
    method PruneBatch(olderThan: int, cap: nat, batch: nat) returns (byAge: nat, byCap: nat)
      modifies `rows
      ensures BatchDone(old(rows), rows, olderThan, cap, batch, byAge, byCap)
    {
      DropOldOnly(rows, olderThan, batch);
      FreshAndOld(rows, olderThan);
      var before := |rows|;
      rows := DropOld(rows, olderThan, batch);
      FreshAndOld(rows, olderThan);
      byAge := before - |rows|;
      byCap := 0;
      var remaining := batch - byAge;
      if remaining > 0 && |rows| > cap {
        byCap := Min(|rows| - cap, remaining);
        rows := rows[byCap..];
      }
    }

    /** One more entry in the prune log, of which the newest thirty are kept. */
    method RecordPrune(byAge: nat, byCap: nat)
      modifies `pruneLog
      ensures var all := old(pruneLog) + [(byAge, byCap, |rows|)];
              pruneLog == if |all| > 30 then all[|all| - 30..] else all
    {
      pruneLog := pruneLog + [(byAge, byCap, |rows|)];
      if |pruneLog| > PRUNE_LOG_ROWS {
        pruneLog := pruneLog[|pruneLog| - PRUNE_LOG_ROWS..];
      }
    }
  }

  // -- a whole run -------------------------------------------------------------------

  function Flat(batches: seq<seq<AuditRow>>): seq<AuditRow> {
    if batches == [] then [] else Flat(batches[..|batches| - 1]) + batches[|batches| - 1]
  }

  // What every batch keeps: `all` is every row that was ever there.
  ghost predicate Pruning(all: seq<AuditRow>, rows: seq<AuditRow>, cutoff: int, cap: nat, byAge: nat, byCap: nat) {
    var young, left := Fresh(all, cutoff), Fresh(rows, cutoff);
    && OldCount(all, cutoff) == byAge + OldCount(rows, cutoff)
    && byCap <= |young| && left == young[byCap..]
    && (byCap > 0 ==> |left| >= cap)
  }

  lemma StartPruning(rows: seq<AuditRow>, arrivals: seq<seq<AuditRow>>, cutoff: int, cap: nat)
    ensures Pruning(AllRows(rows, arrivals, 0), rows, cutoff, cap, 0, 0)
  {
    assert AllRows(rows, arrivals, 0) == rows;
  }

  lemma ArrivalsKeepPruning(all: seq<AuditRow>, rows: seq<AuditRow>, more: seq<AuditRow>, cutoff: int, cap: nat,
                            byAge: nat, byCap: nat)
    requires Pruning(all, rows, cutoff, cap, byAge, byCap)
    ensures Pruning(all + more, rows + more, cutoff, cap, byAge, byCap)
  {
    FreshAppend(all, more, cutoff);
    FreshAppend(rows, more, cutoff);
  }

  lemma {:induction false} FreshIsFresh(rows: seq<AuditRow>, cutoff: int)
    requires forall row | row in rows :: row.ts >= cutoff
    ensures Fresh(rows, cutoff) == rows && OldCount(rows, cutoff) == 0
  {
    if rows != [] {
      FreshIsFresh(rows[1..], cutoff);
    }
  }

  // A batch that deletes by age only.
  lemma AgeBatch(all: seq<AuditRow>, rows: seq<AuditRow>, cutoff: int, cap: nat, byAge: nat, byCap: nat)
    requires Pruning(all, rows, cutoff, cap, byAge, byCap) && OldCount(rows, cutoff) >= BATCH_ROWS
    ensures var after := DropOld(rows, cutoff, BATCH_ROWS);
            && Pruning(all, after, cutoff, cap, byAge + BATCH_ROWS, byCap)
            && |after| + BATCH_ROWS == |rows|
  {
    FreshAndOld(rows, cutoff);
    DropOldOnly(rows, cutoff, BATCH_ROWS);
    FreshAndOld(DropOld(rows, cutoff, BATCH_ROWS), cutoff);
    hide DropOld, Fresh, OldCount;
  }

  lemma DropTwice(young: seq<AuditRow>, m: nat, n: nat)
    requires m + n <= |young|
    ensures young[m..][n..] == young[m + n..]
  {
  }

  // A batch that gets to the count: all the old rows are gone after it.
  lemma CapBatch(all: seq<AuditRow>, rows: seq<AuditRow>, cutoff: int, cap: nat, byAge: nat, byCap: nat, capped: nat)
    requires Pruning(all, rows, cutoff, cap, byAge, byCap)
    requires capped <= |Fresh(rows, cutoff)| && (capped > 0 ==> |Fresh(rows, cutoff)| - capped >= cap)
    ensures var age, after := OldCount(rows, cutoff), Fresh(rows, cutoff)[capped..];
            && Pruning(all, after, cutoff, cap, byAge + age, byCap + capped)
            && OldCount(after, cutoff) == 0 && Fresh(after, cutoff) == after
            && |after| + age + capped == |rows|
  {
    FreshAndOld(rows, cutoff);
    var young, left := Fresh(all, cutoff), Fresh(rows, cutoff);
    FreshIsFresh(left[capped..], cutoff);
    DropTwice(young, byCap, capped);
    hide Fresh, OldCount;
  }

  // Once nothing old is left and the cap is met, this is what one step would have kept.
  lemma PrunedIsKept(all: seq<AuditRow>, rows: seq<AuditRow>, cutoff: int, cap: nat, byAge: nat, byCap: nat)
    requires Pruning(all, rows, cutoff, cap, byAge, byCap)
    requires OldCount(rows, cutoff) == 0 && Fresh(rows, cutoff) == rows && |rows| <= cap
    ensures rows == Kept(all, cutoff, cap)
    ensures byAge == OldCount(all, cutoff) && byCap == |Fresh(all, cutoff)| - |rows|
  {
  }

  lemma BatchKeepsPruning(all: seq<AuditRow>, rows: seq<AuditRow>, after: seq<AuditRow>, cutoff: int, cap: nat,
                          byAge: nat, byCap: nat, age: nat, capped: nat)
    requires Pruning(all, rows, cutoff, cap, byAge, byCap)
    requires BatchDone(rows, after, cutoff, cap, BATCH_ROWS, age, capped)
    ensures Pruning(all, after, cutoff, cap, byAge + age, byCap + capped)
    ensures |after| + age + capped == |rows|
    ensures age + capped < BATCH_ROWS ==> Done(all, after, cutoff, cap, byAge + age, byCap + capped)
  {
    FreshAndOld(all, cutoff);
    hide Pruning, Kept, Fresh, OldCount, DropOld;
    if age == BATCH_ROWS {
      AgeBatch(all, rows, cutoff, cap, byAge, byCap);
    } else {
      CapBatch(all, rows, cutoff, cap, byAge, byCap, capped);
      if age + capped < BATCH_ROWS {
        PrunedIsKept(all, after, cutoff, cap, byAge + age, byCap + capped);
      }
    }
  }

  /** Every row there ever was: those there at the start, and those that arrived in the pauses so far. */
  function AllRows(start: seq<AuditRow>, arrivals: seq<seq<AuditRow>>, pauses: nat): seq<AuditRow> {
    start + Flat(arrivals[..Min(pauses, |arrivals|)])
  }

  /** How a run over `all` the rows there ever were should end: the rows one step would keep, and two
      counts that say exactly how many went for which reason. */
  ghost predicate Done(all: seq<AuditRow>, rows: seq<AuditRow>, cutoff: int, cap: nat, byAge: nat, byCap: nat) {
    && rows == Kept(all, cutoff, cap)
    && byAge == OldCount(all, cutoff)
    && byCap == |Fresh(all, cutoff)| - |rows|
    && |rows| + byAge + byCap == |all|
  }

  // What arrives in a pause.
  function Arriving(arrivals: seq<seq<AuditRow>>, pauses: nat): seq<AuditRow> {
    if pauses < |arrivals| then arrivals[pauses] else []
  }

  lemma PauseKeepsPruning(start: seq<AuditRow>, arrivals: seq<seq<AuditRow>>, pauses: nat, rows: seq<AuditRow>,
                          cutoff: int, cap: nat, byAge: nat, byCap: nat)
    requires Pruning(AllRows(start, arrivals, pauses), rows, cutoff, cap, byAge, byCap)
    ensures Pruning(AllRows(start, arrivals, pauses + 1), rows + Arriving(arrivals, pauses), cutoff, cap, byAge, byCap)
    ensures pauses >= |arrivals| ==> |rows + Arriving(arrivals, pauses)| == |rows|
  {
    hide Pruning, Flat;
    if pauses < |arrivals| {
      ArrivalsKeepPruning(AllRows(start, arrivals, pauses), rows, arrivals[pauses], cutoff, cap, byAge, byCap);
      FlatOneMore(arrivals, pauses);
      assert start + (Flat(arrivals[..pauses]) + arrivals[pauses])
          == start + Flat(arrivals[..pauses]) + arrivals[pauses];
    } else {
      assert rows + [] == rows;
    }
  }

  lemma FlatOneMore(arrivals: seq<seq<AuditRow>>, pauses: nat)
    requires pauses < |arrivals|
    ensures Flat(arrivals[..pauses + 1]) == Flat(arrivals[..pauses]) + arrivals[pauses]
  {
    assert arrivals[..pauses + 1][..pauses] == arrivals[..pauses];
  }

  class AuditPruner {
    const repo: AuditRepo

    constructor (repo: AuditRepo)
      ensures this.repo == repo
    {
      this.repo := repo;
    }

    // The batches and the pauses between them.
    method Batches(cutoff: int, cap: nat, arrivals: seq<seq<AuditRow>>) returns (byAge: nat, byCap: nat, pauses: nat)
      modifies repo`rows
      ensures Done(AllRows(old(repo.rows), arrivals, pauses), repo.rows, cutoff, cap, byAge, byCap)
    {
      hide Pruning, BatchDone, AllRows, Done, Arriving, Fresh, OldCount, Flat;
      byAge, byCap, pauses := 0, 0, 0;
      ghost var start := repo.rows;
      StartPruning(start, arrivals, cutoff, cap);
      while true
        invariant Pruning(AllRows(start, arrivals, pauses), repo.rows, cutoff, cap, byAge, byCap)
        decreases if pauses < |arrivals| then |arrivals| - pauses else 0, |repo.rows|
      {
        ghost var rows := repo.rows;
        var age, capped := repo.PruneBatch(cutoff, cap, BATCH_ROWS);
        BatchKeepsPruning(AllRows(start, arrivals, pauses), rows, repo.rows, cutoff, cap, byAge, byCap, age, capped);
        byAge, byCap := byAge + age, byCap + capped;
        if age + capped < BATCH_ROWS {
          break;
        }
        PauseKeepsPruning(start, arrivals, pauses, repo.rows, cutoff, cap, byAge, byCap);
        repo.Insert(Arriving(arrivals, pauses));
        pauses := pauses + 1;
      }
    }

    /** `arrivals[i]` is what others insert in the i-th pause. Whatever arrives, the run ends with
        the newest `cap` of the rows not older than the cutoff, out of all there ever were, and
        its two counts say exactly how many went for which reason. */
    method RunOnce(cutoff: int, cap: nat, arrivals: seq<seq<AuditRow>>) returns (byAge: nat, byCap: nat, pauses: nat)
      modifies repo
      ensures Done(AllRows(old(repo.rows), arrivals, pauses), repo.rows, cutoff, cap, byAge, byCap)
      ensures repo.pruneLog
           == if byAge + byCap == 0 then old(repo.pruneLog)
              else Newest(old(repo.pruneLog) + [(byAge, byCap, |repo.rows|)], 30)
    {
      byAge, byCap, pauses := Batches(cutoff, cap, arrivals);
      hide Done, AllRows;
      if byAge > 0 || byCap > 0 {
        repo.RecordPrune(byAge, byCap);
      }
    }
  }

  /** What the one-step form means: at most `cap` rows stay, they are the last of the young rows, all
      of which are there as often as before, and a young row goes only when `cap` newer ones stay. */
  lemma KeptMeans(rows: seq<AuditRow>, cutoff: int, cap: nat)
    ensures var young, kept := Fresh(rows, cutoff), Kept(rows, cutoff, cap);
            && |kept| <= cap && (forall row | row in kept :: row.ts >= cutoff)
            && (forall row :: multiset(young)[row] == if row.ts >= cutoff then multiset(rows)[row] else 0)
            && kept == young[|young| - |kept|..]
            && (|kept| < |young| ==> |kept| == cap)
  {
    FreshAndOld(rows, cutoff);
    forall row: AuditRow
      ensures multiset(Fresh(rows, cutoff))[row] == if row.ts >= cutoff then multiset(rows)[row] else 0
    {
      FreshMultiplicity(rows, cutoff, row);
    }
    hide Fresh;
  }

  /** Pruning again without arrivals changes nothing. */
  lemma PrunedStaysPruned(rows: seq<AuditRow>, cutoff: int, cap: nat)
    ensures Kept(Kept(rows, cutoff, cap), cutoff, cap) == Kept(rows, cutoff, cap)
  {
    KeptMeans(rows, cutoff, cap);
    FreshIsFresh(Kept(rows, cutoff, cap), cutoff);
  }
}
