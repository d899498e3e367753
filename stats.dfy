/** The crawl statistics of stats/stats.go: four operation counters and the
    set-once start time and duration. Atomic updates become plain field
    updates, and the clock becomes a `now` argument in which 0 stands for
    Go's zero `time.Time`. */
module Stats {

  /** The four counters, as one value. */
  datatype Counters = Counters(total: int, pending: int, completed: int, failures: int)
  {
    /** Every operation counted in `total` is pending, completed or failed. */
    predicate Balanced()
    {
      pending == total - completed - failures
    }
  }

  /** The three counter updates. */
  datatype Operation = NewOperation | OperationFailure | OperationCompletion

  /** The effect of one operation: pending moves by one, and exactly one of
      total, completed and failures grows by one. */
  function Apply(c: Counters, op: Operation): (r: Counters)
    ensures r.pending == c.pending + (if op == NewOperation then 1 else -1)
    ensures r.total == c.total + (if op == NewOperation then 1 else 0)
    ensures r.completed == c.completed + (if op == OperationCompletion then 1 else 0)
    ensures r.failures == c.failures + (if op == OperationFailure then 1 else 0)
    ensures r.Balanced() <==> c.Balanced()
  {
    match op
    case NewOperation => c.(pending := c.pending + 1, total := c.total + 1)
    case OperationFailure => c.(pending := c.pending - 1, failures := c.failures + 1)
    case OperationCompletion => c.(pending := c.pending - 1, completed := c.completed + 1)
  }

  /** The counters after recording `ops` one at a time, starting from `c`. */
  function Replay(c: Counters, ops: seq<Operation>): Counters
  {
    if ops == [] then c else Apply(Replay(c, ops[..|ops| - 1]), ops[|ops| - 1])
  }

  /** However the recordings are ordered, no update is lost: each counter
      moves by exactly the number of operations that touch it. */
  lemma {:induction false} ReplayCounts(c: Counters, ops: seq<Operation>)
    ensures Replay(c, ops).total == c.total + multiset(ops)[NewOperation]
    ensures Replay(c, ops).completed == c.completed + multiset(ops)[OperationCompletion]
    ensures Replay(c, ops).failures == c.failures + multiset(ops)[OperationFailure]
    ensures Replay(c, ops).pending == c.pending + multiset(ops)[NewOperation]
              - multiset(ops)[OperationCompletion] - multiset(ops)[OperationFailure]
  {
    if ops != [] {
      var init := ops[..|ops| - 1];
      ReplayCounts(c, init);
      assert ops == init + [ops[|ops| - 1]];
      assert multiset(ops) == multiset(init) + multiset{ops[|ops| - 1]};
    }
  }

  /** Starting balanced, every sequence of recordings stays balanced. */
  lemma {:induction false} ReplayBalanced(c: Counters, ops: seq<Operation>)
    requires c.Balanced()
    ensures Replay(c, ops).Balanced()
  {
    if ops != [] {
      ReplayBalanced(c, ops[..|ops| - 1]);
    }
  }

  /** The sequence of `n` copies of `op`. */
  function Repeat(op: Operation, n: nat): (ops: seq<Operation>)
    ensures |ops| == n && forall i :: 0 <= i < n ==> ops[i] == op
  {
    seq(n, _ => op)
  }

  lemma {:induction false} RepeatCount(op: Operation, n: nat)
    ensures multiset(Repeat(op, n))[op] == n
    ensures forall other :: other != op ==> multiset(Repeat(op, n))[other] == 0
  {
    var ops := Repeat(op, n);
    if n > 0 {
      RepeatCount(op, n - 1);
      assert ops == Repeat(op, n - 1) + [op];
    } else {
      assert ops == [];
    }
  }

  /** n new operations on fresh counters give total = pending = n. */
  lemma NewOperationsOnFreshCounters(n: nat)
    ensures Replay(Counters(0, 0, 0, 0), Repeat(NewOperation, n)) == Counters(n, n, 0, 0)
  {
    var ops := Repeat(NewOperation, n);
    RepeatCount(NewOperation, n);
    ReplayCounts(Counters(0, 0, 0, 0), ops);
  }

  /** From pending = n, n failures leave failures = n and pending = 0. */
  lemma FailuresDrainPending(n: nat)
    ensures Replay(Counters(0, n, 0, 0), Repeat(OperationFailure, n)) == Counters(0, 0, 0, n)
  {
    var ops := Repeat(OperationFailure, n);
    RepeatCount(OperationFailure, n);
    ReplayCounts(Counters(0, n, 0, 0), ops);
  }

  /** From pending = n, n completions leave completed = n and pending = 0. */
  lemma CompletionsDrainPending(n: nat)
    ensures Replay(Counters(0, n, 0, 0), Repeat(OperationCompletion, n)) == Counters(0, 0, n, 0)
  {
    var ops := Repeat(OperationCompletion, n);
    RepeatCount(OperationCompletion, n);
    ReplayCounts(Counters(0, n, 0, 0), ops);
  }

  class Stats {
    var total: int
    var pending: int
    var completed: int
    var failures: int
    /** When the crawl began; 0 means not yet recorded. */
    var startTime: int
    /** How long the crawl took; 0 means not yet recorded. */
    var duration: int

    function Counts(): Counters
      reads this
    {
      Counters(total, pending, completed, failures)
    }

    /** `NewStats`: all counters zero, no start time, no duration. */
    constructor ()
      ensures total == 0 && pending == 0 && completed == 0 && failures == 0
      ensures startTime == 0 && duration == 0
    {
      total, pending, completed, failures := 0, 0, 0, 0;
      startTime, duration := 0, 0;
    }

    /** `RecordNewOperation`: one more operation, now pending. */
    method RecordNewOperation()
      modifies this
      ensures Counts() == Apply(old(Counts()), NewOperation)
      ensures total == old(total) + 1 && pending == old(pending) + 1
      ensures completed == old(completed) && failures == old(failures)
      ensures startTime == old(startTime) && duration == old(duration)
    {
      pending := pending + 1;
      total := total + 1;
    }

    /** `RecordOperationFailure`: one pending operation has failed. */
    method RecordOperationFailure()
      modifies this
      ensures Counts() == Apply(old(Counts()), OperationFailure)
      ensures pending == old(pending) - 1 && failures == old(failures) + 1
      ensures total == old(total) && completed == old(completed)
      ensures startTime == old(startTime) && duration == old(duration)
    {
      pending := pending - 1;
      failures := failures + 1;
    }

    /** `RecordOperationCompletion`: one pending operation has completed. */
    method RecordOperationCompletion()
      modifies this
      ensures Counts() == Apply(old(Counts()), OperationCompletion)
      ensures pending == old(pending) - 1 && completed == old(completed) + 1
      ensures total == old(total) && failures == old(failures)
      ensures startTime == old(startTime) && duration == old(duration)
    {
      pending := pending - 1;
      completed := completed + 1;
    }

    /** `RecordStartTime`: the first recorded start time wins. */
    method RecordStartTime(now: int)
      modifies this
      ensures old(startTime) == 0 ==> startTime == now
      ensures old(startTime) != 0 ==> startTime == old(startTime)
      ensures total == old(total) && pending == old(pending)
      ensures completed == old(completed) && failures == old(failures)
      ensures duration == old(duration)
    {
      if startTime == 0 {
        startTime := now;
        return;
      }
    }

    /** `RecordTotalDuration`: nothing before a start time exists; after
        that, the first non-zero duration wins. */
    method RecordTotalDuration(now: int)
      modifies this
      ensures old(startTime) == 0 ==> duration == old(duration)
      ensures old(startTime) != 0 && old(duration) == 0 ==> duration == now - startTime
      ensures old(duration) != 0 ==> duration == old(duration)
      ensures total == old(total) && pending == old(pending)
      ensures completed == old(completed) && failures == old(failures)
      ensures startTime == old(startTime)
    {
      if startTime == 0 {
        return;
      }
      if duration == 0 {
        duration := now - startTime;
      }
    }

    /** The getters read one field each. */
    function Total(): int
      reads this
    {
      total
    }

    function Pending(): int
      reads this
    {
      pending
    }

    function Failures(): int
      reads this
    {
      failures
    }

    function Completed(): int
      reads this
    {
      completed
    }

    function Duration(): int
      reads this
    {
      duration
    }
  }

  /** What the getters report together: the counters they return are the
      object's counters, and a balanced object shows the balance through
      them, so with nothing pending every operation was completed or failed. */
  lemma GettersObserveBalance(s: Stats)
    requires s.Counts().Balanced()
    ensures s.Counts() == Counters(s.Total(), s.Pending(), s.Completed(), s.Failures())
    ensures s.Pending() == s.Total() - s.Completed() - s.Failures()
    ensures s.Pending() == 0 ==> s.Total() == s.Completed() + s.Failures()
  {
  }
}
