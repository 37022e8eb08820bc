/** What the coordinator guarantees over whole runs of requests and reports. */
module CoordinatorRuns {
  import opened Coordinator

  datatype Act = Ask(now: int, later: int, reply: Reply) | Rep(id: nat)

  /** acts[k] leads from books[k] to books[k + 1]. */
  datatype Run = Run(nMap: nat, nReduce: nat, acts: seq<Act>, books: seq<Book>)

  ghost predicate StepOk(b: Book, a: Act, b': Book) {
    match a
    case Ask(now, later, r) => Asked(b, now, later, b', r)
    case Rep(id) => b' == Report(b, id)
  }

  ghost predicate IsRun(run: Run) {
    && |run.books| == |run.acts| + 1
    && (exists files :: |files| == run.nMap && run.books[0] == Fresh(files, run.nReduce))
    && forall k :: 0 <= k < |run.acts| ==> StepOk(run.books[k], run.acts[k], run.books[k + 1])
  }

  /** The clock does not run backwards. */
  predicate Monotone(acts: seq<Act>) {
    && (forall k :: 0 <= k < |acts| && acts[k].Ask? ==> acts[k].now <= acts[k].later)
    && (forall j, k :: 0 <= j < k < |acts| && acts[j].Ask? && acts[k].Ask? ==> acts[j].later <= acts[k].now)
  }

  /** Request k was answered with task i. */
  predicate Hands(run: Run, k: nat, i: nat) {
    k < |run.acts| && run.acts[k].Ask? && run.acts[k].reply.Work? && run.acts[k].reply.task.id == i
  }

  /** Task i sits at position i; map tasks come first. */
  predicate Shape(b: Book, nMap: nat, nReduce: nat) {
    && |b.tasks| == nMap + nReduce && |b.files| == nMap
    && forall i :: 0 <= i < |b.tasks| ==> b.tasks[i].id == i && (b.tasks[i].kind == MapTask <==> i < nMap)
  }

  lemma StepKeepsShape(b: Book, a: Act, b': Book, nMap: nat, nReduce: nat)
    requires Shape(b, nMap, nReduce) && StepOk(b, a, b')
    ensures Shape(b', nMap, nReduce)
  {
  }

  lemma {:induction false} RunShape(run: Run, k: nat)
    requires IsRun(run) && k <= |run.acts|
    ensures Shape(run.books[k], run.nMap, run.nReduce)
  {
    if k > 0 {
      RunShape(run, k - 1);
      StepKeepsShape(run.books[k - 1], run.acts[k - 1], run.books[k], run.nMap, run.nReduce);
    }
  }

  /** The books between the timeouts of request k and its answer. */
  function Swept(run: Run, k: nat): Book
    requires k < |run.acts| && k < |run.books| && run.acts[k].Ask?
  {
    run.books[k].(tasks := ResetAll(run.books[k].tasks, run.acts[k].now))
  }

  lemma HandFacts(run: Run, k: nat, i: nat)
    requires IsRun(run) && Hands(run, k, i)
    ensures i < |run.books[k].tasks| && Grants(Swept(run, k), i)
    ensures run.books[k + 1] == HandOut(Swept(run, k), i, run.acts[k].later)
    ensures i >= run.nMap ==> run.acts[k].reply.bucket == run.books[k].reduceCount
    ensures run.acts[k].reply.task == run.books[k + 1].tasks[i]
    ensures if i < run.nMap then run.acts[k].reply.bucket == 0 && run.acts[k].reply.mapNum == 0
            else run.acts[k].reply.mapNum == |run.books[k].files|
  {
    RunShape(run, k);
    assert StepOk(run.books[k], run.acts[k], run.books[k + 1]);
    var c := Swept(run, k);
    var j: nat :| Grants(c, j) && run.books[k + 1] == HandOut(c, j, run.acts[k].later) &&
                  run.acts[k].reply.task == run.books[k + 1].tasks[j] &&
                  (if run.acts[k].reply.task.kind == MapTask then run.acts[k].reply.bucket == 0 &&
                      run.acts[k].reply.mapNum == 0
                   else run.acts[k].reply.bucket == c.reduceCount && run.acts[k].reply.mapNum == |c.files|);
    assert c.tasks[j].id == j;
  }

  /** No reduce task is handed out before every map task is completed. */
  lemma MapsBeforeReduces(run: Run, k: nat, i: nat)
    requires IsRun(run) && Hands(run, k, i) && i >= run.nMap
    ensures AllCompleted(run.books[k].tasks, MapTask)
  {
    RunShape(run, k);
    HandFacts(run, k, i);
    var ts, now := run.books[k].tasks, run.acts[k].now;
    forall j | 0 <= j < |ts| && ts[j].kind == MapTask ensures ts[j].status == Completed {
      assert Swept(run, k).tasks[j] == Reset(ts[j], now);
    }
  }

  /** Finished is answered only when all tasks are completed. */
  lemma FinishedMeansDone(run: Run, k: nat)
    requires IsRun(run) && k < |run.acts| && run.acts[k].Ask? && run.acts[k].reply.Finished?
    ensures forall i :: 0 <= i < |run.books[k].tasks| ==> run.books[k].tasks[i].status == Completed
  {
    assert StepOk(run.books[k], run.acts[k], run.books[k + 1]);
    var ts, now := run.books[k].tasks, run.acts[k].now;
    forall i | 0 <= i < |ts| ensures ts[i].status == Completed {
      assert ResetAll(ts, now)[i] == Reset(ts[i], now);
      assert ts[i].kind == MapTask || ts[i].kind == ReduceTask;
    }
  }

  /** What one step does to task i. */
  lemma TaskStep(run: Run, k: nat, i: nat)
    requires IsRun(run) && k < |run.acts| && i < run.nMap + run.nReduce
    ensures i < |run.books[k].tasks| && i < |run.books[k + 1].tasks|
    ensures var t, t' := run.books[k].tasks[i], run.books[k + 1].tasks[i];
            match run.acts[k]
            case Rep(id) => t' == if id == i then t.(status := Completed) else t
            case Ask(now, later, _) =>
              if Hands(run, k, i) then Reset(t, now).status == Idle && t' == t.(status := InProgress, start := later)
              else t' == Reset(t, now)
  {
    RunShape(run, k);
    RunShape(run, k + 1);
    assert StepOk(run.books[k], run.acts[k], run.books[k + 1]);
    if run.acts[k].Ask? && run.acts[k].reply.Work? {
      HandFacts(run, k, run.acts[k].reply.task.id);
    }
  }

  /** A completed task stays completed and is never handed out again. */
  lemma {:induction false} CompletedForever(run: Run, j: nat, k: nat, i: nat)
    requires IsRun(run) && j <= k <= |run.acts| && i < run.nMap + run.nReduce
    requires i < |run.books[j].tasks| && run.books[j].tasks[i].status == Completed
    ensures i < |run.books[k].tasks| && run.books[k].tasks[i].status == Completed
    ensures !Hands(run, k, i)
    decreases k - j
  {
    RunShape(run, k);
    if j < k {
      CompletedForever(run, j, k - 1, i);
      CompletedStays(run, k - 1, i);
    }
    if k < |run.acts| {
      CompletedStays(run, k, i);
    }
  }

  lemma CompletedStays(run: Run, k: nat, i: nat)
    requires IsRun(run) && k < |run.acts| && i < run.nMap + run.nReduce
    requires i < |run.books[k].tasks| && run.books[k].tasks[i].status == Completed
    ensures i < |run.books[k + 1].tasks| && run.books[k + 1].tasks[i].status == Completed && !Hands(run, k, i)
  {
    TaskStep(run, k, i);
  }

  /** Between acts j and k some request saw the clock more than ten seconds past request j. */
  ghost predicate ClockPast(run: Run, j: nat, k: nat)
    requires j < |run.acts| && run.acts[j].Ask? && k <= |run.acts|
  {
    exists m: nat :: j < m < k && run.acts[m].Ask? && run.acts[m].now - run.acts[j].later > TIMEOUT
  }

  /** Since it was handed out by request j, task i is still running, completed, or overdue on the clock. */
  lemma {:induction false} SinceHandOut(run: Run, j: nat, k: nat, i: nat)
    requires IsRun(run) && Hands(run, j, i) && i < run.nMap + run.nReduce
    requires j < k <= |run.acts| && forall m :: j < m < k ==> !Hands(run, m, i)
    ensures i < |run.books[k].tasks| && run.books[k].tasks[i].start == run.acts[j].later
    ensures run.books[k].tasks[i].status == Idle ==> ClockPast(run, j, k)
    decreases k - j
  {
    var n := k - 1;
    if j < n {
      SinceHandOut(run, j, n, i);
      StillSince(run, j, n, i);
    } else {
      TaskStep(run, n, i);
    }
  }

  /** One more act that does not hand task i out. */
  lemma StillSince(run: Run, j: nat, n: nat, i: nat)
    requires IsRun(run) && j < n < |run.acts| && run.acts[j].Ask? && i < run.nMap + run.nReduce && !Hands(run, n, i)
    requires i < |run.books[n].tasks| && run.books[n].tasks[i].start == run.acts[j].later
    requires run.books[n].tasks[i].status == Idle ==> ClockPast(run, j, n)
    ensures i < |run.books[n + 1].tasks| && run.books[n + 1].tasks[i].start == run.acts[j].later
    ensures run.books[n + 1].tasks[i].status == Idle ==> ClockPast(run, j, n + 1)
  {
    TaskStep(run, n, i);
    var t := run.books[n].tasks[i];
    if t.status == Idle {
      var m: nat :| j < m < n && run.acts[m].Ask? && run.acts[m].now - run.acts[j].later > TIMEOUT;
      assert m < n + 1;
    } else if run.acts[n].Ask? && Overdue(t, run.acts[n].now) {
      assert j < n < n + 1;
    }
  }

  lemma PastByNow(run: Run, j: nat, k: nat)
    requires Monotone(run.acts) && j < k < |run.acts| && run.acts[j].Ask? && run.acts[k].Ask?
    requires ClockPast(run, j, k)
    ensures run.acts[k].later - run.acts[j].later > TIMEOUT
  {
    var m: nat :| j < m < k && run.acts[m].Ask? && run.acts[m].now - run.acts[j].later > TIMEOUT;
    assert run.acts[m].now <= run.acts[m].later <= run.acts[k].now <= run.acts[k].later;
  }

  /** Two consecutive hand-outs of one task are more than ten seconds apart. */
  lemma NextHandOutIsLate(run: Run, j: nat, k: nat, i: nat)
    requires IsRun(run) && Monotone(run.acts) && Hands(run, j, i) && Hands(run, k, i) && j < k
    requires forall m :: j < m < k ==> !Hands(run, m, i)
    ensures run.acts[k].later - run.acts[j].later > TIMEOUT
  {
    RunShape(run, k);
    HandFacts(run, k, i);
    SinceHandOut(run, j, k, i);
    TaskStep(run, k, i);
    if ClockPast(run, j, k) {
      PastByNow(run, j, k);
    }
  }

  lemma {:induction false} LastHandOut(run: Run, j: nat, k: nat, i: nat) returns (m: nat)
    requires Hands(run, j, i) && j < k
    ensures j <= m < k && Hands(run, m, i) && forall n :: m < n < k ==> !Hands(run, n, i)
    decreases k - j
  {
    if n: nat :| j < n < k && Hands(run, n, i) {
      m := LastHandOut(run, n, k, i);
    } else {
      m := j;
    }
  }

  /** Over every run, any two hand-outs of one task are more than ten seconds apart on a monotone clock. */
  lemma HandOutsAreSpaced(run: Run, j: nat, k: nat, i: nat)
    requires IsRun(run) && Monotone(run.acts) && Hands(run, j, i) && Hands(run, k, i) && j < k
    ensures run.acts[k].later - run.acts[j].later > 10_000_000_000
  {
    var m := LastHandOut(run, j, k, i);
    NextHandOutIsLate(run, m, k, i);
    if j < m {
      assert run.acts[j].later <= run.acts[m].now <= run.acts[m].later;
    }
  }
}
