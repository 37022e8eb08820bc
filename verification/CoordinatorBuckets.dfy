/** Which bucket each reduce hand-out carries, and exactly when it is its own. */
module CoordinatorBuckets {
  import opened Coordinator
  import opened CoordinatorRuns

  ghost predicate HandedBefore(run: Run, i: nat, n: nat) {
    exists k: nat :: k < n && Hands(run, k, i)
  }

  /** Workers report only tasks they were given. */
  ghost predicate HonestReports(run: Run) {
    forall k: nat :: k < |run.acts| && run.acts[k].Rep? ==> HandedBefore(run, run.acts[k].id, k)
  }

  /** Some reduce task was handed out twice among the first n requests. */
  ghost predicate Repeated(run: Run, n: nat) {
    exists j: nat, k: nat, i: nat :: j < k < n && i >= run.nMap && Hands(run, j, i) && Hands(run, k, i)
  }

  /** Reduce task i is among the first p exactly if it was handed out, and idle if not. */
  ghost predicate TaskCounted(run: Run, n: nat, p: nat, i: nat)
    requires n < |run.books| && i < |run.books[n].tasks|
  {
    && (HandedBefore(run, i, n) <==> i < run.nMap + p)
    && (i >= run.nMap + p ==> run.books[n].tasks[i].status == Idle)
  }

  /** After n acts exactly the first p reduce tasks have been handed out; reduceCount is ahead of p after a repeat. */
  ghost predicate Counted(run: Run, n: nat, p: nat) {
    && n < |run.books| && p <= run.nReduce
    && |run.books[n].tasks| == run.nMap + run.nReduce
    && (forall i: nat :: run.nMap <= i < run.nMap + run.nReduce ==> TaskCounted(run, n, p, i))
    && run.books[n].reduceCount >= p
    && (run.books[n].reduceCount == p <==> !Repeated(run, n))
  }

  lemma HandedNext(run: Run, i: nat, n: nat)
    ensures HandedBefore(run, i, n + 1) <==> HandedBefore(run, i, n) || Hands(run, n, i)
  {
  }

  /** Handing a task out again is the only way to a repeat. */
  lemma RepeatedNext(run: Run, n: nat)
    ensures Repeated(run, n + 1) <==>
            Repeated(run, n) || exists i: nat :: i >= run.nMap && Hands(run, n, i) && HandedBefore(run, i, n)
  {
    if Repeated(run, n) {
      var j: nat, k: nat, i: nat :| j < k < n && i >= run.nMap && Hands(run, j, i) && Hands(run, k, i);
      assert k < n + 1;
    }
    if i: nat :| i >= run.nMap && Hands(run, n, i) && HandedBefore(run, i, n) {
      var j: nat :| j < n && Hands(run, j, i);
      assert j < n < n + 1;
    }
    if Repeated(run, n + 1) && !Repeated(run, n) {
      var j: nat, k: nat, i: nat :| j < k < n + 1 && i >= run.nMap && Hands(run, j, i) && Hands(run, k, i);
      assert k == n && HandedBefore(run, i, n);
    }
  }

  /** A step that gives out no reduce task keeps the count. */
  lemma QuietStep(run: Run, n: nat, p: nat)
    requires IsRun(run) && HonestReports(run) && n < |run.acts| && Counted(run, n, p)
    requires forall i: nat :: i >= run.nMap ==> !Hands(run, n, i)
    ensures Counted(run, n + 1, p)
  {
    var m := n + 1;
    RunShape(run, m);
    RepeatedNext(run, n);
    forall i: nat | run.nMap <= i < run.nMap + run.nReduce
      ensures TaskCounted(run, m, p, i)
    {
      assert TaskCounted(run, n, p, i);
      HandedNext(run, i, n);
      TaskStep(run, n, i);
      if run.acts[n].Rep? {
        assert HandedBefore(run, run.acts[n].id, n);
        if run.acts[n].id >= run.nMap && run.acts[n].id < run.nMap + run.nReduce {
          assert TaskCounted(run, n, p, run.acts[n].id);
        }
      }
    }
    QuietCount(run, n);
  }

  lemma QuietCount(run: Run, n: nat)
    requires IsRun(run) && n < |run.acts| && forall i: nat :: i >= run.nMap ==> !Hands(run, n, i)
    ensures run.books[n + 1].reduceCount == run.books[n].reduceCount
  {
    RunShape(run, n);
    assert StepOk(run.books[n], run.acts[n], run.books[n + 1]);
    if run.acts[n].Ask? && run.acts[n].reply.Work? {
      HandFacts(run, n, run.acts[n].reply.task.id);
      assert Hands(run, n, run.acts[n].reply.task.id);
    }
  }

  /** The reduce task given out is one given before, or the next one in order. */
  lemma NextInOrder(run: Run, n: nat, p: nat, i: nat)
    requires IsRun(run) && Counted(run, n, p) && Hands(run, n, i) && i >= run.nMap
    ensures i <= run.nMap + p && i < run.nMap + run.nReduce
    ensures run.books[n + 1].reduceCount == run.books[n].reduceCount + 1
    ensures run.acts[n].reply.bucket == run.books[n].reduceCount
  {
    RunShape(run, n);
    HandFacts(run, n, i);
    var c := Swept(run, n);
    var q := run.nMap + p;
    if q < |c.tasks| {
      assert TaskCounted(run, n, p, q);
      assert c.tasks[q] == Reset(run.books[n].tasks[q], run.acts[n].now);
      assert IsIdle(c.tasks, ReduceTask, q);
    }
  }

  lemma HandStep(run: Run, n: nat, p: nat, i: nat)
    requires IsRun(run) && n < |run.acts| && Counted(run, n, p) && Hands(run, n, i) && i >= run.nMap
    ensures Counted(run, n + 1, if i == run.nMap + p then p + 1 else p)
  {
    var m := n + 1;
    var p' := if i == run.nMap + p then p + 1 else p;
    NextInOrder(run, n, p, i);
    RunShape(run, n + 1);
    RepeatedNext(run, n);
    assert TaskCounted(run, n, p, i);
    forall j: nat | run.nMap <= j < run.nMap + run.nReduce
      ensures TaskCounted(run, m, p', j)
    {
      assert TaskCounted(run, n, p, j);
      HandedNext(run, j, n);
      TaskStep(run, n, j);
      assert Hands(run, n, j) <==> j == i;
    }
  }

  lemma {:induction false} CountReduces(run: Run, n: nat) returns (p: nat)
    requires IsRun(run) && HonestReports(run) && n <= |run.acts|
    ensures Counted(run, n, p)
  {
    if n == 0 {
      p := 0;
      RunShape(run, 0);
      forall i: nat | run.nMap <= i < run.nMap + run.nReduce ensures TaskCounted(run, 0, 0, i) {
        assert !HandedBefore(run, i, 0);
      }
      assert !Repeated(run, 0);
    } else {
      var m := n - 1;
      p := CountReduces(run, m);
      if i: nat :| i >= run.nMap && Hands(run, m, i) {
        HandStep(run, m, p, i);
        p := if i == run.nMap + p then p + 1 else p;
      } else {
        QuietStep(run, m, p);
      }
    }
  }

  /**
   A reduce hand-out carries its own bucket, task id minus the number of maps, if and only if no reduce
   task has been handed out twice so far.
   */
  lemma BucketIffNoRepeat(run: Run, k: nat, i: nat)
    requires IsRun(run) && HonestReports(run) && Hands(run, k, i) && i >= run.nMap
    ensures run.acts[k].reply.bucket == i - run.nMap <==> !Repeated(run, k + 1)
  {
    var p := CountReduces(run, k);
    NextInOrder(run, k, p, i);
    RepeatedNext(run, k);
    assert TaskCounted(run, k, p, i);
  }

  /** Reduce task i was overdue when request k came in. */
  predicate OverdueAt(run: Run, k: nat, i: nat) {
    && k < |run.acts| && k < |run.books| && run.acts[k].Ask? && run.nMap <= i < |run.books[k].tasks|
    && Overdue(run.books[k].tasks[i], run.acts[k].now)
  }

  /** Among the first n acts some request found a reduce task overdue. */
  ghost predicate TimedOut(run: Run, n: nat) {
    exists k: nat, i: nat :: k < n && OverdueAt(run, k, i)
  }

  /** No reduce task is ever overdue when a worker asks. */
  ghost predicate NoReduceTimesOut(run: Run) {
    forall k: nat, i: nat :: !OverdueAt(run, k, i)
  }

  lemma {:induction false} StaysBusy(run: Run, j: nat, k: nat, i: nat)
    requires IsRun(run) && !TimedOut(run, k) && Hands(run, j, i) && i >= run.nMap && j < k <= |run.acts|
    ensures i < |run.books[k].tasks| && run.books[k].tasks[i].status != Idle
    decreases k
  {
    var m := k - 1;
    RunShape(run, m);
    HandFacts(run, j, i);
    RunShape(run, j);
    TaskStep(run, m, i);
    assert !OverdueAt(run, m, i);
    if j < m {
      assert !TimedOut(run, m);
      StaysBusy(run, j, m, i);
    }
  }

  lemma NoTimeoutNoRepeat(run: Run, n: nat)
    requires IsRun(run) && !TimedOut(run, n) && n <= |run.acts|
    ensures !Repeated(run, n)
  {
    forall j: nat, k: nat, i: nat | j < k < n && i >= run.nMap && Hands(run, j, i) ensures !Hands(run, k, i) {
      RunShape(run, j);
      HandFacts(run, j, i);
      assert !TimedOut(run, k) && !OverdueAt(run, k, i);
      StaysBusy(run, j, k, i);
      TaskStep(run, k, i);
    }
  }

  /** Once a reduce task has been handed out, every map task is completed for good. */
  lemma MapsStayDone(run: Run, k: nat, i: nat)
    requires IsRun(run) && k <= |run.acts| && HandedBefore(run, i, k) && i >= run.nMap
    ensures AllCompleted(run.books[k].tasks, MapTask)
  {
    var j: nat :| j < k && Hands(run, j, i);
    MapsBeforeReduces(run, j, i);
    RunShape(run, j);
    RunShape(run, k);
    forall m: nat | m < |run.books[k].tasks| && run.books[k].tasks[m].kind == MapTask
      ensures run.books[k].tasks[m].status == Completed
    {
      assert run.books[j].tasks[m].kind == MapTask;
      CompletedForever(run, j, k, m);
    }
  }

  /** With all maps done and a reduce task idle after the timeouts, the request is answered with the first such task. */
  lemma GivesFirstIdle(run: Run, k: nat, i: nat) returns (q: nat)
    requires IsRun(run) && k < |run.acts| && run.acts[k].Ask? && AllCompleted(run.books[k].tasks, MapTask)
    requires IsIdle(Swept(run, k).tasks, ReduceTask, i)
    ensures run.nMap <= q <= i && Hands(run, k, q)
  {
    var c := Swept(run, k);
    RunShape(run, k);
    assert StepOk(run.books[k], run.acts[k], run.books[k + 1]);
    assert forall m :: 0 <= m < |c.tasks| ==> c.tasks[m] == Reset(run.books[k].tasks[m], run.acts[k].now);
    assert AllCompleted(c.tasks, MapTask);
    assert c.tasks[i].status == Idle;
    q := run.acts[k].reply.task.id;
    assert Hands(run, k, q);
    HandFacts(run, k, q);
  }

  /** An overdue reduce task makes that very request hand a reduce task out again. */
  lemma TimeoutRepeats(run: Run, k: nat, i: nat)
    requires IsRun(run) && HonestReports(run) && OverdueAt(run, k, i)
    ensures Repeated(run, k + 1)
  {
    RunShape(run, k);
    var p := CountReduces(run, k);
    assert TaskCounted(run, k, p, i);
    MapsStayDone(run, k, i);
    assert Swept(run, k).tasks[i] == Reset(run.books[k].tasks[i], run.acts[k].now);
    var q := GivesFirstIdle(run, k, i);
    assert TaskCounted(run, k, p, q);
    RepeatedNext(run, k);
  }

  lemma RepeatedGrows(run: Run, m: nat, n: nat)
    requires m <= n && Repeated(run, m)
    ensures Repeated(run, n)
  {
    var j: nat, k: nat, i: nat :| j < k < m && i >= run.nMap && Hands(run, j, i) && Hands(run, k, i);
    assert k < n;
  }

  /** Reduce tasks are handed out again if and only if one was overdue when a worker asked. */
  lemma RepeatIffTimeout(run: Run, n: nat)
    requires IsRun(run) && HonestReports(run) && n <= |run.acts|
    ensures Repeated(run, n) <==> TimedOut(run, n)
  {
    if TimedOut(run, n) {
      var k: nat, i: nat :| k < n && OverdueAt(run, k, i);
      TimeoutRepeats(run, k, i);
      RepeatedGrows(run, k + 1, n);
    } else {
      NoTimeoutNoRepeat(run, n);
    }
  }

  /**
   The exact condition, known before the request is answered: a reduce hand-out carries its own bucket, task
   id minus the number of maps, if and only if no request so far, this one included, found a reduce task overdue.
   */
  lemma BucketIffNoTimeout(run: Run, k: nat, i: nat)
    requires IsRun(run) && HonestReports(run) && Hands(run, k, i) && i >= run.nMap
    ensures run.acts[k].reply.bucket == i - run.nMap <==> !TimedOut(run, k + 1)
  {
    BucketIffNoRepeat(run, k, i);
    RepeatIffTimeout(run, k + 1);
  }

  // ----- A run with a wrong bucket

  function OneReduce(start: int): Task {
    ReduceTaskFor(0, 1, 0).(status := InProgress, start := start)
  }

  /** No map, one reduce task: asked for at 0, and again just after it timed out. */
  function SlowRun(): Run {
    var late := TIMEOUT + 1;
    Run(0, 1, [Ask(0, 0, Work(OneReduce(0), 0, 0)), Ask(late, late, Work(OneReduce(late), 1, 0))],
        [Fresh([], 1), Book([OneReduce(0)], 1, []), Book([OneReduce(late)], 2, [])])
  }

  /** The second hand-out of task 0 says bucket 1, and there is no bucket 1. */
  lemma SlowRunWrongBucket()
    ensures IsRun(SlowRun()) && HonestReports(SlowRun()) && Monotone(SlowRun().acts)
    ensures Hands(SlowRun(), 1, 0) && SlowRun().acts[1].reply.bucket == SlowRun().nReduce
  {
    var run := SlowRun();
    var t := ReduceTaskFor(0, 1, 0);
    var files: seq<string> := [];
    assert |files| == run.nMap && run.books[0] == Fresh(files, 1);
    assert Fresh(files, 1).tasks == [t];
    SlowStep(run.books[0], 0, run.acts[0].reply, run.books[1], t, 0);
    SlowStep(run.books[1], TIMEOUT + 1, run.acts[1].reply, run.books[2], OneReduce(0), 1);
  }

  lemma SlowStep(b: Book, now: int, r: Reply, b': Book, t: Task, n: nat)
    requires b == Book([t], n, []) && t.kind == ReduceTask && Reset(t, now).status == Idle
    requires b' == Book([t.(status := InProgress, start := now)], n + 1, []) && r == Work(b'.tasks[0], n, 0)
    ensures Asked(b, now, now, b', r)
  {
    var c := b.(tasks := ResetAll(b.tasks, now));
    assert c.tasks == [Reset(t, now)];
    assert AllCompleted(c.tasks, MapTask);
    assert Grants(c, 0);
    assert HandOut(c, 0, now) == b';
  }

  /**
   In every run in which no reduce task times out and only given tasks are reported, each reduce task
   carries its own bucket and is given at most once, and by the time Finished is answered each was given.
   */
  lemma EveryBucketOnce(run: Run, n: nat)
    requires IsRun(run) && HonestReports(run) && NoReduceTimesOut(run) && n <= |run.acts|
    ensures forall k: nat, i: nat :: k < n && i >= run.nMap && Hands(run, k, i) ==>
              run.acts[k].reply.bucket == i - run.nMap
    ensures forall j: nat, k: nat, i: nat ::
              j < n && k < n && i >= run.nMap && Hands(run, j, i) && Hands(run, k, i) ==> j == k
    ensures n < |run.acts| && run.acts[n].Ask? && run.acts[n].reply.Finished? ==>
              forall i: nat :: run.nMap <= i < run.nMap + run.nReduce ==> HandedBefore(run, i, n)
  {
    forall k: nat, i: nat | k < n && i >= run.nMap && Hands(run, k, i)
      ensures run.acts[k].reply.bucket == i - run.nMap
    {
      BucketIffNoTimeout(run, k, i);
    }
    NoTimeoutNoRepeat(run, n);
    forall j: nat, k: nat, i: nat | j < n && k < n && i >= run.nMap && Hands(run, j, i) && Hands(run, k, i)
      ensures j == k
    {
      assert j < k ==> Repeated(run, n);
      assert k < j ==> Repeated(run, n);
    }
    if n < |run.acts| && run.acts[n].Ask? && run.acts[n].reply.Finished? {
      var p := CountReduces(run, n);
      FinishedMeansDone(run, n);
      forall i: nat | run.nMap <= i < run.nMap + run.nReduce ensures HandedBefore(run, i, n) {
        assert TaskCounted(run, n, p, i);
      }
    }
  }
}
