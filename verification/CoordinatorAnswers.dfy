/** What each request is answered, over every run, said of the tasks alone. */
module CoordinatorAnswers {
  import opened Coordinator
  import opened CoordinatorRuns

  // ----- What a hand-out carries

  /** Each map task has its own file and every task the number of reduces. */
  predicate Labelled(b: Book, files: seq<string>, nReduce: nat) {
    && b.files == files && |b.tasks| == |files| + nReduce
    && forall i :: 0 <= i < |b.tasks| ==> LabelOk(b.tasks[i], i, files, nReduce)
  }

  predicate LabelOk(t: Task, i: nat, files: seq<string>, nReduce: nat) {
    && t.id == i && t.nReduce == nReduce
    && if i < |files| then t.kind == MapTask && t.fileName == files[i] else t.kind == ReduceTask && t.fileName == ""
  }

  /** Only status and start time of a task ever change. */
  lemma StepKeepsLabel(b: Book, a: Act, b': Book, i: nat)
    requires StepOk(b, a, b') && i < |b.tasks|
    ensures |b'.tasks| == |b.tasks| && b'.files == b.files
    ensures b'.tasks[i] == b.tasks[i].(status := b'.tasks[i].status, start := b'.tasks[i].start)
  {
    if a.Ask? && a.reply.Work? {
      var c := b.(tasks := ResetAll(b.tasks, a.now));
      var j: nat :| Grants(c, j) && b' == HandOut(c, j, a.later);
    }
  }

  lemma StepKeepsLabels(b: Book, a: Act, b': Book, files: seq<string>, nReduce: nat)
    requires Labelled(b, files, nReduce) && StepOk(b, a, b')
    ensures Labelled(b', files, nReduce)
  {
    assert b'.files == b.files && |b'.tasks| == |b.tasks|;
    forall i: nat | i < |b.tasks| ensures LabelOk(b'.tasks[i], i, files, nReduce) {
      StepKeepsLabel(b, a, b', i);
      assert LabelOk(b.tasks[i], i, files, nReduce);
    }
  }

  lemma {:induction false} RunLabelled(run: Run, files: seq<string>, k: nat)
    requires IsRun(run) && run.books[0] == Fresh(files, run.nReduce) && k <= |run.acts|
    ensures Labelled(run.books[k], files, run.nReduce)
  {
    if k > 0 {
      RunLabelled(run, files, k - 1);
      StepKeepsLabels(run.books[k - 1], run.acts[k - 1], run.books[k], files, run.nReduce);
    }
  }

  /**
   Over every run from a list of files: a hand-out of map task i carries file i, a hand-out of a reduce task
   the number of maps, and both the number of reduces, the time they were given and the status InProgress.
   */
  lemma HandOutCarries(run: Run, files: seq<string>, k: nat, i: nat)
    requires IsRun(run) && run.books[0] == Fresh(files, run.nReduce) && Hands(run, k, i)
    ensures i < |files| ==>
              run.acts[k].reply == Work(Task(files[i], run.nReduce, InProgress, MapTask, run.acts[k].later, i), 0, 0)
    ensures i >= |files| ==>
              && run.acts[k].reply.task == Task("", run.nReduce, InProgress, ReduceTask, run.acts[k].later, i)
              && run.acts[k].reply.mapNum == |files|
  {
    RunLabelled(run, files, 0);
    RunLabelled(run, files, k);
    RunLabelled(run, files, k + 1);
    RunShape(run, 0);
    HandFacts(run, k, i);
  }

  // ----- Which answer a request gets

  /** The status of task i once request k has reset what is more than ten seconds old. */
  function StatusAt(run: Run, k: nat, i: nat): Status
    requires k < |run.acts| && k < |run.books| && run.acts[k].Ask? && i < |run.books[k].tasks|
  {
    var t := run.books[k].tasks[i];
    if t.status == InProgress && run.acts[k].now - t.start > 10_000_000_000 then Idle else t.status
  }

  /** The tasks from a up to b, as request k finds them, all have the status. */
  predicate AllAre(run: Run, k: nat, a: nat, b: nat, st: Status)
    requires k < |run.acts| && k < |run.books| && run.acts[k].Ask? && b <= |run.books[k].tasks|
  {
    forall i :: a <= i < b ==> StatusAt(run, k, i) == st
  }

  predicate NoneIdle(run: Run, k: nat, a: nat, b: nat)
    requires k < |run.acts| && k < |run.books| && run.acts[k].Ask? && b <= |run.books[k].tasks|
  {
    forall i :: a <= i < b ==> StatusAt(run, k, i) != Idle
  }

  /** Task i is the first idle map, or, once all maps are completed, the first idle reduce. */
  predicate IsNext(run: Run, k: nat, i: nat)
    requires k < |run.acts| && k < |run.books| && run.acts[k].Ask? && run.nMap <= |run.books[k].tasks|
  {
    && i < |run.books[k].tasks| && StatusAt(run, k, i) == Idle
    && if i < run.nMap then NoneIdle(run, k, 0, i)
       else AllAre(run, k, 0, run.nMap, Completed) && NoneIdle(run, k, run.nMap, i)
  }

  lemma SweptStatus(run: Run, k: nat, i: nat)
    requires IsRun(run) && k < |run.acts| && run.acts[k].Ask? && i < run.nMap + run.nReduce
    ensures i < |run.books[k].tasks| && |Swept(run, k).tasks| == |run.books[k].tasks|
    ensures Swept(run, k).tasks[i].status == StatusAt(run, k, i)
    ensures Swept(run, k).tasks[i].kind == MapTask <==> i < run.nMap
  {
    RunShape(run, k);
  }

  /** The scans of the handler, said of the statuses. */
  lemma ScansMean(run: Run, k: nat)
    requires IsRun(run) && k < |run.acts| && run.acts[k].Ask?
    ensures |run.books[k].tasks| == run.nMap + run.nReduce
    ensures AllCompleted(Swept(run, k).tasks, MapTask) <==> AllAre(run, k, 0, run.nMap, Completed)
    ensures AllCompleted(Swept(run, k).tasks, ReduceTask) <==> AllAre(run, k, run.nMap, |run.books[k].tasks|, Completed)
    ensures NoIdle(Swept(run, k).tasks, MapTask) <==> NoneIdle(run, k, 0, run.nMap)
    ensures NoIdle(Swept(run, k).tasks, ReduceTask) <==> NoneIdle(run, k, run.nMap, |run.books[k].tasks|)
  {
    RunShape(run, k);
    var ts := Swept(run, k).tasks;
    forall i: nat | i < |ts| ensures ts[i].status == StatusAt(run, k, i) && (ts[i].kind == MapTask <==> i < run.nMap) {
      SweptStatus(run, k, i);
    }
    forall i: nat | i < run.nMap ensures IsIdle(ts, MapTask, i) <==> StatusAt(run, k, i) == Idle {
    }
    forall i: nat | run.nMap <= i < |ts| ensures IsIdle(ts, ReduceTask, i) <==> StatusAt(run, k, i) == Idle {
    }
  }

  /** The task given is the one to give next. */
  lemma HandsIsNext(run: Run, k: nat, i: nat)
    requires IsRun(run) && Hands(run, k, i)
    ensures |run.books[k].tasks| == run.nMap + run.nReduce && IsNext(run, k, i)
  {
    ScansMean(run, k);
    HandFacts(run, k, i);
    var ts := Swept(run, k).tasks;
    SweptStatus(run, k, i);
    forall j: nat | j < i && (i < run.nMap || run.nMap <= j) ensures StatusAt(run, k, j) != Idle {
      SweptStatus(run, k, j);
      assert ts[j].kind == ts[i].kind && !IsIdle(ts, ts[i].kind, j);
    }
  }

  lemma OneNext(run: Run, k: nat, i: nat, j: nat)
    requires IsRun(run) && k < |run.acts| && run.acts[k].Ask? && run.nMap <= |run.books[k].tasks|
    requires IsNext(run, k, i) && IsNext(run, k, j)
    ensures i == j
  {
  }

  /**
   Over every run, exactly which answer a request gets: Finished when all tasks are completed, otherwise the
   first idle map, or once all maps are completed the first idle reduce, and Wait only if there is none to give.
   */
  lemma AnswerDecided(run: Run, k: nat)
    requires IsRun(run) && k < |run.acts| && run.acts[k].Ask?
    ensures |run.books[k].tasks| == run.nMap + run.nReduce
    ensures run.acts[k].reply.Finished? <==> AllAre(run, k, 0, |run.books[k].tasks|, Completed)
    ensures forall i: nat :: Hands(run, k, i) <==> IsNext(run, k, i)
    ensures run.acts[k].reply.Wait? <==>
            !AllAre(run, k, 0, |run.books[k].tasks|, Completed) && forall i: nat :: !IsNext(run, k, i)
  {
    ScansMean(run, k);
    assert StepOk(run.books[k], run.acts[k], run.books[k + 1]);
    var r := run.acts[k].reply;
    if r.Work? {
      var g := r.task.id;
      assert Hands(run, k, g);
      HandsIsNext(run, k, g);
      assert StatusAt(run, k, g) == Idle;
      forall i: nat | IsNext(run, k, i) ensures i == g {
        OneNext(run, k, i, g);
      }
    }
  }
}
