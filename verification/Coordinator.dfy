/** The MapReduce coordinator: a list of tasks handed out, timed out and reported under one lock. */
module Coordinator {

  datatype Status = Idle | InProgress | Completed
  datatype Kind = MapTask | ReduceTask

  datatype Task = Task(fileName: string, nReduce: nat, status: Status, kind: Kind, start: int, id: nat)

  /** What a worker is told: a task, or to wait, or that everything is finished. */
  datatype Reply = Work(task: Task, bucket: nat, mapNum: nat) | Wait | Finished

  datatype Book = Book(tasks: seq<Task>, reduceCount: nat, files: seq<string>)

  /** Ten seconds in nanoseconds. */
  const TIMEOUT := 10_000_000_000

  predicate Overdue(t: Task, now: int) {
    t.status == InProgress && now - t.start > TIMEOUT
  }

  function Reset(t: Task, now: int): Task {
    if Overdue(t, now) then t.(status := Idle) else t
  }

  function ResetAll(ts: seq<Task>, now: int): seq<Task> {
    seq(|ts|, i requires 0 <= i < |ts| => Reset(ts[i], now))
  }

  predicate IsIdle(ts: seq<Task>, k: Kind, i: int) {
    0 <= i < |ts| && ts[i].kind == k && ts[i].status == Idle
  }

  predicate AllCompleted(ts: seq<Task>, k: Kind) {
    forall i :: 0 <= i < |ts| && ts[i].kind == k ==> ts[i].status == Completed
  }

  ghost predicate NoIdle(ts: seq<Task>, k: Kind) {
    forall i :: !IsIdle(ts, k, i)
  }

  /** Idle with the first idle task of the kind; else InProgress if one is running; else Completed. */
  ghost predicate ScanResult(ts: seq<Task>, k: Kind, st: Status, at: int) {
    match st
    case Idle => IsIdle(ts, k, at) && forall i :: 0 <= i < at ==> !IsIdle(ts, k, i)
    case InProgress => NoIdle(ts, k) && !AllCompleted(ts, k)
    case Completed => AllCompleted(ts, k)
  }

  /** Handing out task i at a time, and what the books look like after. */
  function HandOut(b: Book, i: nat, now: int): Book
    requires i < |b.tasks|
  {
    var t := b.tasks[i].(status := InProgress, start := now);
    b.(tasks := b.tasks[i := t],
       reduceCount := if t.kind == ReduceTask then b.reduceCount + 1 else b.reduceCount)
  }

  /**
   What a worker's request may do, with the clock read at `now` for timeouts and at `later` for the start
   time: reset overdue tasks, then give the first idle map task; no reduce task before every map task is
   completed, and Finished only when all tasks are.
   */
  ghost predicate Asked(b: Book, now: int, later: int, b': Book, r: Reply) {
    var c := b.(tasks := ResetAll(b.tasks, now));
    match r
    case Finished => b' == c && AllCompleted(c.tasks, MapTask) && AllCompleted(c.tasks, ReduceTask)
    case Wait =>
      && b' == c
      && (if AllCompleted(c.tasks, MapTask) then NoIdle(c.tasks, ReduceTask) && !AllCompleted(c.tasks, ReduceTask)
          else NoIdle(c.tasks, MapTask))
    case Work(task, bucket, mapNum) =>
      exists i: nat ::
        && Grants(c, i) && b' == HandOut(c, i, later) && task == b'.tasks[i]
        && (if task.kind == MapTask then bucket == 0 && mapNum == 0 else bucket == c.reduceCount && mapNum == |c.files|)
  }

  /** Task i is the one to give next. */
  ghost predicate Grants(c: Book, i: nat) {
    i < |c.tasks| && ScanResult(c.tasks, c.tasks[i].kind, Idle, i) &&
    (c.tasks[i].kind == ReduceTask ==> AllCompleted(c.tasks, MapTask))
  }

  function FirstWithId(ts: seq<Task>, id: nat): (i: nat)
    ensures i <= |ts| && (i < |ts| ==> ts[i].id == id)
    ensures forall j :: 0 <= j < i ==> ts[j].id != id
  {
    if ts == [] then 0 else if ts[0].id == id then 0 else 1 + FirstWithId(ts[1..], id)
  }

  function Report(b: Book, id: nat): Book {
    var i := FirstWithId(b.tasks, id);
    if i < |b.tasks| then b.(tasks := b.tasks[i := b.tasks[i].(status := Completed)]) else b
  }

  function MapTaskFor(files: seq<string>, nReduce: nat, i: nat): Task
    requires i < |files|
  {
    Task(files[i], nReduce, Idle, MapTask, 0, i)
  }

  function ReduceTaskFor(nMap: nat, nReduce: nat, i: nat): Task {
    Task("", nReduce, Idle, ReduceTask, 0, nMap + i)
  }

  function Fresh(files: seq<string>, nReduce: nat): Book {
    Book(seq(|files|, i requires 0 <= i < |files| => MapTaskFor(files, nReduce, i)) +
         seq(nReduce, i requires 0 <= i => ReduceTaskFor(|files|, nReduce, i)), 0, files)
  }

  class Coordinator {
    var tasks: seq<Task>
    var reduceCount: nat
    var files: seq<string>

    ghost function Books(): Book
      reads this
    {
      Book(tasks, reduceCount, files)
    }

    constructor (files: seq<string>, nReduce: nat)
      ensures Books() == Fresh(files, nReduce)
      ensures this.files == files && reduceCount == 0 && |tasks| == |files| + nReduce
      ensures forall i :: 0 <= i < |files| ==> tasks[i] == Task(files[i], nReduce, Idle, MapTask, 0, i)
      ensures forall i :: |files| <= i < |tasks| ==> tasks[i] == Task("", nReduce, Idle, ReduceTask, 0, i)
    {
      var ts: seq<Task> := [];
      for i := 0 to |files|
        invariant ts == Fresh(files, nReduce).tasks[..i]
      {
        ts := ts + [Task(files[i], nReduce, Idle, MapTask, 0, i)];
      }
      for i := 0 to nReduce
        invariant ts == Fresh(files, nReduce).tasks[..|files| + i]
      {
        ts := ts + [Task("", nReduce, Idle, ReduceTask, 0, |files| + i)];
      }
      this.tasks := ts;
      this.reduceCount := 0;
      this.files := files;
    }

    method CheckTimeout(now: int)
      modifies this`tasks
      ensures tasks == ResetAll(old(tasks), now)
      ensures |tasks| == |old(tasks)|
      ensures forall i :: 0 <= i < |tasks| ==>
                tasks[i] == if old(tasks)[i].status == InProgress && now - old(tasks)[i].start > 10_000_000_000
                            then old(tasks)[i].(status := Idle) else old(tasks)[i]
    {
      for i := 0 to |tasks|
        invariant |tasks| == |old(tasks)|
        invariant forall j :: 0 <= j < i ==> tasks[j] == Reset(old(tasks)[j], now)
        invariant forall j :: i <= j < |tasks| ==> tasks[j] == old(tasks)[j]
      {
        if now - tasks[i].start > TIMEOUT && tasks[i].status == InProgress {
          tasks := tasks[i := tasks[i].(status := Idle)];
        }
      }
    }

    method Scan(k: Kind) returns (st: Status, at: int)
      ensures ScanResult(tasks, k, st, at)
      ensures st.Idle? ==> 0 <= at < |tasks|
    {
      var running := [];
      for i := 0 to |tasks|
        invariant forall j :: 0 <= j < i ==> !IsIdle(tasks, k, j)
        invariant running != [] ==> exists j :: 0 <= j < i && tasks[j].kind == k && tasks[j].status == InProgress
        invariant running == [] ==> forall j :: 0 <= j < i && tasks[j].kind == k ==> tasks[j].status == Completed
      {
        if tasks[i].kind == k {
          if tasks[i].status == Idle {
            return Idle, i;
          } else if tasks[i].status == InProgress {
            running := running + [i];
          }
        }
      }
      if running == [] {
        return Completed, -1;
      }
      return InProgress, running[0];
    }

    method GetTask(now: int, later: int) returns (r: Reply)
      modifies this
      ensures Asked(old(Books()), now, later, Books(), r)
    {
      CheckTimeout(now);
      ghost var c := Books();
      assert c == old(Books()).(tasks := ResetAll(old(Books()).tasks, now));
      var mapStatus, m := Scan(MapTask);
      var reduceStatus, d := Scan(ReduceTask);
      if mapStatus == Completed && reduceStatus == Completed {
        return Finished;
      }
      if mapStatus == Idle {
        tasks := tasks[m := tasks[m].(status := InProgress, start := later)];
        assert Grants(c, m) && Books() == HandOut(c, m, later);
        return Work(tasks[m], 0, 0);
      }
      if mapStatus == InProgress {
        return Wait;
      }
      if reduceStatus == Idle {
        tasks := tasks[d := tasks[d].(status := InProgress, start := later)];
        reduceCount := reduceCount + 1;
        assert Grants(c, d) && Books() == HandOut(c, d, later);
        return Work(tasks[d], reduceCount - 1, |files|);
      }
      return Wait;
    }

    /** False where the original stops the process: no task has this id. */
    method ReportTask(id: nat) returns (found: bool)
      modifies this`tasks
      ensures Books() == Report(old(Books()), id)
      ensures found <==> exists i :: 0 <= i < |old(tasks)| && old(tasks)[i].id == id
      ensures found ==> exists i :: 0 <= i < |old(tasks)| && old(tasks)[i].id == id &&
                                    tasks == old(tasks)[i := old(tasks)[i].(status := Completed)]
      ensures !found ==> tasks == old(tasks)
    {
      var i := 0;
      while i < |tasks| && tasks[i].id != id
        invariant 0 <= i <= |tasks| && forall j :: 0 <= j < i ==> tasks[j].id != id
      {
        i := i + 1;
      }
      assert FirstWithId(tasks, id) == i;
      if i == |tasks| {
        return false;
      }
      tasks := tasks[i := tasks[i].(status := Completed)];
      return true;
    }
  }
}
