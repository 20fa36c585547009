/** The master's task board: tasks are handed out from a queue, every hand-out starts a
    timer, an expired timer puts an unfinished task back. One board for the map tasks
    (file names) and one for the reduce tasks (indices). */
module Scheduler {
  import opened Sets

  /** One board. inHand holds tasks popped from the queue but not yet entered as
      running; timers counts live timer threads; requeues counts time-outs. */
  datatype Board<T(==)> = Board(
    tasks: seq<T>, queue: seq<T>, inHand: seq<T>, running: seq<T>, cur: nat,
    finished: set<T>, total: int, timers: nat, requeues: nat)

  function NewBoard<T(==)>(tasks: seq<T>): Board<T> {
    Board(tasks, tasks, [], [], 0, {}, |tasks|, 0, 0)
  }

  datatype Step<T> = Take | Launch | Expire | Report(task: T)

  /** isMapDone and Done: the test compares sizes only. */
  predicate AllReported<T>(b: Board<T>) { |b.finished| == b.total }

  predicate Enabled<T(==)>(b: Board<T>, step: Step<T>) {
    match step
    case Take => b.queue != [] && !AllReported(b)
    case Launch => b.inHand != []
    case Expire => b.timers > 0
    case Report(t) => t in b.running
  }

  /** The position an expiring timer reads is within the running list. */
  predicate InRange<T>(b: Board<T>, step: Step<T>) {
    step.Expire? ==> b.cur < |b.running|
  }

  function DoTake<T>(b: Board<T>): Board<T>
    requires b.queue != []
  {
    var n := |b.queue| - 1;
    b.(queue := b.queue[..n], inHand := b.inHand + [b.queue[n]])
  }

  function DoLaunch<T>(b: Board<T>): Board<T>
    requires b.inHand != []
  {
    b.(inHand := b.inHand[1..], running := b.running + [b.inHand[0]], timers := b.timers + 1)
  }

  function DoExpire<T(==)>(b: Board<T>): Board<T>
    requires b.timers > 0 && b.cur < |b.running|
  {
    var t := b.running[b.cur];
    var next := b.(cur := b.cur + 1, timers := b.timers - 1);
    if t in b.finished then next else next.(queue := b.queue + [t], requeues := b.requeues + 1)
  }

  function DoReport<T>(b: Board<T>, t: T): Board<T> {
    b.(finished := b.finished + {t})
  }

  function Do<T(==)>(b: Board<T>, step: Step<T>): Board<T>
    requires Enabled(b, step) && InRange(b, step)
  {
    match step
    case Take => DoTake(b)
    case Launch => DoLaunch(b)
    case Expire => DoExpire(b)
    case Report(t) => DoReport(b, t)
  }

  ghost predicate Distinct<T>(s: seq<T>) {
    forall i, j :: 0 <= i < j < |s| ==> s[i] != s[j]
  }

  /** The copies of tasks that can still be worked on: queued, in hand, or running with a
      live timer. */
  ghost function Alive<T>(b: Board<T>): multiset<T>
    requires b.cur <= |b.running|
  {
    multiset(b.queue) + multiset(b.inHand) + multiset(b.running[b.cur..])
  }

  ghost function SetOf<T>(s: seq<T>): set<T> {
    set t | t in s
  }

  ghost function TaskSet<T>(b: Board<T>): set<T> {
    SetOf(b.tasks)
  }

  ghost predicate BoardInv<T(!new)>(b: Board<T>) {
    && Distinct(b.tasks) && b.total == |b.tasks|
    && b.cur <= |b.running| && b.timers == |b.running| - b.cur
    && (forall t :: t in b.running ==> t in b.tasks)
    && (forall t :: t in b.finished ==> t in b.tasks && t in b.running)
    && (forall t :: t in b.tasks && t !in b.finished ==> Alive(b)[t] == 1)
    && (forall t :: Alive(b)[t] <= 1)
    && (forall t :: t in Alive(b) ==> t in b.tasks)
    && |b.queue| + |b.inHand| + |b.running| == |b.tasks| + b.requeues
  }

  lemma {:induction false} DistinctCounts<T>(s: seq<T>, t: T)
    requires Distinct(s)
    ensures multiset(s)[t] == if t in s then 1 else 0
  {
    if s != [] {
      DistinctCounts(s[1..], t);
      assert s == [s[0]] + s[1..];
    }
  }

  lemma NewBoardHolds<T(!new)>(tasks: seq<T>)
    requires Distinct(tasks)
    ensures BoardInv(NewBoard(tasks))
  {
    var b := NewBoard(tasks);
    forall t ensures Alive(b)[t] == if t in tasks then 1 else 0 { DistinctCounts(tasks, t); }
  }

  lemma TakeAlive<T>(b: Board<T>)
    requires b.queue != [] && b.cur <= |b.running|
    ensures Alive(DoTake(b)) == Alive(b)
  {
    var n := |b.queue| - 1;
    assert b.queue == b.queue[..n] + [b.queue[n]];
  }

  lemma LaunchAlive<T>(b: Board<T>)
    requires b.inHand != [] && b.cur <= |b.running|
    ensures Alive(DoLaunch(b)) == Alive(b)
  {
    assert b.inHand == [b.inHand[0]] + b.inHand[1..];
    assert (b.running + [b.inHand[0]])[b.cur..] == b.running[b.cur..] + [b.inHand[0]];
  }

  lemma ExpireAlive<T>(b: Board<T>)
    requires b.timers > 0 && b.cur < |b.running|
    ensures var t := b.running[b.cur];
      && Alive(b)[t] >= 1
      && Alive(DoExpire(b)) == if t in b.finished then Alive(b) - multiset{t} else Alive(b)
  {
    assert b.running[b.cur..] == [b.running[b.cur]] + b.running[b.cur + 1..];
  }

  /** Every step, in any order, keeps the board's invariant; the timer's index is in
      range whenever a timer is live. */
  lemma BoardStep<T(!new)>(b: Board<T>, step: Step<T>)
    requires BoardInv(b) && Enabled(b, step)
    ensures InRange(b, step) && BoardInv(Do(b, step))
  {
    match step
    case Take => TakeHolds(b);
    case Launch => LaunchHolds(b);
    case Expire => ExpireHolds(b);
    case Report(t) => ReportHolds(b, t);
  }

  lemma TakeHolds<T(!new)>(b: Board<T>)
    requires BoardInv(b) && b.queue != []
    ensures BoardInv(DoTake(b))
  {
    TakeAlive(b);
  }

  lemma LaunchHolds<T(!new)>(b: Board<T>)
    requires BoardInv(b) && b.inHand != []
    ensures BoardInv(DoLaunch(b))
  {
    LaunchAlive(b);
    assert b.inHand[0] in Alive(b);
    var b' := DoLaunch(b);
    assert forall t :: t in b'.running <==> t in b.running || t == b.inHand[0];
  }

  lemma ExpireHolds<T(!new)>(b: Board<T>)
    requires BoardInv(b) && b.timers > 0
    ensures b.cur < |b.running| && BoardInv(DoExpire(b))
  {
    ExpireAlive(b);
  }

  lemma ReportHolds<T(!new)>(b: Board<T>, t: T)
    requires BoardInv(b) && t in b.running
    ensures BoardInv(DoReport(b, t))
  {
    assert Alive(DoReport(b, t)) == Alive(b);
  }

  ghost predicate BoardStepsAt<T(!new)>(run: seq<Board<T>>, k: int)
    requires 0 < k < |run|
  {
    BoardNext(run[k - 1], run[k])
  }

  ghost predicate BoardRun<T(!new)>(run: seq<Board<T>>, tasks: seq<T>) {
    && run != [] && run[0] == NewBoard(tasks)
    && forall k :: 0 < k < |run| ==> BoardStepsAt(run, k)
  }

  ghost predicate BoardNext<T(!new)>(b: Board<T>, b': Board<T>) {
    exists step :: BoardTakes(b, step, b')
  }

  ghost predicate BoardTakes<T>(b: Board<T>, step: Step<T>, b': Board<T>) {
    Enabled(b, step) && InRange(b, step) && b' == Do(b, step)
  }

  /** Under every interleaving of assignments, time-outs and reports of distinct tasks the
      invariant holds: no unfinished task is lost or doubled, and each hand-out is
      accounted for by a task or a time-out. */
  lemma {:induction false} TasksConserved<T(!new)>(run: seq<Board<T>>, tasks: seq<T>, k: nat)
    requires Distinct(tasks) && BoardRun(run, tasks) && k < |run|
    ensures BoardInv(run[k]) && run[k].tasks == tasks
  {
    if k == 0 {
      NewBoardHolds(tasks);
    } else {
      TasksConserved(run, tasks, k - 1);
      assert BoardStepsAt(run, k);
      var step :| BoardTakes(run[k - 1], step, run[k]);
      BoardStep(run[k - 1], step);
    }
  }

  lemma DistinctCons<T>(x: T, s: seq<T>)
    ensures Distinct([x] + s) <==> Distinct(s) && x !in s
  {
    var whole := [x] + s;
    if Distinct(whole) {
      forall i | 0 <= i < |s| ensures s[i] != x { assert whole[i + 1] == s[i] && whole[0] == x; }
      forall i, j | 0 <= i < j < |s| ensures s[i] != s[j] { assert whole[i + 1] == s[i] && whole[j + 1] == s[j]; }
    }
    if Distinct(s) && x !in s {
      forall i, j | 0 <= i < j < |whole| ensures whole[i] != whole[j] {
        assert whole[j] == s[j - 1];
        if i > 0 { assert whole[i] == s[i - 1]; }
      }
    }
  }

  lemma {:induction false} SetOfDistinct<T>(s: seq<T>)
    ensures |SetOf(s)| <= |s|
    ensures |SetOf(s)| == |s| <==> Distinct(s)
  {
    if s == [] {
      assert SetOf(s) == {};
    } else {
      SetOfDistinct(s[1..]);
      DistinctCons(s[0], s[1..]);
      assert s == [s[0]] + s[1..];
      assert SetOf(s) == {s[0]} + SetOf(s[1..]);
    }
  }

  /** The size test is exact: a phase counts as done exactly when every task has been
      reported, whatever repeats and late reports there were. */
  lemma DoneIsExact<T(!new)>(b: Board<T>)
    requires BoardInv(b)
    ensures AllReported(b) <==> forall t :: t in b.tasks ==> t in b.finished
  {
    SetOfDistinct(b.tasks);
    assert b.finished <= TaskSet(b);
    SubsetSize(b.finished, TaskSet(b));
    if AllReported(b) {
      var missing := TaskSet(b) - b.finished;
      assert TaskSet(b) == b.finished + missing;
      assert missing == {};
      forall t | t in b.tasks ensures t in b.finished {
        assert t in TaskSet(b);
        assert t !in missing;
      }
    }
    if forall t :: t in b.tasks ==> t in b.finished {
      assert TaskSet(b) == b.finished;
    }
  }

  /** Distinct names are needed: once every task has been reported, the size test passes
      exactly when no task was listed twice. */
  lemma DoneNeedsDistinct<T(!new)>(b: Board<T>)
    requires b.total == |b.tasks| && b.finished == TaskSet(b)
    ensures AllReported(b) <==> Distinct(b.tasks)
  {
    SetOfDistinct(b.tasks);
  }

  /** A task that timed out unfinished is the next to be handed out, and then the queue is
      what it was. */
  lemma TimedOutIsNext<T>(b: Board<T>)
    requires b.timers > 0 && b.cur < |b.running| && b.running[b.cur] !in b.finished
    ensures var b' := DoTake(DoExpire(b)); b'.queue == b.queue && b'.inHand == b.inHand + [b.running[b.cur]]
  {}

  /** While a phase is not done, some task is still queued, in hand or under a live timer. */
  lemma NeverStuck<T(!new)>(b: Board<T>)
    requires BoardInv(b) && !AllReported(b)
    ensures b.queue != [] || b.inHand != [] || b.timers > 0
  {
    DoneIsExact(b);
    var t :| t in b.tasks && t !in b.finished;
    assert Alive(b)[t] == 1;
    if b.queue == [] && b.inHand == [] {
      assert Alive(b) == multiset(b.running[b.cur..]);
      assert t in b.running[b.cur..];
    }
  }

  // ----- both phases -----

  /** The master with its workers: reduce workers are started once a map worker has seen
      isMapDone. */
  datatype Job = Job(maps: Board<string>, reduces: Board<int>, reducing: bool)

  datatype JobStep = MapStep(m: Step<string>) | StartReducing | ReduceStep(r: Step<int>)

  ghost predicate JobTakes(j: Job, step: JobStep, j': Job) {
    match step
    case MapStep(m) => BoardTakes(j.maps, m, j'.maps) && j' == j.(maps := j'.maps)
    case StartReducing => AllReported(j.maps) && j' == j.(reducing := true)
    case ReduceStep(r) => j.reducing && BoardTakes(j.reduces, r, j'.reduces) && j' == j.(reduces := j'.reduces)
  }

  ghost predicate JobNext(j: Job, j': Job) {
    exists step :: JobTakes(j, step, j')
  }

  function Indices(n: nat): (s: seq<int>)
    ensures |s| == n && forall i :: 0 <= i < n ==> s[i] == i
  {
    seq(n, i => i)
  }

  ghost predicate JobStepsAt(run: seq<Job>, k: int)
    requires 0 < k < |run|
  {
    JobNext(run[k - 1], run[k])
  }

  ghost predicate JobRun(run: seq<Job>, files: seq<string>, reducers: nat) {
    && run != [] && run[0] == Job(NewBoard(files), NewBoard(Indices(reducers)), false)
    && forall k :: 0 < k < |run| ==> JobStepsAt(run, k)
  }

  ghost predicate JobInv(j: Job, files: seq<string>, reducers: nat) {
    && BoardInv(j.maps) && BoardInv(j.reduces)
    && j.maps.tasks == files && j.reduces.tasks == Indices(reducers)
    && (j.reducing ==> AllReported(j.maps))
    && (!j.reducing ==> j.reduces == NewBoard(Indices(reducers)))
  }

  lemma DoneStays(b: Board<string>, step: Step<string>)
    requires BoardInv(b) && Enabled(b, step) && InRange(b, step) && AllReported(b)
    ensures AllReported(Do(b, step))
  {
    BoardStep(b, step);
    DoneIsExact(b);
    DoneIsExact(Do(b, step));
  }

  lemma JobStepHolds(j: Job, step: JobStep, j': Job, files: seq<string>, reducers: nat)
    requires JobInv(j, files, reducers) && JobTakes(j, step, j')
    ensures JobInv(j', files, reducers)
  {
    match step
    case MapStep(m) =>
      BoardStep(j.maps, m);
      if j.reducing { DoneStays(j.maps, m); }
    case StartReducing =>
    case ReduceStep(r) =>
      BoardStep(j.reduces, r);
  }

  lemma {:induction false} JobHolds(run: seq<Job>, files: seq<string>, reducers: nat, k: nat)
    requires Distinct(files) && JobRun(run, files, reducers) && k < |run|
    ensures JobInv(run[k], files, reducers)
  {
    if k == 0 {
      NewBoardHolds(files);
      NewBoardHolds(Indices(reducers));
    } else {
      JobHolds(run, files, reducers, k - 1);
      assert JobStepsAt(run, k);
      var step :| JobTakes(run[k - 1], step, run[k]);
      JobStepHolds(run[k - 1], step, run[k], files, reducers);
    }
  }

  /** The phases do not overlap: in every run, once any reduce task has been handed out,
      every input file has been reported mapped; and the job counts as done exactly when
      every reduce index has been reported. */
  lemma ReduceAfterMaps(run: seq<Job>, files: seq<string>, reducers: nat, k: nat)
    requires Distinct(files) && JobRun(run, files, reducers) && k < |run|
    ensures run[k].reduces.inHand != [] || run[k].reduces.running != [] ==>
      forall f :: f in files ==> f in run[k].maps.finished
    ensures AllReported(run[k].reduces) <==> forall i :: 0 <= i < reducers ==> i in run[k].reduces.finished
  {
    JobHolds(run, files, reducers, k);
    var j := run[k];
    DoneIsExact(j.maps);
    DoneIsExact(j.reduces);
    assert forall i :: 0 <= i < reducers ==> Indices(reducers)[i] == i;
    forall i | 0 <= i < reducers ensures i in j.reduces.tasks { assert j.reduces.tasks[i] == i; }
  }
}
