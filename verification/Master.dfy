/** The master object: its fields assigned in place by the RPC methods and the timer
    threads, each proved to be the matching step of a task board. */
module Master {
  import opened Scheduler

  const NOTHING := "empty"
  const NO_INDEX := -1

  /** The constructor throws unless both numbers are positive. */
  method NewMaster(mapNum: int, reduceNum: int) returns (m: Master?)
    ensures m == null <==> mapNum <= 0 || reduceNum <= 0
    ensures m != null ==>
      fresh(m) && m.Valid() && m.MapBoard() == NewBoard([]) && m.ReduceBoard() == NewBoard(Indices(reduceNum))
  {
    if mapNum <= 0 || reduceNum <= 0 { return null; }
    m := new Master(mapNum, reduceNum);
  }

  class Master {
    var mapNum: int
    var reduceNum: int
    var list: seq<string>
    var fileNum: int
    var runningMapWork: seq<string>
    var curMapIndex: nat
    var finishedMapTask: map<string, int>
    var reduceIndex: seq<int>
    var runningReduceWork: seq<int>
    var curReduceIndex: nat
    var finishedReduceTask: map<int, int>
    ghost var files: seq<string>
    ghost var handedOut: seq<string>          // what AssignTask has answered, in order
    ghost var handedOutIndices: seq<int>      // what AssignReduceTask has answered
    ghost var mapTimers: nat
    ghost var mapRequeues: nat
    ghost var reduceTimers: nat
    ghost var reduceRequeues: nat

    ghost function MapBoard(): Board<string>
      reads this
    {
      Board(files, list, [], runningMapWork, curMapIndex, finishedMapTask.Keys, fileNum, mapTimers, mapRequeues)
    }

    ghost function ReduceBoard(): Board<int>
      reads this
    {
      Board(Indices(if reduceNum < 0 then 0 else reduceNum), reduceIndex, [], runningReduceWork, curReduceIndex,
            finishedReduceTask.Keys, reduceNum, reduceTimers, reduceRequeues)
    }

    ghost predicate Valid()
      reads this
    {
      && mapNum > 0 && reduceNum > 0 && fileNum == |files|
      && runningMapWork == handedOut && runningReduceWork == handedOutIndices
    }

    constructor (mapNum: int, reduceNum: int)
      requires mapNum > 0 && reduceNum > 0
      ensures Valid() && MapBoard() == NewBoard([]) && ReduceBoard() == NewBoard(Indices(reduceNum))
    {
      this.mapNum, this.reduceNum := mapNum, reduceNum;
      list, fileNum, runningMapWork, curMapIndex, finishedMapTask := [], 0, [], 0, map[];
      reduceIndex, runningReduceWork, curReduceIndex, finishedReduceTask := [], [], 0, map[];
      files, mapTimers, mapRequeues, reduceTimers, reduceRequeues := [], 0, 0, 0, 0;
      handedOut, handedOutIndices := [], [];
      new;
      for i := 0 to reduceNum
        modifies this`reduceIndex
        invariant reduceIndex == Indices(reduceNum)[..i]
      {
        reduceIndex := reduceIndex + [i];
      }
    }

    /** GetAllFile: the command line's names. */
    method GetAllFile(names: seq<string>)
      requires Valid() && MapBoard() == NewBoard([])
      modifies this`list, this`fileNum, this`files
      ensures Valid() && MapBoard() == NewBoard(names)
    {
      for i := 0 to |names|
        modifies this`list
        invariant list == names[..i]
      {
        list := list + [names[i]];
      }
      assert names[..|names|] == names;
      fileNum := |names|;
      files := names;
    }

    method IsMapDone() returns (done: bool)
      ensures done == AllReported(MapBoard())
    {
      done := |finishedMapTask.Keys| == fileNum;
    }

    /** assignTask with its waitMap: the last queued name, now running under a new timer.
        What is entered as running is, over all calls, exactly what was answered. */
    method AssignTask() returns (task: string)
      requires Valid()
      modifies this`list, this`runningMapWork, this`mapTimers, this`handedOut
      ensures Valid()
      ensures old(Enabled(MapBoard(), Take)) ==>
        && handedOut == old(handedOut) + [task] && runningMapWork == old(runningMapWork) + [task]
        && multiset(list) + multiset{task} == multiset(old(list))
      ensures handedOut == old(handedOut) <==> old(list) == [] || old(AllReported(MapBoard()))
      ensures old(Enabled(MapBoard(), Take)) ==>
        task == old(list)[|old(list)| - 1] && MapBoard() == DoLaunch(DoTake(old(MapBoard())))
      ensures !old(Enabled(MapBoard(), Take)) ==> task == NOTHING && MapBoard() == old(MapBoard())
    {
      var done := IsMapDone();
      if done { return NOTHING; }
      if |list| != 0 {
        task := list[|list| - 1];
        assert list == list[..|list| - 1] + [task];
        list := list[..|list| - 1];
        runningMapWork := runningMapWork + [task];
        handedOut := handedOut + [task];
        mapTimers := mapTimers + 1;
        return;
      }
      return NOTHING;
    }

    /** The end of waitMapTask, when a timer expires. */
    method MapTimeout()
      requires Valid() && mapTimers > 0 && curMapIndex < |runningMapWork|
      modifies this`list, this`curMapIndex, this`mapTimers, this`mapRequeues
      ensures Valid() && MapBoard() == DoExpire(old(MapBoard()))
    {
      if runningMapWork[curMapIndex] !in finishedMapTask {
        list := list + [runningMapWork[curMapIndex]];
        mapRequeues := mapRequeues + 1;
      }
      curMapIndex := curMapIndex + 1;
      mapTimers := mapTimers - 1;
    }

    method SetMapStat(filename: string)
      requires Valid()
      modifies this`finishedMapTask
      ensures Valid() && MapBoard() == DoReport(old(MapBoard()), filename)
    {
      finishedMapTask := finishedMapTask[filename := 1];
    }

    method Done() returns (done: bool)
      ensures done == AllReported(ReduceBoard())
    {
      done := |finishedReduceTask.Keys| == reduceNum;
    }

    /** assignReduceTask with its waitReduce. */
    method AssignReduceTask() returns (index: int)
      requires Valid()
      modifies this`reduceIndex, this`runningReduceWork, this`reduceTimers, this`handedOutIndices
      ensures Valid()
      ensures old(Enabled(ReduceBoard(), Take)) ==>
        && handedOutIndices == old(handedOutIndices) + [index]
        && runningReduceWork == old(runningReduceWork) + [index]
        && multiset(reduceIndex) + multiset{index} == multiset(old(reduceIndex))
      ensures handedOutIndices == old(handedOutIndices) <==> old(reduceIndex) == [] || old(AllReported(ReduceBoard()))
      ensures old(Enabled(ReduceBoard(), Take)) ==>
        index == old(reduceIndex)[|old(reduceIndex)| - 1] && ReduceBoard() == DoLaunch(DoTake(old(ReduceBoard())))
      ensures !old(Enabled(ReduceBoard(), Take)) ==> index == NO_INDEX && ReduceBoard() == old(ReduceBoard())
    {
      var done := Done();
      if done { return NO_INDEX; }
      if |reduceIndex| != 0 {
        index := reduceIndex[|reduceIndex| - 1];
        assert reduceIndex == reduceIndex[..|reduceIndex| - 1] + [index];
        reduceIndex := reduceIndex[..|reduceIndex| - 1];
        runningReduceWork := runningReduceWork + [index];
        handedOutIndices := handedOutIndices + [index];
        reduceTimers := reduceTimers + 1;
        return;
      }
      return NO_INDEX;
    }

    /** The end of waitReduceTask, when a timer expires. */
    method ReduceTimeout()
      requires Valid() && reduceTimers > 0 && curReduceIndex < |runningReduceWork|
      modifies this`reduceIndex, this`curReduceIndex, this`reduceTimers, this`reduceRequeues
      ensures Valid() && ReduceBoard() == DoExpire(old(ReduceBoard()))
    {
      if runningReduceWork[curReduceIndex] !in finishedReduceTask {
        reduceIndex := reduceIndex + [runningReduceWork[curReduceIndex]];
        reduceRequeues := reduceRequeues + 1;
      }
      curReduceIndex := curReduceIndex + 1;
      reduceTimers := reduceTimers - 1;
    }

    method SetReduceStat(index: int)
      requires Valid()
      modifies this`finishedReduceTask
      ensures Valid() && ReduceBoard() == DoReport(old(ReduceBoard()), index)
    {
      finishedReduceTask := finishedReduceTask[index := 1];
    }
  }
}
