/** The autograder's level progression (Autograder/AutograderManager.cs): a
    level is a series of tasks completed in order, each worth points; the
    level finishes once, recording one score, and the run then moves to the
    next level or ends. The static part (the level index and the score list
    shared by every level of a run) is the `AutograderRun` object; each
    level's `AutograderManager` shares it. A task is named by its position
    among the level's tasks. `now` is the frame's Time.time. */
module Autograder {
  import opened Wire

  /** The car counts as stopped below this speed (Constants.MaxStopSeed). */
  const MaxStopSeed: real := 0.02

  datatype LevelInfo = LevelInfo(maxPoints: real, timeLimit: real, isRequired: bool, doNotProceedUntilStopped: bool)

  datatype LevelScore = LevelScore(score: real, time: real)

  /** What FinishLevel hands to the level manager. */
  datatype Next = FinishAutograder | NextAutograderLevel | SecondCallIgnored

  /** What CompleteTask did. `Thrown`: there is no current task to compare
      with, every task being done, and the CurTask lookup throws. */
  datatype TaskOutcome = NotCurrent | Advanced | LevelDone(next: Next) | AwaitingStop | Thrown

  /** The points of the first n tasks. */
  function Earned(points: seq<real>, n: nat): real
    requires n <= |points|
  {
    if n == 0 then 0.0 else Earned(points, n - 1) + points[n - 1]
  }

  /** The run ends on the last level and on a required level scored below
      its maximum; otherwise it proceeds to the next level. */
  function Decide(levelIndex: nat, levelCount: nat, info: LevelInfo, score: real): (n: Next)
    requires levelIndex < levelCount
    ensures n != SecondCallIgnored
    ensures n == NextAutograderLevel ==> levelIndex + 1 < levelCount
    ensures n == FinishAutograder <==> levelIndex == levelCount - 1 || (info.isRequired && score < info.maxPoints)
  {
    if levelIndex == levelCount - 1 || (info.isRequired && score < info.maxPoints) then FinishAutograder
    else NextAutograderLevel
  }

  /** The time recorded: since the start, or Time.time when the level never
      started. */
  function Elapsed(startTime: Option<real>, now: real): real
  {
    if startTime.Some? then now - startTime.value else now
  }

  class AutograderRun {
    const levels: seq<LevelInfo>
    var levelIndex: nat
    var levelScores: seq<LevelScore>

    predicate Valid()
      reads this
    {
      levelIndex < |levels|
    }

    constructor (levels: seq<LevelInfo>)
      requires |levels| > 0
      ensures Valid() && this.levels == levels && levelIndex == 0 && levelScores == []
    {
      this.levels := levels;
      levelIndex := 0;
      levelScores := [];
    }

    /** ResetAutograder: back to the first level with no scores, which is a
        valid run whenever there is a level at all, so a valid run stays
        valid. */
    method ResetAutograder()
      modifies this
      ensures levelIndex == 0 && levelScores == []
      ensures Valid() <==> |levels| > 0
      ensures old(Valid()) ==> Valid()
    {
      levelIndex := 0;
      levelScores := [];
    }

    function LevelInfo(): LevelInfo
      requires Valid()
      reads this
    {
      levels[levelIndex]
    }
  }

  class AutograderManager {
    const run: AutograderRun
    /** The points of each task, in order. */
    const points: seq<real>
    var taskIndex: nat
    var levelScore: real
    var startTime: Option<real>
    var wasFinishedCalled: bool
    /** The tasks currently enabled. */
    var enabled: set<nat>

    /** The score is the points of the tasks done, and at most the current
        task is enabled. */
    predicate Valid()
      reads this, run
    {
      run.Valid() && taskIndex <= |points| && levelScore == Earned(points, taskIndex) &&
      enabled <= {taskIndex}
    }

    /** Awake, with the field initialisers. */
    constructor (run: AutograderRun, points: seq<real>)
      requires run.Valid()
      ensures Valid() && this.run == run && this.points == points
      ensures taskIndex == 0 && levelScore == 0.0 && startTime.None? && !wasFinishedCalled && enabled == {}
    {
      this.run := run;
      this.points := points;
      taskIndex := 0;
      levelScore := 0.0;
      startTime := None;
      wasFinishedCalled := false;
      enabled := {};
    }

    /** Start: the first task is enabled; with no task at all the lookup
        throws. */
    method Start() returns (thrown: bool)
      requires Valid()
      modifies this`enabled
      ensures Valid() && thrown == (taskIndex >= |points|)
      ensures !thrown ==> enabled == {taskIndex}
      ensures thrown ==> enabled == old(enabled)
    {
      if taskIndex >= |points| {
        return true;
      }
      enabled := {taskIndex};
      return false;
    }

    method HandleStart(now: real)
      modifies this`startTime
      ensures startTime == Some(now)
    {
      startTime := Some(now);
    }

    /** HandleError: a score is recorded, but the level is not marked
        finished. */
    method HandleError(now: real)
      modifies run`levelScores
      ensures run.levelScores == old(run.levelScores) + [LevelScore(levelScore, Elapsed(startTime, now))]
    {
      run.levelScores := run.levelScores + [LevelScore(levelScore, Elapsed(startTime, now))];
    }

    /** FinishLevel: only the first call records a score and decides. */
    method FinishLevel(now: real) returns (next: Next)
      requires Valid()
      modifies this`wasFinishedCalled, run
      ensures Valid() && wasFinishedCalled
      ensures old(wasFinishedCalled) ==>
                next == SecondCallIgnored && run.levelIndex == old(run.levelIndex) && run.levelScores == old(run.levelScores)
      ensures !old(wasFinishedCalled) ==>
                next == Decide(old(run.levelIndex), |run.levels|, old(run.LevelInfo()), levelScore) &&
                run.levelScores == old(run.levelScores) + [LevelScore(levelScore, Elapsed(startTime, now))] &&
                run.levelIndex == old(run.levelIndex) + (if next == NextAutograderLevel then 1 else 0)
    {
      if wasFinishedCalled {
        return SecondCallIgnored;
      }
      wasFinishedCalled := true;
      run.levelScores := run.levelScores + [LevelScore(levelScore, Elapsed(startTime, now))];
      next := Decide(run.levelIndex, |run.levels|, run.LevelInfo(), levelScore);
      if next == NextAutograderLevel {
        run.levelIndex := run.levelIndex + 1;
      }
    }

    method HandleFailure(now: real) returns (next: Next)
      requires Valid()
      modifies this`wasFinishedCalled, run
      ensures Valid() && wasFinishedCalled
      ensures old(wasFinishedCalled) ==>
                next == SecondCallIgnored && run.levelIndex == old(run.levelIndex) && run.levelScores == old(run.levelScores)
      ensures !old(wasFinishedCalled) ==>
                next == Decide(old(run.levelIndex), |run.levels|, old(run.LevelInfo()), levelScore) &&
                run.levelScores == old(run.levelScores) + [LevelScore(levelScore, Elapsed(startTime, now))] &&
                run.levelIndex == old(run.levelIndex) + (if next == NextAutograderLevel then 1 else 0)
    {
      next := FinishLevel(now);
    }

    /** CompleteTask for task `task`. */
    method CompleteTask(task: nat, now: real) returns (outcome: TaskOutcome)
      requires Valid()
      modifies this`taskIndex, this`levelScore, this`enabled, this`wasFinishedCalled, run
      ensures Valid()
      ensures outcome == Thrown <==> old(taskIndex) >= |points|
      ensures outcome == NotCurrent <==> old(taskIndex) < |points| && task != old(taskIndex)
      ensures outcome in {Thrown, NotCurrent} ==>
                taskIndex == old(taskIndex) && levelScore == old(levelScore) && enabled == old(enabled) &&
                wasFinishedCalled == old(wasFinishedCalled) &&
                run.levelIndex == old(run.levelIndex) && run.levelScores == old(run.levelScores)
      ensures old(taskIndex) < |points| && task == old(taskIndex) ==>
                taskIndex == old(taskIndex) + 1 && levelScore == old(levelScore) + points[task]
      ensures outcome == Advanced <==> task == old(taskIndex) && old(taskIndex) + 1 < |points|
      ensures outcome == Advanced ==> enabled == {taskIndex}
      ensures outcome == AwaitingStop <==>
                task == old(taskIndex) && old(taskIndex) + 1 == |points| && old(run.LevelInfo()).doNotProceedUntilStopped
      ensures outcome.LevelDone? <==>
                task == old(taskIndex) && old(taskIndex) + 1 == |points| && !old(run.LevelInfo()).doNotProceedUntilStopped
      ensures outcome.LevelDone? || outcome == AwaitingStop ==> enabled == old(enabled) - {task}
      ensures outcome == AwaitingStop ==>
                wasFinishedCalled == old(wasFinishedCalled) &&
                run.levelIndex == old(run.levelIndex) && run.levelScores == old(run.levelScores)
      // The last task finishes the level, as FinishLevel does.
      ensures outcome.LevelDone? ==> wasFinishedCalled
      ensures outcome.LevelDone? && old(wasFinishedCalled) ==>
                outcome.next == SecondCallIgnored &&
                run.levelIndex == old(run.levelIndex) && run.levelScores == old(run.levelScores)
      ensures outcome.LevelDone? && !old(wasFinishedCalled) ==>
                outcome.next == Decide(old(run.levelIndex), |run.levels|, old(run.LevelInfo()), levelScore) &&
                run.levelScores == old(run.levelScores) + [LevelScore(levelScore, Elapsed(startTime, now))] &&
                run.levelIndex == old(run.levelIndex) + (if outcome.next == NextAutograderLevel then 1 else 0)
    {
      if taskIndex >= |points| {
        return Thrown;
      }
      if task != taskIndex {
        return NotCurrent;
      }
      enabled := enabled - {task};
      levelScore := levelScore + points[task];
      taskIndex := taskIndex + 1;
      if taskIndex >= |points| {
        if !run.LevelInfo().doNotProceedUntilStopped {
          var next := FinishLevel(now);
          return LevelDone(next);
        }
        return AwaitingStop;
      }
      enabled := {taskIndex};
      return Advanced;
    }

    /** Update: the level finishes on running out of time, or when every
        task is done, the level demands a stop and the car has stopped. */
    method Update(now: real, speed: real) returns (finished: Option<Next>)
      requires Valid()
      modifies this`wasFinishedCalled, run
      ensures Valid()
      ensures finished.Some? <==>
                (startTime.Some? &&
                 (now - startTime.value > old(run.LevelInfo()).timeLimit ||
                  (old(run.LevelInfo()).doNotProceedUntilStopped && taskIndex >= |points| && speed < MaxStopSeed)))
      ensures finished.None? ==>
                wasFinishedCalled == old(wasFinishedCalled) &&
                run.levelIndex == old(run.levelIndex) && run.levelScores == old(run.levelScores)
      ensures finished.Some? ==> wasFinishedCalled
      ensures finished.Some? && old(wasFinishedCalled) ==>
                finished.value == SecondCallIgnored &&
                run.levelIndex == old(run.levelIndex) && run.levelScores == old(run.levelScores)
      ensures finished.Some? && !old(wasFinishedCalled) ==>
                finished.value == Decide(old(run.levelIndex), |run.levels|, old(run.LevelInfo()), levelScore) &&
                run.levelScores == old(run.levelScores) + [LevelScore(levelScore, Elapsed(startTime, now))] &&
                run.levelIndex == old(run.levelIndex) + (if finished.value == NextAutograderLevel then 1 else 0)
    {
      finished := None;
      if startTime.Some? {
        var elapsedTime := now - startTime.value;
        var info := run.LevelInfo();
        if elapsedTime > info.timeLimit || (info.doNotProceedUntilStopped && taskIndex >= |points| && speed < MaxStopSeed) {
          var next := FinishLevel(now);
          finished := Some(next);
        }
      }
    }
  }
}
