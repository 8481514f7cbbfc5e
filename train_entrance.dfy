/** The train generator (LevelManagement/Train/TrainEntrance.cs): a countdown
    of one chunk-length of travel time; each time it runs out the entrance
    either spawns a chunk or leaves a gap, in runs of `numChunks` chunks
    and `numEmptyChunks` gaps. `dt` is the frame's Time.deltaTime. */
module TrainSpawner {
  /** Train.Length: the length of one chunk. */
  const TrainLength: real := 4.0

  /** The part of the entrance's state a firing of the countdown changes. */
  datatype Cycle = Cycle(remainingChunks: int, isSpawning: bool)

  /** The start of a level: not spawning, no chunk left in the run. */
  const Initial: Cycle := Cycle(0, false)

  /** One firing: spawn a chunk if this is a spawning run, count the chunk
      off, and at the end of the run switch between spawning and gaps. The
      boolean says whether a chunk was spawned. */
  function Fire(c: Cycle, numChunks: int, numEmptyChunks: int): (r: (Cycle, bool))
    ensures r.1 == c.isSpawning
    ensures c.remainingChunks > 1 ==> r.0 == Cycle(c.remainingChunks - 1, c.isSpawning)
    ensures c.remainingChunks <= 1 ==>
              r.0.isSpawning == !c.isSpawning &&
              r.0.remainingChunks == (if r.0.isSpawning then numChunks else numEmptyChunks)
  {
    var remaining := c.remainingChunks - 1;
    if remaining <= 0 then
      var spawning := !c.isSpawning;
      (Cycle(if spawning then numChunks else numEmptyChunks, spawning), c.isSpawning)
    else (Cycle(remaining, c.isSpawning), c.isSpawning)
  }

  /** The spawns of `k` firings in a row and the state after them. */
  function Firings(c: Cycle, k: nat, numChunks: int, numEmptyChunks: int): (Cycle, seq<bool>)
    decreases k
  {
    if k == 0 then (c, [])
    else
      var first := Fire(c, numChunks, numEmptyChunks);
      var rest := Firings(first.0, k - 1, numChunks, numEmptyChunks);
      (rest.0, [first.1] + rest.1)
  }

  function Repeat(b: bool, n: nat): (r: seq<bool>)
    ensures |r| == n && forall i :: 0 <= i < n ==> r[i] == b
  {
    if n == 0 then [] else [b] + Repeat(b, n - 1)
  }

  /** The first firing of a level spawns nothing and starts a spawning run
      of numChunks. */
  lemma FirstFiringSpawnsNothing(numChunks: int, numEmptyChunks: int)
    ensures Fire(Initial, numChunks, numEmptyChunks) == (Cycle(numChunks, true), false)
  {
  }

  /** A run with r chunks left gives r firings of the same kind, then
      switches to a full run of the other kind. */
  lemma {:induction false} RunOut(r: nat, spawning: bool, numChunks: int, numEmptyChunks: int)
    requires r >= 1
    ensures Firings(Cycle(r, spawning), r, numChunks, numEmptyChunks) ==
            (Cycle(if spawning then numEmptyChunks else numChunks, !spawning), Repeat(spawning, r))
  {
    if r > 1 {
      assert Fire(Cycle(r, spawning), numChunks, numEmptyChunks) == (Cycle(r - 1, spawning), spawning);
      RunOut(r - 1, spawning, numChunks, numEmptyChunks);
    }
  }

  /** Firings compose: a firings then b firings are a + b firings. */
  lemma {:induction false} FiringsSplit(c: Cycle, a: nat, b: nat, numChunks: int, numEmptyChunks: int)
    ensures var first := Firings(c, a, numChunks, numEmptyChunks);
            var second := Firings(first.0, b, numChunks, numEmptyChunks);
            Firings(c, a + b, numChunks, numEmptyChunks) == (second.0, first.1 + second.1)
    decreases a
  {
    if a > 0 {
      var f := Fire(c, numChunks, numEmptyChunks);
      FiringsSplit(f.0, a - 1, b, numChunks, numEmptyChunks);
      var first := Firings(f.0, a - 1, numChunks, numEmptyChunks);
      var second := Firings(first.0, b, numChunks, numEmptyChunks);
      assert Firings(c, a, numChunks, numEmptyChunks) == (first.0, [f.1] + first.1);
      var whole := Firings(f.0, (a - 1) + b, numChunks, numEmptyChunks);
      assert Firings(c, a + b, numChunks, numEmptyChunks) == (whole.0, [f.1] + whole.1);
      assert [f.1] + (first.1 + second.1) == ([f.1] + first.1) + second.1;
    } else {
      assert [] + Firings(c, b, numChunks, numEmptyChunks).1 == Firings(c, b, numChunks, numEmptyChunks).1;
    }
  }

  /** With both counts at least one, the firings repeat as exactly numChunks
      spawns followed by exactly numEmptyChunks gaps. */
  lemma TrainPattern(numChunks: int, numEmptyChunks: int)
    requires numChunks >= 1 && numEmptyChunks >= 1
    ensures Firings(Cycle(numChunks, true), numChunks + numEmptyChunks, numChunks, numEmptyChunks) ==
            (Cycle(numChunks, true), Repeat(true, numChunks) + Repeat(false, numEmptyChunks))
  {
    FiringsSplit(Cycle(numChunks, true), numChunks, numEmptyChunks, numChunks, numEmptyChunks);
    RunOut(numChunks, true, numChunks, numEmptyChunks);
    RunOut(numEmptyChunks, false, numChunks, numEmptyChunks);
  }

  class TrainEntrance {
    const numChunks: int
    const speed: real
    const numEmptyChunks: int
    var counter: real
    var remainingChunks: int
    var isSpawning: bool

    function State(): Cycle
      reads this
    {
      Cycle(remainingChunks, isSpawning)
    }

    /** The editor's configuration, with the field initialisers. */
    constructor (numChunks: int, speed: real, numEmptyChunks: int)
      ensures this.numChunks == numChunks && this.speed == speed && this.numEmptyChunks == numEmptyChunks
      ensures counter == 0.0 && State() == Initial
    {
      this.numChunks := numChunks;
      this.speed := speed;
      this.numEmptyChunks := numEmptyChunks;
      counter := 0.0;
      remainingChunks := 0;
      isSpawning := false;
    }

    /** Update; `spawned` says whether a chunk was instantiated. */
    method Update(dt: real) returns (spawned: bool)
      requires speed != 0.0
      modifies this`counter, this`remainingChunks, this`isSpawning
      ensures old(counter) - dt > 0.0 ==>
                !spawned && counter == old(counter) - dt && State() == old(State())
      ensures old(counter) - dt <= 0.0 ==>
                counter == TrainLength / speed &&
                (State(), spawned) == Fire(old(State()), numChunks, numEmptyChunks)
      ensures spawned ==> old(isSpawning)
    {
      spawned := false;
      counter := counter - dt;
      if counter <= 0.0 {
        if isSpawning {
          spawned := true;
        }
        remainingChunks := remainingChunks - 1;
        if remainingChunks <= 0 {
          isSpawning := !isSpawning;
          remainingChunks := if isSpawning then numChunks else numEmptyChunks;
        }
        counter := TrainLength / speed;
      }
    }
  }
}
