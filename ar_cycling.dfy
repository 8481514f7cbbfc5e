/** What the two AR marker scripts share (LevelManagement/ArMarkerToggle.cs
    and LevelManagement/ArTagToggle.cs): the four outline colours and the
    step to the next or the previous entry of a table, wrapping round. */
module ArCycling {
  import UnityColors

  /** colors: white, red, blue (0, 0.5, 1) and green. */
  const MarkerColors: seq<UnityColors.Color> :=
    [UnityColors.White, UnityColors.Red, UnityColors.Rgb(0.0, 0.5, 1.0), UnityColors.Green]

  /** (i + 1) % n: the next entry, the first after the last. */
  function Succ(i: int, n: int): (j: int)
    requires 0 <= i < n
    ensures 0 <= j < n
    ensures j == if i == n - 1 then 0 else i + 1
  {
    (i + 1) % n
  }

  /** (i + n - 1) % n: the previous entry, the last before the first. */
  function Pred(i: int, n: int): (j: int)
    requires 0 <= i < n
    ensures 0 <= j < n
    ensures j == if i == 0 then n - 1 else i - 1
  {
    (i + n - 1) % n
  }

  /** A step back and a step on undo each other. */
  lemma SuccPredInverse(i: int, n: int)
    requires 0 <= i < n
    ensures Succ(Pred(i, n), n) == i
    ensures Pred(Succ(i, n), n) == i
  {
  }

  /** k steps on: where a selected marker's pattern ends up after k left
      clicks, each of which ArMarkerToggle.Update specifies as one Succ. */
  function Advance(i: int, k: nat, n: int): (j: int)
    requires 0 <= i < n
    ensures 0 <= j < n
  {
    if k == 0 then i else Succ(Advance(i, k - 1, n), n)
  }

  /** Up to a full turn, k steps on from i is i + k, less n once the
      steps wrap past the end: (i + k) mod n. */
  lemma {:induction false} AdvanceWraps(i: int, k: nat, n: int)
    requires 0 <= i < n && k <= n
    ensures Advance(i, k, n) == if i + k < n then i + k else i + k - n
  {
    if k > 0 {
      AdvanceWraps(i, k - 1, n);
    }
  }

  /** A table's length in steps comes back to the same entry. */
  lemma FullTurn(i: int, n: int)
    requires 0 <= i < n
    ensures Advance(i, n, n) == i
  {
    AdvanceWraps(i, n, n);
  }
}
