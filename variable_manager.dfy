/** The random parts of a level (LevelManagement/VariableManager.cs): each
    variable turn goes left or right, and each of the three variable colour
    sets is shuffled by drawing its colours without replacement. The random
    numbers are inputs: `values[i]` is the Random.value of turn i, and
    `picks[j]` the Random.Range(0, count) of draw j, below the count of
    colours still to draw. */
module VariableLevel {
  import Wire
  import UnityColors
  type Color = UnityColors.Color

  datatype RaceColor = White | Black | Red | Green | Blue | Pink | Yellow | Orange | Purple

  datatype RaceTurn = None | Left | Right

  /** The enum value of a colour. */
  function ColorIndex(c: RaceColor): (i: nat)
    ensures i < 9
  {
    match c
    case White => 0
    case Black => 1
    case Red => 2
    case Green => 3
    case Blue => 4
    case Pink => 5
    case Yellow => 6
    case Orange => 7
    case Purple => 8
  }

  /** raceColorValues: Unity's named colours where the source uses one,
      otherwise the given RGB, opaque. */
  const RaceColorValues: seq<Color> := [
    UnityColors.White, UnityColors.Black, UnityColors.Red, UnityColors.Green,
    UnityColors.Rgb(0.0, 0.5, 1.0), UnityColors.Rgb(1.0, 0.0, 1.0), UnityColors.Yellow,
    UnityColors.Rgb(1.0, 0.5, 0.0), UnityColors.Rgb(0.5, 0.0, 1.0)]

  function ColorValue(c: RaceColor): Color
  {
    RaceColorValues[ColorIndex(c)]
  }

  /** One value per RaceColor, in enum order, no two alike. */
  lemma ColorValuesDistinct(c: RaceColor, d: RaceColor)
    ensures |RaceColorValues| == 9
    ensures ColorValue(c) == ColorValue(d) <==> c == d
  {
  }

  /** A variable turn: left with Random.value below one half. */
  function Turn(value: real): (t: RaceTurn)
    ensures t != None
    ensures t == Left <==> value < 0.5
  {
    if value < 0.5 then Left else Right
  }

  /** List.RemoveAt. */
  function RemoveAt<T>(s: seq<T>, k: nat): (r: seq<T>)
    requires k < |s|
    ensures |r| == |s| - 1
    ensures multiset(r) + multiset{s[k]} == multiset(s)
  {
    assert s == s[..k] + [s[k]] + s[k + 1..];
    s[..k] + s[k + 1..]
  }

  /** Random.Range draws for a set of n colours: draw j lies below n - j. */
  predicate ValidPicks(n: nat, picks: seq<nat>)
  {
    |picks| == n && forall j :: 0 <= j < n ==> picks[j] < n - j
  }

  /** The colours of a set in the order the draws take them. */
  function DrawOrder(options: seq<RaceColor>, picks: seq<nat>): (order: seq<RaceColor>)
    requires ValidPicks(|options|, picks)
    ensures |order| == |options|
    decreases |options|
  {
    if options == [] then []
    else
      assert ValidPicks(|options| - 1, picks[1..]) by {
        forall j | 0 <= j < |options| - 1 ensures picks[1..][j] < |options| - 1 - j {
          assert picks[1..][j] == picks[j + 1];
        }
      }
      [options[picks[0]]] + DrawOrder(RemoveAt(options, picks[0]), picks[1..])
  }

  /** The draw order is a permutation of the set: every colour is drawn
      exactly as often as it occurs. */
  lemma {:induction false} DrawOrderPermutes(options: seq<RaceColor>, picks: seq<nat>)
    requires ValidPicks(|options|, picks)
    ensures multiset(DrawOrder(options, picks)) == multiset(options)
    decreases |options|
  {
    if options != [] {
      var rest := RemoveAt(options, picks[0]);
      assert ValidPicks(|rest|, picks[1..]) by {
        forall j | 0 <= j < |rest| ensures picks[1..][j] < |rest| - j {
          assert picks[1..][j] == picks[j + 1];
        }
      }
      DrawOrderPermutes(rest, picks[1..]);
    }
  }

  function Mapped(cs: seq<RaceColor>): (colors: seq<Color>)
    ensures |colors| == |cs| && forall i :: 0 <= i < |cs| ==> colors[i] == ColorValue(cs[i])
  {
    seq(|cs|, i requires 0 <= i < |cs| => ColorValue(cs[i]))
  }

  lemma MappedCons(c: RaceColor, rest: seq<RaceColor>)
    ensures Mapped([c] + rest) == [ColorValue(c)] + Mapped(rest)
  {
    var l, r := Mapped([c] + rest), [ColorValue(c)] + Mapped(rest);
    assert |l| == |r|;
    forall i | 0 <= i < |l| ensures l[i] == r[i] {
      if i > 0 {
        assert ([c] + rest)[i] == rest[i - 1];
      }
    }
  }

  /** One draw: the picked colour first, then the draws from the rest. */
  lemma DrawStep(options: seq<RaceColor>, picks: seq<nat>)
    requires ValidPicks(|options|, picks) && options != []
    ensures ValidPicks(|options| - 1, picks[1..])
    ensures Mapped(DrawOrder(options, picks)) ==
            [ColorValue(options[picks[0]])] + Mapped(DrawOrder(RemoveAt(options, picks[0]), picks[1..]))
  {
    var rest := RemoveAt(options, picks[0]);
    assert ValidPicks(|rest|, picks[1..]) by {
      forall j | 0 <= j < |rest| ensures picks[1..][j] < |rest| - j {
        assert picks[1..][j] == picks[j + 1];
      }
    }
    assert DrawOrder(options, picks) == [options[picks[0]]] + DrawOrder(rest, picks[1..]);
    MappedCons(options[picks[0]], DrawOrder(rest, picks[1..]));
  }

  lemma MappedConcat(a: seq<RaceColor>, b: seq<RaceColor>)
    ensures Mapped(a + b) == Mapped(a) + Mapped(b)
  {
    assert |Mapped(a + b)| == |Mapped(a) + Mapped(b)|;
    forall i | 0 <= i < |a + b| ensures Mapped(a + b)[i] == (Mapped(a) + Mapped(b))[i] {
      if i >= |a| {
        assert (a + b)[i] == b[i - |a|];
      }
    }
  }

  /** Taking one option out takes its colour value out of the multiset. */
  lemma MappedRemoveAt(options: seq<RaceColor>, k: nat)
    requires k < |options|
    ensures multiset(Mapped(options)) == multiset{ColorValue(options[k])} + multiset(Mapped(RemoveAt(options, k)))
  {
    var before, after := options[..k], options[k + 1..];
    assert RemoveAt(options, k) == before + after;
    MappedConcat(before, after);
    assert options == (before + [options[k]]) + after;
    assert Mapped([options[k]]) == [ColorValue(options[k])];
    MappedConcat(before, [options[k]]);
    MappedConcat(before + [options[k]], after);
  }

  /** Each shuffled set holds the colour values of its options, each used
      exactly once. */
  lemma {:induction false} ShuffleUsesEachOnce(options: seq<RaceColor>, picks: seq<nat>)
    requires ValidPicks(|options|, picks)
    ensures multiset(Mapped(DrawOrder(options, picks))) == multiset(Mapped(options))
    decreases |options|
  {
    if options != [] {
      DrawStep(options, picks);
      ShuffleUsesEachOnce(RemoveAt(options, picks[0]), picks[1..]);
      MappedRemoveAt(options, picks[0]);
    }
  }

  /** A suffix that starts with x and goes on with rest. */
  lemma SplitHead<T>(s: seq<T>, j: nat, x: T, rest: seq<T>)
    requires j <= |s| && s[j..] == [x] + rest
    ensures j < |s| && s[j] == x && s[j + 1..] == rest
  {
    assert s[j + 1..] == s[j..][1..];
  }

  /** The selection loop of Awake for one set: draws until no option is
      left, so exactly |set| times. */
  method Shuffle(colorSet: seq<RaceColor>, picks: seq<nat>) returns (colors: array<Color>)
    requires ValidPicks(|colorSet|, picks)
    ensures fresh(colors) && colors.Length == |colorSet|
    ensures colors[..] == Mapped(DrawOrder(colorSet, picks))
  {
    ghost var order := Mapped(DrawOrder(colorSet, picks));
    var options := colorSet;
    var draws := picks;
    colors := new Color[|options|](_ => UnityColors.Black);
    var j := 0;
    while |options| > 0
      invariant 0 <= j <= |colorSet| && |options| == |colorSet| - j && colors.Length == |colorSet|
      invariant ValidPicks(|options|, draws)
      invariant Mapped(DrawOrder(options, draws)) == order[j..]
      invariant forall k :: 0 <= k < j ==> colors[k] == order[k]
      decreases |options|
    {
      DrawStep(options, draws);
      var selection := draws[0];
      var color := ColorValue(options[selection]);
      ghost var next := Mapped(DrawOrder(RemoveAt(options, selection), draws[1..]));
      SplitHead(order, j, color, next);
      colors[j] := color;
      options := RemoveAt(options, selection);
      draws := draws[1..];
      j := j + 1;
    }
  }

  class VariableManager {
    const numVariableTurns: nat
    const variableColor1: seq<RaceColor>
    const variableColor2: seq<RaceColor>
    const variableColor3: seq<RaceColor>
    var raceTurns: seq<RaceTurn>
    var raceColors: seq<seq<Color>>

    function AllSets(): seq<seq<RaceColor>>
    {
      [variableColor1, variableColor2, variableColor3]
    }

    constructor (numVariableTurns: nat, variableColor1: seq<RaceColor>, variableColor2: seq<RaceColor>, variableColor3: seq<RaceColor>)
      ensures this.numVariableTurns == numVariableTurns
      ensures AllSets() == [variableColor1, variableColor2, variableColor3]
      ensures raceTurns == [] && raceColors == []
    {
      this.numVariableTurns := numVariableTurns;
      this.variableColor1 := variableColor1;
      this.variableColor2 := variableColor2;
      this.variableColor3 := variableColor3;
      raceTurns := [];
      raceColors := [];
    }

    /** Awake. */
    method Awake(values: seq<real>, picks: seq<seq<nat>>)
      requires |values| == numVariableTurns && |picks| == 3
      requires forall i :: 0 <= i < 3 ==> ValidPicks(|AllSets()[i]|, picks[i])
      modifies this`raceTurns, this`raceColors
      ensures |raceTurns| == numVariableTurns
      ensures forall i :: 0 <= i < numVariableTurns ==> raceTurns[i] == Turn(values[i])
      ensures |raceColors| == 3
      ensures forall i :: 0 <= i < 3 ==> raceColors[i] == Mapped(DrawOrder(AllSets()[i], picks[i]))
      ensures forall i :: 0 <= i < 3 ==> multiset(raceColors[i]) == multiset(Mapped(AllSets()[i]))
    {
      var turns := new RaceTurn[numVariableTurns];
      var i := 0;
      while i < turns.Length
        invariant 0 <= i <= turns.Length
        invariant forall k :: 0 <= k < i ==> turns[k] == Turn(values[k])
      {
        turns[i] := if values[i] < 0.5 then Left else Right;
        i := i + 1;
      }
      raceTurns := turns[..];
      var sets := AllSets();
      raceColors := [];
      i := 0;
      while i < 3
        invariant 0 <= i <= 3 && |raceColors| == i && sets == AllSets()
        invariant |raceTurns| == numVariableTurns && forall k :: 0 <= k < numVariableTurns ==> raceTurns[k] == Turn(values[k])
        invariant forall k :: 0 <= k < i ==> raceColors[k] == Mapped(DrawOrder(sets[k], picks[k]))
      {
        var colors := Shuffle(sets[i], picks[i]);
        raceColors := raceColors + [colors[..]];
        i := i + 1;
      }
      forall k | 0 <= k < 3
        ensures multiset(raceColors[k]) == multiset(Mapped(sets[k]))
      {
        ShuffleUsesEachOnce(sets[k], picks[k]);
      }
    }

    /** GetVariableTurn; `None` where the index is out of range and the
        lookup throws. */
    function GetVariableTurn(turnIndex: int): (t: Wire.Option<RaceTurn>)
      reads this
      ensures t.Some? <==> 0 <= turnIndex < |raceTurns|
      ensures t.Some? ==> t.value == raceTurns[turnIndex]
    {
      if 0 <= turnIndex < |raceTurns| then Wire.Some(raceTurns[turnIndex]) else Wire.None
    }

    function GetVariableColor(setIndex: int, colorIndex: int): (c: Wire.Option<Color>)
      reads this
      ensures c.Some? <==> 0 <= setIndex < |raceColors| && 0 <= colorIndex < |raceColors[setIndex]|
      ensures c.Some? ==> c.value == raceColors[setIndex][colorIndex]
    {
      if 0 <= setIndex < |raceColors| && 0 <= colorIndex < |raceColors[setIndex]|
      then Wire.Some(raceColors[setIndex][colorIndex])
      else Wire.None
    }
  }
}
