/** The best-time records (Static/BestTimes.cs): one best time per level,
    kept in memory and persisted in the player's preferences under the
    level's name, with "no time yet" written as float.MaxValue. */
module BestTimeRecords {
  import opened Prefs
  import Wire

  datatype Level = P1Challenge | P1ChallengeHard | Lab5B | Lab6 | None

  /** The levels with a record: the enum values 0 to 3. */
  const LevelCount: nat := 4

  /** The enum value of a level (its GetHashCode). */
  function Index(l: Level): (i: nat)
    ensures i <= LevelCount && (i == LevelCount <==> l == None)
  {
    match l
    case P1Challenge => 0
    case P1ChallengeHard => 1
    case Lab5B => 2
    case Lab6 => 3
    case None => 4
  }

  /** The level of an enum value, as the (Level) cast of a record index. */
  function LevelOf(i: nat): (l: Level)
    requires i < LevelCount
    ensures Index(l) == i
  {
    [P1Challenge, P1ChallengeHard, Lab5B, Lab6][i]
  }

  /** Level.ToString, the preference key of a level. */
  function Key(l: Level): string
  {
    match l
    case P1Challenge => "P1Challenge"
    case P1ChallengeHard => "P1ChallengeHard"
    case Lab5B => "Lab5B"
    case Lab6 => "Lab6"
    case None => "None"
  }

  lemma KeysDistinct(l: Level, m: Level)
    ensures Key(l) == Key(m) <==> l == m
  {
  }

  /** The "not yet complete" time. */
  const MaxValue: real := Wire.FloatMaxValue

  const FullNames: seq<string> := [
    "Phase 1 Challenge: Cone Slaloming",
    "Phase 1 Challenge: Cone Slaloming (Hard)",
    "Lab 5B: LIDAR Wall following",
    "Lab 6: Sensor Fusion"]

  /** LoadTimes: each record read back, a missing key giving MaxValue. */
  function Loaded(store: map<string, Pref>): (times: seq<real>)
    ensures |times| == LevelCount
    ensures forall i :: 0 <= i < LevelCount ==> times[i] == FloatOr(store, Key(LevelOf(i)), MaxValue)
  {
    seq(LevelCount, i requires 0 <= i < LevelCount => FloatOr(store, Key(LevelOf(i)), MaxValue))
  }

  /** Clear: every level's key set to MaxValue. */
  function Cleared(store: map<string, Pref>, n: nat): (s: map<string, Pref>)
    requires n <= LevelCount
  {
    if n == 0 then store else Cleared(store, n - 1)[Key(LevelOf(n - 1)) := FloatPref(MaxValue)]
  }

  /** After clearing, every record loads as "not yet complete". */
  lemma {:induction false} LoadAfterClear(store: map<string, Pref>, n: nat, i: nat)
    requires i < n <= LevelCount
    ensures FloatOr(Cleared(store, n), Key(LevelOf(i)), MaxValue) == MaxValue
  {
    if i < n - 1 {
      LoadAfterClear(store, n - 1, i);
      KeysDistinct(LevelOf(i), LevelOf(n - 1));
    }
  }

  lemma ClearedLoadsEmpty(store: map<string, Pref>)
    ensures Loaded(Cleared(store, LevelCount)) == seq(LevelCount, _ => MaxValue)
  {
    forall i | 0 <= i < LevelCount
      ensures Loaded(Cleared(store, LevelCount))[i] == MaxValue
    {
      LoadAfterClear(store, LevelCount, i);
    }
  }

  function Min(a: real, b: real): real
  {
    if a <= b then a else b
  }

  /** What UpdateBestTime leaves in memory and in the store; `None` for the
      None level, whose index is past the table and throws before anything
      changes. Corrected: the store receives the new best time. */
  function Record(times: seq<real>, store: map<string, Pref>, l: Level, time: real): (r: Outcome)
    requires |times| == LevelCount
    ensures r.Recorded? <==> l != None
    ensures r.Recorded? ==> |r.times| == LevelCount
  {
    if l == None then Thrown
    else
      var best := Min(times[Index(l)], time);
      Recorded(times[Index(l) := best], store[Key(l) := FloatPref(best)])
  }

  datatype Outcome = Recorded(times: seq<real>, store: map<string, Pref>) | Thrown

  /** UpdateBestTime as written: the store receives the time just run,
      whether or not it beat the record. */
  function RecordAsWritten(times: seq<real>, store: map<string, Pref>, l: Level, time: real): (r: Outcome)
    requires |times| == LevelCount
    ensures r.Recorded? <==> l != None
  {
    if l == None then Thrown
    else
      Recorded(times[Index(l) := Min(times[Index(l)], time)], store[Key(l) := FloatPref(time)])
  }

  /** A record never gets worse, and reloading the store gives back what is
      in memory, for every level, whenever the two agreed before. */
  lemma RecordPersists(times: seq<real>, store: map<string, Pref>, l: Level, time: real)
    requires |times| == LevelCount && times == Loaded(store) && l != None
    ensures Record(times, store, l, time).times[Index(l)] <= times[Index(l)]
    ensures Record(times, store, l, time).times[Index(l)] <= time
    ensures Loaded(Record(times, store, l, time).store) == Record(times, store, l, time).times
  {
    var r := Record(times, store, l, time);
    forall i | 0 <= i < LevelCount
      ensures Loaded(r.store)[i] == r.times[i]
    {
      KeysDistinct(LevelOf(i), l);
    }
  }

  /** As written, a slower run overwrites the stored best: best 10 s, a run
      of 20 s, and the reloaded record says 20 s. */
  lemma SlowerRunLosesBestAsWritten()
    ensures var before := Recorded([10.0, MaxValue, MaxValue, MaxValue], map["P1Challenge" := FloatPref(10.0)]);
            var after := RecordAsWritten(before.times, before.store, P1Challenge, 20.0);
            after.times[0] == 10.0 && Loaded(after.store)[0] == 20.0
  {
  }

  /** The lines joined by newlines. */
  function Joined(lines: seq<string>): string
    requires |lines| >= 1
  {
    if |lines| == 1 then lines[0] else Joined(lines[..|lines| - 1]) + "\n" + lines[|lines| - 1]
  }

  /** Lines free of newlines join into a text with one newline fewer than
      lines. */
  lemma {:induction false} JoinedNewlines(lines: seq<string>)
    requires |lines| >= 1 && forall i :: 0 <= i < |lines| ==> '\n' !in lines[i]
    ensures multiset(Joined(lines))['\n'] == |lines| - 1
  {
    if |lines| > 1 {
      var n := |lines| - 1;
      JoinedNewlines(lines[..n]);
      assert multiset(Joined(lines)) == multiset(Joined(lines[..n])) + multiset("\n") + multiset(lines[n]);
    }
  }

  /** The line shown for a record; `fmt` is the two-decimal float format. */
  function TimeLine(t: real, fmt: real -> string): string
  {
    if t == MaxValue then "Not yet complete" else fmt(t) + " seconds"
  }

  /** GetFormattedTimes' lines, corrected: each level shows its own time. */
  function TimeLines(times: seq<real>, fmt: real -> string): (lines: seq<string>)
    ensures |lines| == |times| && forall i :: 0 <= i < |times| ==> lines[i] == TimeLine(times[i], fmt)
  {
    seq(|times|, i requires 0 <= i < |times| => TimeLine(times[i], fmt))
  }

  /** As written: a finished level shows the first level's time. */
  function TimeLinesAsWritten(times: seq<real>, fmt: real -> string): (lines: seq<string>)
    requires |times| >= 1
    ensures |lines| == |times|
  {
    seq(|times|, i requires 0 <= i < |times| =>
      if times[i] == MaxValue then "Not yet complete" else fmt(times[0]) + " seconds")
  }

  /** As written, the second level's line shows the first level's time. */
  lemma SecondLineShowsFirstTimeAsWritten(times: seq<real>, fmt: real -> string)
    requires |times| == LevelCount && times[1] != MaxValue
    ensures TimeLinesAsWritten(times, fmt)[1] == fmt(times[0]) + " seconds"
    ensures TimeLines(times, fmt)[1] == fmt(times[1]) + " seconds"
  {
  }

  class BestTimes {
    const times: array<real>
    const prefs: PlayerPrefs

    predicate Valid()
      reads this
    {
      times.Length == LevelCount
    }

    /** The static constructor: the array, then LoadTimes. */
    constructor (prefs: PlayerPrefs)
      ensures Valid() && this.prefs == prefs && fresh(times)
      ensures times[..] == Loaded(prefs.store)
    {
      this.prefs := prefs;
      times := new real[LevelCount];
      new;
      LoadTimes();
    }

    method LoadTimes()
      requires Valid()
      modifies times
      ensures times[..] == Loaded(prefs.store)
    {
      var i := 0;
      while i < times.Length
        invariant 0 <= i <= LevelCount
        invariant forall j :: 0 <= j < i ==> times[j] == Loaded(prefs.store)[j]
      {
        times[i] := FloatOr(prefs.store, Key(LevelOf(i)), MaxValue);
        i := i + 1;
      }
    }

    method Clear()
      requires Valid()
      modifies times, prefs
      ensures times[..] == seq(LevelCount, _ => MaxValue)
      ensures prefs.store == Cleared(old(prefs.store), LevelCount)
    {
      var i := 0;
      while i < times.Length
        invariant 0 <= i <= LevelCount
        invariant forall j :: 0 <= j < i ==> times[j] == MaxValue
        invariant prefs.store == Cleared(old(prefs.store), i)
      {
        prefs.SetFloat(Key(LevelOf(i)), MaxValue);
        times[i] := MaxValue;
        i := i + 1;
      }
    }

    /** UpdateBestTime, corrected to persist the best time. */
    method UpdateBestTime(l: Level, time: real) returns (thrown: bool)
      requires Valid()
      modifies times, prefs
      ensures var r := Record(old(times[..]), old(prefs.store), l, time);
              thrown == r.Thrown? &&
              (r.Thrown? ==> times[..] == old(times[..]) && prefs.store == old(prefs.store)) &&
              (r.Recorded? ==> times[..] == r.times && prefs.store == r.store)
    {
      if l == None {
        return true;
      }
      var i := Index(l);
      var best := Min(times[i], time);
      times[i] := best;
      prefs.SetFloat(Key(l), best);
      return false;
    }

    /** GetFormattedNames: the first name, then each further one after a
        newline. */
    method GetFormattedNames() returns (output: string)
      ensures output == Joined(FullNames)
    {
      output := FullNames[0];
      var i := 1;
      while i < |FullNames|
        invariant 1 <= i <= |FullNames|
        invariant output == Joined(FullNames[..i])
      {
        assert FullNames[..i + 1][..i] == FullNames[..i];
        output := output + "\n" + FullNames[i];
        i := i + 1;
      }
      assert FullNames[..i] == FullNames;
    }

    /** GetFormattedTimes, corrected: every line followed by a newline, the
        last newline then trimmed. */
    method GetFormattedTimes(fmt: real -> string) returns (output: string)
      requires Valid()
      ensures output == Joined(TimeLines(times[..], fmt))
    {
      var text := "";
      var i := 0;
      while i < times.Length
        invariant 0 <= i <= LevelCount
        invariant i == 0 ==> text == ""
        invariant i > 0 ==> text == Joined(TimeLines(times[..i], fmt)) + "\n"
      {
        var line := TimeLine(times[i], fmt);
        if i > 0 {
          assert TimeLines(times[..i + 1], fmt)[..i] == TimeLines(times[..i], fmt);
        }
        text := text + line + "\n";
        i := i + 1;
      }
      assert times[..i] == times[..];
      output := text[..|text| - 1];
    }
  }
}
