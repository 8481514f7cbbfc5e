/** The host's global Settings (Static/Settings.cs): four persisted values,
    the cheat-mode switch that is never persisted, and the depth divide
    factor looked up from the depth resolution. */
module GameSettings {
  import opened Wire
  import opened Prefs

  /** The DepthResolution enum values Low, Moderate and High. */
  const Low: int := 0
  const Moderate: int := 1
  const High: int := 2

  /** The divide factor of each resolution, indexed by its value. */
  const DepthDivideFactors: seq<nat> := [32, 16, 8]

  /** DepthDivideFactor: the table entry of the resolution; `None` where the
      stored resolution is outside the table and the lookup throws. */
  function DepthDivideFactorOf(depthRes: int): (f: Option<nat>)
    ensures f.Some? <==> 0 <= depthRes < 3
    ensures depthRes == Low ==> f == Some(32)
    ensures depthRes == Moderate ==> f == Some(16)
    ensures depthRes == High ==> f == Some(8)
  {
    if 0 <= depthRes < |DepthDivideFactors| then Some(DepthDivideFactors[depthRes]) else None
  }

  /** The persisted settings. `depthRes` is the enum's integer value: it is
      cast from whatever integer the store holds. */
  datatype Values = Values(isRealism: bool, hideCarsInColorCamera: bool, depthRes: int, username: string)

  const DefaultUsername: string := "Default"
  const Defaults: Values := Values(true, false, High, DefaultUsername)

  /** Convert.ToInt32 of a bool. */
  function BoolToInt(b: bool): (i: int)
    ensures IntToBool(i) == b
  {
    if b then 1 else 0
  }

  /** Convert.ToBoolean of an int. */
  function IntToBool(i: int): bool
  {
    i != 0
  }

  /** SaveSettings: the four values under their keys, bools as 0 or 1. */
  function Saved(store: map<string, Pref>, v: Values): (s: map<string, Pref>)
    ensures s.Keys == store.Keys + {"IsRealism", "HideCarsInColorCamera", "DepthRes", "Username"}
  {
    store["IsRealism" := IntPref(BoolToInt(v.isRealism))]
         ["HideCarsInColorCamera" := IntPref(BoolToInt(v.hideCarsInColorCamera))]
         ["DepthRes" := IntPref(v.depthRes)]
         ["Username" := StringPref(v.username)]
  }

  /** LoadSettings: each value read back, a missing key giving its default. */
  function Loaded(store: map<string, Pref>): Values
  {
    Values(
      IntToBool(IntOr(store, "IsRealism", BoolToInt(Defaults.isRealism))),
      IntToBool(IntOr(store, "HideCarsInColorCamera", BoolToInt(Defaults.hideCarsInColorCamera))),
      IntOr(store, "DepthRes", Defaults.depthRes),
      StringOr(store, "Username", Defaults.username))
  }

  /** Loading after saving restores the same four values, whatever else the
      store held. */
  lemma LoadAfterSave(store: map<string, Pref>, v: Values)
    ensures Loaded(Saved(store, v)) == v
  {
    var s := Saved(store, v);
    assert s["IsRealism"] == IntPref(BoolToInt(v.isRealism));
    assert s["HideCarsInColorCamera"] == IntPref(BoolToInt(v.hideCarsInColorCamera));
    assert s["DepthRes"] == IntPref(v.depthRes);
    assert s["Username"] == StringPref(v.username);
  }

  /** A store holding none of the keys loads the defaults. */
  lemma MissingKeysLoadDefaults(store: map<string, Pref>)
    requires "IsRealism" !in store && "HideCarsInColorCamera" !in store
    requires "DepthRes" !in store && "Username" !in store
    ensures Loaded(store) == Defaults
  {
  }

  /** The defaults use the highest depth resolution, factor 8. */
  lemma DefaultFactor()
    ensures DepthDivideFactorOf(Defaults.depthRes) == Some(8)
  {
  }

  class Settings {
    var isRealism: bool
    var hideCarsInColorCamera: bool
    var cheatMode: bool
    var depthRes: int
    var username: string
    const prefs: PlayerPrefs

    function Current(): Values
      reads this
    {
      Values(isRealism, hideCarsInColorCamera, depthRes, username)
    }

    /** The static constructor: cheat mode off, the rest loaded. */
    constructor (prefs: PlayerPrefs)
      ensures this.prefs == prefs && !cheatMode
      ensures Current() == Loaded(prefs.store)
    {
      this.prefs := prefs;
      cheatMode := false;
      var v := Loaded(prefs.store);
      isRealism := v.isRealism;
      hideCarsInColorCamera := v.hideCarsInColorCamera;
      depthRes := v.depthRes;
      username := v.username;
    }

    function DepthDivideFactor(): (f: Option<nat>)
      reads this
      ensures f.Some? <==> 0 <= depthRes < 3
      ensures f.Some? ==> f.value in {32, 16, 8}
      ensures f.Some? ==> f == DepthDivideFactorOf(depthRes)
    {
      DepthDivideFactorOf(depthRes)
    }

    /** RestoreDefaults: the four persisted values only; cheat mode kept. */
    method RestoreDefaults()
      modifies this`isRealism, this`hideCarsInColorCamera, this`depthRes, this`username
      ensures Current() == Defaults
    {
      isRealism := true;
      hideCarsInColorCamera := false;
      depthRes := High;
      username := DefaultUsername;
    }

    method SaveSettings()
      modifies prefs
      ensures prefs.store == Saved(old(prefs.store), Current())
    {
      prefs.SetInt("IsRealism", BoolToInt(isRealism));
      prefs.SetInt("HideCarsInColorCamera", BoolToInt(hideCarsInColorCamera));
      prefs.SetInt("DepthRes", depthRes);
      prefs.SetString("Username", username);
    }

    method LoadSettings()
      modifies this`isRealism, this`hideCarsInColorCamera, this`depthRes, this`username
      ensures Current() == Loaded(prefs.store)
    {
      isRealism := IntToBool(IntOr(prefs.store, "IsRealism", BoolToInt(true)));
      hideCarsInColorCamera := IntToBool(IntOr(prefs.store, "HideCarsInColorCamera", BoolToInt(false)));
      depthRes := IntOr(prefs.store, "DepthRes", High);
      username := StringOr(prefs.store, "Username", DefaultUsername);
    }
  }
}
