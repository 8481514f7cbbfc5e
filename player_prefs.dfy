/** Unity's PlayerPrefs as an abstract key-value store: each key holds an
    int, a float or a string, and a typed read of a missing key, or of a key
    holding another type, yields the caller's default. */
module Prefs {

  datatype Pref = IntPref(i: int) | FloatPref(f: real) | StringPref(s: string)

  function IntOr(store: map<string, Pref>, key: string, default: int): (v: int)
    ensures key in store && store[key].IntPref? ==> v == store[key].i
    ensures !(key in store && store[key].IntPref?) ==> v == default
  {
    if key in store && store[key].IntPref? then store[key].i else default
  }

  function FloatOr(store: map<string, Pref>, key: string, default: real): (v: real)
    ensures key in store && store[key].FloatPref? ==> v == store[key].f
    ensures !(key in store && store[key].FloatPref?) ==> v == default
  {
    if key in store && store[key].FloatPref? then store[key].f else default
  }

  function StringOr(store: map<string, Pref>, key: string, default: string): (v: string)
    ensures key in store && store[key].StringPref? ==> v == store[key].s
    ensures !(key in store && store[key].StringPref?) ==> v == default
  {
    if key in store && store[key].StringPref? then store[key].s else default
  }

  class PlayerPrefs {
    var store: map<string, Pref>

    constructor (store: map<string, Pref>)
      ensures this.store == store
    {
      this.store := store;
    }

    method SetInt(key: string, value: int)
      modifies this
      ensures store == old(store)[key := IntPref(value)]
    {
      store := store[key := IntPref(value)];
    }

    method SetFloat(key: string, value: real)
      modifies this
      ensures store == old(store)[key := FloatPref(value)]
    {
      store := store[key := FloatPref(value)];
    }

    method SetString(key: string, value: string)
      modifies this
      ensures store == old(store)[key := StringPref(value)]
    {
      store := store[key := StringPref(value)];
    }
  }
}
