/** The registration helpers of the bundled chart library (chart.js): the five
    keyed registries (`elements`, `datasets`, `scales`, `controllers`,
    `plugins`), the `registerables` list with `register` / `unregister`, and the
    id counter made by `uid()`. */
module ChartRegistry {
  import opened Wrappers
  import opened Sequences

  // ---------------------------------------------------------------------------
  // Keyed registries
  // ---------------------------------------------------------------------------

  /** The map after `register(key, value)`: an existing key keeps its first value. */
  function Registered<V>(m: map<string, V>, key: string, value: V): (r: map<string, V>)
    ensures key in m ==> r == m
    ensures key !in m ==> r.Keys == m.Keys + {key} && r[key] == value
    ensures forall k :: k in m ==> k in r && r[k] == m[k]
  {
    if key in m then m else m[key := value]
  }

  /** The map after `unregister(key)`: an absent key leaves it as it is. */
  function Unregistered<V>(m: map<string, V>, key: string): (r: map<string, V>)
    ensures key !in m ==> r == m
    ensures r.Keys == m.Keys - {key}
    ensures forall k :: k in r ==> r[k] == m[k]
  {
    if key !in m then m else m - {key}
  }

  /** Registering a second value under a key keeps the first one. */
  lemma FirstRegistrationWins<V>(m: map<string, V>, key: string, first: V, second: V)
    ensures Registered(Registered(m, key, first), key, second) == Registered(m, key, first)
    ensures key !in m ==> Registered(Registered(m, key, first), key, second)[key] == first
  {
  }

  /** Unregistering a freshly registered key restores the map. */
  lemma UnregisterUndoesRegister<V>(m: map<string, V>, key: string, value: V)
    requires key !in m
    ensures Unregistered(Registered(m, key, value), key) == m
  {
  }

  /** One Map-backed registry; all five of the library behave alike. */
  class Registry<V> {
    var entries: map<string, V>

    constructor ()
      ensures entries == map[]
    {
      entries := map[];
    }

    /** `get(type)`: the registered value, or None for `undefined`. */
    function Get(key: string): (r: Option<V>)
      reads this
      ensures r.Some? <==> key in entries
      ensures r.Some? ==> r.value == entries[key]
    {
      if key in entries then Some(entries[key]) else None
    }

    /** `has(type)`. */
    predicate Has(key: string)
      reads this
    {
      key in entries
    }

    /** `register(type, value)`: refused (ok == false) when the key is already taken. */
    method Register(key: string, value: V) returns (ok: bool)
      modifies this
      ensures ok <==> key !in old(entries)
      ensures entries == Registered(old(entries), key, value)
      ensures Has(key) && Get(key).Some?
    {
      if key in entries {
        return false;
      }
      entries := entries[key := value];
      return true;
    }

    /** `unregister(type)`: refused (ok == false) when the key is not registered. */
    method Unregister(key: string) returns (ok: bool)
      modifies this
      ensures ok <==> key in old(entries)
      ensures entries == Unregistered(old(entries), key)
      ensures !Has(key) && Get(key) == None
    {
      if key !in entries {
        return false;
      }
      entries := entries - {key};
      return true;
    }
  }

  /** Names of the library's five registries. */
  datatype Kind = Elements | Datasets | Scales | Controllers | Plugins

  /** The library's five independent registries. */
  class Registries<V> {
    const elements: Registry<V>
    const datasets: Registry<V>
    const scales: Registry<V>
    const controllers: Registry<V>
    const plugins: Registry<V>

    /** The objects behind the five registries. */
    ghost function Repr(): set<object>
      reads this
    {
      {elements, datasets, scales, controllers, plugins}
    }

    /** Five distinct registries, so registering in one leaves the others alone. */
    ghost predicate Valid()
      reads this
    {
      && elements != datasets && elements != scales && elements != controllers && elements != plugins
      && datasets != scales && datasets != controllers && datasets != plugins
      && scales != controllers && scales != plugins
      && controllers != plugins
    }

    constructor ()
      ensures Valid() && fresh(Repr())
      ensures elements.entries == map[] && datasets.entries == map[] && scales.entries == map[]
      ensures controllers.entries == map[] && plugins.entries == map[]
    {
      elements := new Registry();
      datasets := new Registry();
      scales := new Registry();
      controllers := new Registry();
      plugins := new Registry();
    }

    /** The registry of the given kind. */
    function Pick(kind: Kind): Registry<V>
      reads this
    {
      match kind
      case Elements => elements
      case Datasets => datasets
      case Scales => scales
      case Controllers => controllers
      case Plugins => plugins
    }

    /** `register` on one of the five registries leaves the other four as they were. */
    method RegisterIn(kind: Kind, key: string, value: V) returns (ok: bool)
      requires Valid()
      modifies Pick(kind)
      ensures ok <==> key !in old(Pick(kind).entries)
      ensures Pick(kind).entries == Registered(old(Pick(kind).entries), key, value)
      ensures forall other :: other != kind ==> Pick(other).entries == old(Pick(other).entries)
    {
      ok := Pick(kind).Register(key, value);
    }

    /** `unregister` on one of the five registries leaves the other four as they were. */
    method UnregisterIn(kind: Kind, key: string) returns (ok: bool)
      requires Valid()
      modifies Pick(kind)
      ensures ok <==> key in old(Pick(kind).entries)
      ensures Pick(kind).entries == Unregistered(old(Pick(kind).entries), key)
      ensures forall other :: other != kind ==> Pick(other).entries == old(Pick(other).entries)
    {
      ok := Pick(kind).Unregister(key);
    }
  }

  // ---------------------------------------------------------------------------
  // The registerables list
  // ---------------------------------------------------------------------------

  /** An item passed to `register` / `unregister`. The whole value stands for
      JavaScript object identity: two items are the same item exactly when the
      key and both flags agree. The flags say whether the item carries its own
      `register` / `unregister` function. */
  datatype Registerable = Registerable(key: string, ownRegister: bool, ownUnregister: bool)

  /** No item occurs twice. */
  predicate NoDuplicates<T(==)>(s: seq<T>) {
    forall i, j :: 0 <= i < j < |s| ==> s[i] != s[j]
  }

  /** `array.indexOf(item)`: the first index holding `item`, or -1. */
  function IndexOf<T(==)>(s: seq<T>, x: T): (i: int)
    ensures -1 <= i < |s|
    ensures i == -1 <==> x !in s
    ensures 0 <= i ==> s[i] == x && x !in s[..i]
  {
    if s == [] then -1
    else if s[0] == x then 0
    else
      var j := IndexOf(s[1..], x);
      assert j >= 0 ==> s[..j + 1] == [s[0]] + s[1..][..j];
      if j == -1 then -1 else j + 1
  }

  /** addIfNotExists: appends `x` unless it is already present. */
  function AddIfNotExists<T(==)>(s: seq<T>, x: T): (r: seq<T>)
    ensures x in r && (x in s ==> r == s) && (x !in s ==> r == s + [x])
    ensures NoDuplicates(s) ==> NoDuplicates(r)
  {
    if IndexOf(s, x) == -1 then s + [x] else s
  }

  /** The list after `register(item)`: an item with its own `register` runs it instead. */
  function RegisterOne(s: seq<Registerable>, item: Registerable): seq<Registerable> {
    if item.ownRegister then s else AddIfNotExists(s, item)
  }

  /** The list after `register(...items)`, items taken left to right. */
  function RegisterAll(s: seq<Registerable>, items: seq<Registerable>): seq<Registerable>
    decreases |items|
  {
    if items == [] then s
    else RegisterOne(RegisterAll(s, items[..|items| - 1]), items[|items| - 1])
  }

  /** splice(indexOf(x), 1) when present: drops the first occurrence only. */
  function RemoveFirst<T(==)>(s: seq<T>, x: T): (r: seq<T>)
    ensures x !in s ==> r == s
    ensures x in s ==> r == s[..IndexOf(s, x)] + s[IndexOf(s, x) + 1..]
    ensures multiset(r) == multiset(s) - multiset{x}
  {
    var idx := IndexOf(s, x);
    if idx != -1 then
      assert s == s[..idx] + [s[idx]] + s[idx + 1..];
      s[..idx] + s[idx + 1..]
    else
      s
  }

  /** The list after `unregister(item)`: an item with its own `unregister` runs it instead. */
  function UnregisterOne(s: seq<Registerable>, item: Registerable): seq<Registerable> {
    if item.ownUnregister then s else RemoveFirst(s, item)
  }

  /** The list after `unregister(...items)`, items taken left to right. */
  function UnregisterAll(s: seq<Registerable>, items: seq<Registerable>): seq<Registerable>
    decreases |items|
  {
    if items == [] then s
    else UnregisterOne(UnregisterAll(s, items[..|items| - 1]), items[|items| - 1])
  }

  /** `register` keeps the list duplicate-free, only appends, and adds exactly
      the plain items (those without their own `register`). */
  lemma {:induction false} RegisterAllSpec(s: seq<Registerable>, items: seq<Registerable>)
    requires NoDuplicates(s)
    ensures var r := RegisterAll(s, items);
      && NoDuplicates(r)
      && |s| <= |r| && r[..|s|] == s
      && forall x :: x in r <==> x in s || (x in items && !x.ownRegister)
    decreases |items|
  {
    if items != [] {
      var init := items[..|items| - 1];
      RegisterAllSpec(s, init);
      assert items == init + [items[|items| - 1]];
    }
  }

  /** On a duplicate-free list, `unregister` removes exactly the plain items
      named, keeps every other item, and keeps their relative order. */
  lemma {:induction false} UnregisterAllSpec(s: seq<Registerable>, items: seq<Registerable>)
    requires NoDuplicates(s)
    ensures var r := UnregisterAll(s, items);
      && NoDuplicates(r)
      && (forall x :: x in r <==> x in s && !(x in items && !x.ownUnregister))
      && IsSubsequence(r, s)
    decreases |items|
  {
    if items == [] {
      SubsequenceReflexive(s);
    } else {
      var init := items[..|items| - 1];
      var last := items[|items| - 1];
      UnregisterAllSpec(s, init);
      assert items == init + [last];
      var mid := UnregisterAll(s, init);
      if !last.ownUnregister && last in mid {
        RemoveFirstOfUnique(mid, last);
        var i := IndexOf(mid, last);
        DropKeepsSubsequence(mid, i);
        SubsequenceTransitive(mid[..i] + mid[i + 1..], mid, s);
      }
    }
  }

  /** In a duplicate-free list, removing the first occurrence removes the item altogether. */
  lemma RemoveFirstOfUnique<T>(s: seq<T>, x: T)
    requires NoDuplicates(s) && x in s
    ensures var r := RemoveFirst(s, x);
      NoDuplicates(r) && x !in r && forall y :: y != x ==> (y in r <==> y in s)
  {
    var i := IndexOf(s, x);
    var r := s[..i] + s[i + 1..];
    assert r == RemoveFirst(s, x);
    forall j, k | 0 <= j < k < |r| ensures r[j] != r[k] {
      var j' := if j < i then j else j + 1;
      var k' := if k < i then k else k + 1;
      assert r[j] == s[j'] && r[k] == s[k'];
    }
  }

  /** The module-level `registerables` array. */
  class Registerables {
    var items: seq<Registerable>

    constructor ()
      ensures items == []
    {
      items := [];
    }

    /** `register(...items)`. */
    method Register(args: seq<Registerable>)
      modifies this
      ensures items == RegisterAll(old(items), args)
    {
      for k := 0 to |args|
        invariant items == RegisterAll(old(items), args[..k])
      {
        assert args[..k + 1][..k] == args[..k];
        var item := args[k];
        if !item.ownRegister {
          if IndexOf(items, item) == -1 {
            items := items + [item];
          }
        }
      }
      assert args[..|args|] == args;
    }

    /** `unregister(...items)`. */
    method Unregister(args: seq<Registerable>)
      modifies this
      ensures items == UnregisterAll(old(items), args)
    {
      for k := 0 to |args|
        invariant items == UnregisterAll(old(items), args[..k])
      {
        assert args[..k + 1][..k] == args[..k];
        var item := args[k];
        if !item.ownUnregister {
          var idx := IndexOf(items, item);
          if idx != -1 {
            items := items[..idx] + items[idx + 1..];
          }
        }
      }
      assert args[..|args|] == args;
    }
  }

  // ---------------------------------------------------------------------------
  // The id counter
  // ---------------------------------------------------------------------------

  /** The closure returned by `uid()`: each call yields the next integer from 0. */
  class UidCounter {
    var id: nat
    /** Every id handed out so far, in order. */
    ghost var issued: seq<nat>

    ghost predicate Valid()
      reads this
    {
      |issued| == id && forall i :: 0 <= i < |issued| ==> issued[i] == i
    }

    constructor ()
      ensures Valid() && issued == [] && id == 0
    {
      id := 0;
      issued := [];
    }

    method Next() returns (r: nat)
      requires Valid()
      modifies this
      ensures Valid()
      ensures r == old(id) && id == old(id) + 1
      ensures issued == old(issued) + [r]
      ensures forall x :: x in old(issued) ==> x < r
    {
      r := id;
      id := id + 1;
      issued := issued + [r];
    }
  }

  /** The ids of a valid counter are strictly increasing, hence all distinct. */
  lemma IssuedStrictlyIncreasing(issued: seq<nat>)
    requires forall i :: 0 <= i < |issued| ==> issued[i] == i
    ensures forall i, j :: 0 <= i < j < |issued| ==> issued[i] < issued[j]
    ensures NoDuplicates(issued)
  {
  }
}
