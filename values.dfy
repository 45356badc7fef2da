/**
 * The JavaScript values a stored task holds, and plain objects as ordered maps from
 * property names to values. A task, a partial update and a form's working copy are
 * all plain objects: the stores merge them with object spread and walk them with
 * `Object.keys`, so keys outside the declared Task type travel with them.
 */
module Values {
  import Seqs

  /** A JSON-representable property value; `Absent` is `undefined`, a property that is not there. */
  datatype Value =
    | Str(s: string)
    | Bool(b: bool)
    | Num(n: int)
    | StrList(items: seq<string>)
    | Null
    | Absent

  /** JavaScript truthiness: `""`, `false`, `0`, `null` and `undefined` are falsy; every array is truthy. */
  predicate Truthy(v: Value) {
    match v
    case Str(s) => s != ""
    case Bool(b) => b
    case Num(n) => n != 0
    case StrList(_) => true
    case Null => false
    case Absent => false
  }

  /** `a || b`: the first operand when it is truthy, else the second. */
  function Or(a: Value, b: Value): Value {
    if Truthy(a) then a else b
  }

  /**
   * `a === b`. Arrays compare by identity; every array in a stored task comes
   * from its own JSON parse, so two array operands are never the same object.
   */
  predicate StrictEquals(a: Value, b: Value) {
    !a.StrList? && a == b
  }

  /** A plain object: its own property names in insertion order, and their values. */
  datatype Object = Object(keys: seq<string>, values: map<string, Value>) {
    predicate WellFormed() {
      && (forall k | k in values :: k in keys)
      && (forall k | k in keys :: k in values)
    }
  }

  /**
   * An object whose key list names exactly the properties it holds, as `Object.keys`
   * reports them. That each name is listed once is not part of the type: `Set` and
   * `Spread` preserve it (`AssignKeepsDistinct`) and `Literal` demands it.
   */
  type Record = o: Object | o.WellFormed() witness Object([], map[])

  const Empty: Record := Object([], map[])

  /** `o[key]`: the property's value, `undefined` when it is missing. */
  function Get(o: Record, key: string): Value {
    if key in o.values then o.values[key] else Absent
  }

  /**
   * `{...o, [key]: v}`: an existing property keeps its place in the key order,
   * a new one goes last.
   */
  function Set(o: Record, key: string, v: Value): (r: Record)
    ensures Get(r, key) == v
    ensures forall k | k != key :: Get(r, k) == Get(o, k)
  {
    if key in o.values then
      Object(o.keys, o.values[key := v])
    else
      var r := Object(o.keys + [key], o.values[key := v]);
      assert key !in o.keys;
      r
  }

  /** `{...o, [k1]: v1, ..., [kn]: vn}`: the properties set one after the other. */
  function SetAll(o: Record, fields: seq<(string, Value)>): Record
    decreases |fields|
  {
    if fields == [] then o else SetAll(Set(o, fields[0].0, fields[0].1), fields[1..])
  }

  /** Where `Set` puts the key: in place when it is there, last when it is new. */
  lemma SetKeys(o: Record, key: string, v: Value)
    ensures Set(o, key, v).values.Keys == o.values.Keys + {key}
    ensures key in o.values ==> Set(o, key, v).keys == o.keys
    ensures key !in o.values ==> Set(o, key, v).keys == o.keys + [key]
  {
  }

  /** The properties named by `keys` copied from `u` onto `o`, one after the other. */
  function Assign(o: Record, keys: seq<string>, u: Record): (r: Record)
    requires forall k | k in keys :: k in u.values
    ensures forall k :: Get(r, k) == if k in keys then u.values[k] else Get(o, k)
    ensures forall k :: k in r.values <==> k in o.values || k in keys
    ensures |o.keys| <= |r.keys| && forall i | 0 <= i < |o.keys| :: r.keys[i] == o.keys[i]
    decreases |keys|
  {
    if keys == [] then o
    else
      var o' := Set(o, keys[0], u.values[keys[0]]);
      var r := Assign(o', keys[1..], u);
      AssignStep(o, o', r, keys, u);
      r
  }

  /** What assigning the rest of the keys onto `Set(o, first key)` means for `o` and all the keys. */
  lemma AssignStep(o: Record, o': Record, r: Record, keys: seq<string>, u: Record)
    requires keys != [] && forall k | k in keys :: k in u.values
    requires o' == Set(o, keys[0], u.values[keys[0]])
    requires forall k :: Get(r, k) == if k in keys[1..] then u.values[k] else Get(o', k)
    requires forall k :: k in r.values <==> k in o'.values || k in keys[1..]
    requires |o'.keys| <= |r.keys| && forall i | 0 <= i < |o'.keys| :: r.keys[i] == o'.keys[i]
    ensures forall k :: Get(r, k) == if k in keys then u.values[k] else Get(o, k)
    ensures forall k :: k in r.values <==> k in o.values || k in keys
    ensures |o.keys| <= |r.keys| && forall i | 0 <= i < |o.keys| :: r.keys[i] == o.keys[i]
  {
    SetKeys(o, keys[0], u.values[keys[0]]);
    assert keys == [keys[0]] + keys[1..];
  }

  /**
   * `{...o, ...u}`: every property of `u` overrides or extends `o`; the properties
   * `o` already had keep their positions.
   */
  function Spread(o: Record, u: Record): (r: Record)
    ensures forall k :: Get(r, k) == if k in u.values then u.values[k] else Get(o, k)
    ensures forall k :: k in r.values <==> k in o.values || k in u.values
    ensures |o.keys| <= |r.keys| && forall i | 0 <= i < |o.keys| :: r.keys[i] == o.keys[i]
  {
    Assign(o, u.keys, u)
  }

  /** Distinct property names. */
  predicate DistinctKeys(keys: seq<string>) {
    forall i, j | 0 <= i < j < |keys| :: keys[i] != keys[j]
  }

  /**
   * The object literal `{k1: v1, ..., kn: vn}` with distinct property names:
   * the names in the order written, each with its value.
   */
  function Literal(keys: seq<string>, vals: seq<Value>): (r: Record)
    requires |keys| == |vals| && DistinctKeys(keys)
    ensures r.keys == keys
    ensures forall i | 0 <= i < |keys| :: Get(r, keys[i]) == vals[i]
    ensures forall k | k !in keys :: Get(r, k) == Absent
  {
    var values := map i | 0 <= i < |keys| :: keys[i] := vals[i];
    assert forall i | 0 <= i < |keys| :: keys[i] in values && values[keys[i]] == vals[i];
    Object(keys, values)
  }

  /** Spreading or assigning never lists a property name twice. */
  lemma {:induction false} AssignKeepsDistinct(o: Record, keys: seq<string>, u: Record)
    requires forall k | k in keys :: k in u.values
    requires DistinctKeys(o.keys)
    ensures DistinctKeys(Assign(o, keys, u).keys)
    decreases |keys|
  {
    if keys != [] {
      var o' := Set(o, keys[0], u.values[keys[0]]);
      SetKeys(o, keys[0], u.values[keys[0]]);
      if keys[0] !in o.values {
        assert keys[0] !in o.keys;
        assert o'.keys == o.keys + [keys[0]];
      }
      AssignKeepsDistinct(o', keys[1..], u);
    }
  }

  /** Assigning one more key is setting it on the result of assigning the others. */
  lemma {:induction false} AssignSnoc(o: Record, keys: seq<string>, k: string, u: Record)
    requires forall x | x in keys :: x in u.values
    requires k in u.values
    ensures Assign(o, keys + [k], u) == Set(Assign(o, keys, u), k, u.values[k])
    decreases |keys|
  {
    if keys == [] {
      assert ([] + [k])[1..] == [];
    } else {
      assert (keys + [k])[1..] == keys[1..] + [k];
      AssignSnoc(Set(o, keys[0], u.values[keys[0]]), keys[1..], k, u);
    }
  }

  /** Assigning names `o` does not have, each once, lists them after `o`'s own, in order. */
  lemma {:induction false} AssignFreshKeys(o: Record, keys: seq<string>, u: Record)
    requires forall x | x in keys :: x in u.values
    requires DistinctKeys(keys) && forall x | x in keys :: x !in o.values
    ensures Assign(o, keys, u).keys == o.keys + keys
    decreases |keys|
  {
    if keys != [] {
      var k0, rest := keys[0], keys[1..];
      var o' := Set(o, k0, u.values[k0]);
      SetKeys(o, k0, u.values[k0]);
      TailFresh(keys, o.values.Keys);
      AssignFreshKeys(o', rest, u);
      var r := Assign(o', rest, u);
      assert Assign(o, keys, u) == r;
      assert keys == [k0] + rest;
      Seqs.AppendAssoc(o.keys, [k0], rest);
    }
  }

  /** The tail of a duplicate-free list avoids its head and whatever the whole list avoids. */
  lemma TailFresh(keys: seq<string>, avoid: set<string>)
    requires keys != [] && DistinctKeys(keys) && forall x | x in keys :: x !in avoid
    ensures DistinctKeys(keys[1..])
    ensures forall x | x in keys[1..] :: x !in avoid + {keys[0]}
  {
    forall x | x in keys[1..] ensures x !in avoid + {keys[0]} {
      var i :| 0 <= i < |keys[1..]| && keys[1..][i] == x;
      assert keys[i + 1] == x;
    }
  }

  /**
   * Setting properties with distinct names one after the other: each listed
   * name reads back its value, every other name keeps `o`'s.
   */
  lemma {:induction false} SetAllGet(o: Record, fields: seq<(string, Value)>)
    requires forall i, j | 0 <= i < j < |fields| :: fields[i].0 != fields[j].0
    ensures forall i | 0 <= i < |fields| :: Get(SetAll(o, fields), fields[i].0) == fields[i].1
    ensures forall k | forall i | 0 <= i < |fields| :: fields[i].0 != k :: Get(SetAll(o, fields), k) == Get(o, k)
    decreases |fields|
  {
    if fields != [] {
      var o' := Set(o, fields[0].0, fields[0].1);
      var tail := fields[1..];
      SetAllGet(o', tail);
      assert forall i | 0 <= i < |tail| :: tail[i].0 != fields[0].0 by {
        forall i | 0 <= i < |tail| ensures tail[i].0 != fields[0].0 {
          assert tail[i] == fields[i + 1];
        }
      }
      forall i | 0 <= i < |fields| ensures Get(SetAll(o, fields), fields[i].0) == fields[i].1 {
        if i > 0 {
          assert fields[i] == tail[i - 1];
        }
      }
      forall k | forall i | 0 <= i < |fields| :: fields[i].0 != k
        ensures Get(SetAll(o, fields), k) == Get(o, k)
      {
        assert fields[0].0 != k;
        forall i | 0 <= i < |tail| ensures tail[i].0 != k {
          assert tail[i] == fields[i + 1];
        }
      }
    }
  }
}
