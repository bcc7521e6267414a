/**
 * JSON values as Python's `json.load` builds them, and the parts of the
 * behaviour of Python's `dict`, `str` and `list` that the compressor uses.
 *
 * A JSON object is an ordered sequence of key/value pairs: Python dicts keep
 * insertion order, so "the first N entries" of a dict is a prefix. `json.load`
 * never builds a dict with a repeated key; the operations below are written so
 * that they agree with Python's whenever the keys are unique.
 */
module Json {

  datatype Option<+T> = None | Some(value: T)

  /** What running a piece of Python gives: a value, or an exception that no
      code catches, which ends the run before any output is written. */
  datatype Outcome<+T> = Ok(value: T) | Raised {
    predicate IsFailure() {
      Raised?
    }

    function PropagateFailure<U>(): Outcome<U>
      requires Raised?
    {
      Raised
    }

    function Extract(): T
      requires Ok?
    {
      value
    }
  }

  /** One key/value pair of an object. */
  type Field = (string, Value)

  /** A JSON value. Numbers with a fraction or an exponent are not modelled. */
  datatype Value =
    | Null
    | Bool(b: bool)
    | Int(i: int)
    | Str(s: string)
    | Arr(items: seq<Value>)
    | Obj(fields: seq<Field>)

  /** The keys of an object, in insertion order. */
  function Keys(fields: seq<Field>): (ks: seq<string>)
    ensures |ks| == |fields|
    ensures forall i :: 0 <= i < |fields| ==> ks[i] == fields[i].0
  {
    if fields == [] then [] else [fields[0].0] + Keys(fields[1..])
  }

  /** `k in d` for a dict `d`. */
  predicate HasKey(fields: seq<Field>, k: string) {
    k in Keys(fields)
  }

  /** No key occurs twice, as in every dict that `json.load` builds. */
  predicate UniqueKeys(fields: seq<Field>) {
    forall i, j :: 0 <= i < j < |fields| ==> fields[i].0 != fields[j].0
  }

  /** `d.get(k)`: the value stored under `k`, if there is one. */
  function Lookup(fields: seq<Field>, k: string): (r: Option<Value>)
    ensures r.Some? <==> HasKey(fields, k)
    ensures r.Some? ==> (k, r.value) in fields
  {
    if fields == [] then None
    else if fields[0].0 == k then Some(fields[0].1)
    else Lookup(fields[1..], k)
  }

  /** `d[k] = v` for a key `k` that `d` already holds: the value changes and
      the key keeps its position. */
  function Replace(fields: seq<Field>, k: string, v: Value): (r: seq<Field>)
    ensures Keys(r) == Keys(fields)
    ensures HasKey(fields, k) ==> Lookup(r, k) == Some(v)
    ensures forall k' :: k' != k ==> Lookup(r, k') == Lookup(fields, k')
  {
    if fields == [] then []
    else if fields[0].0 == k then [(k, v)] + fields[1..]
    else [fields[0]] + Replace(fields[1..], k, v)
  }

  /** `del d[k]` for every `k` in `ks` that `d` holds; the other entries keep
      their values and their order. */
  function RemoveKeys(fields: seq<Field>, ks: set<string>): (r: seq<Field>)
    ensures forall k :: k in ks ==> !HasKey(r, k)
    ensures forall k :: k !in ks ==> Lookup(r, k) == Lookup(fields, k)
    ensures forall e :: e in r ==> e in fields && e.0 !in ks
    ensures |r| <= |fields|
  {
    if fields == [] then []
    else if fields[0].0 in ks then RemoveKeys(fields[1..], ks)
    else [fields[0]] + RemoveKeys(fields[1..], ks)
  }

  /** The strings of a list, as a set. */
  function KeySet(keys: seq<string>): set<string> {
    set k | k in keys
  }

  /** Python's truth value of a JSON value (`if not x`): a string, list or
      dict is true exactly when its length is not zero. */
  function Truthy(v: Value): (r: bool)
    ensures v.Str? || v.Arr? || v.Obj? ==> (r <==> Len(v) != Ok(0))
    ensures v.Null? ==> !r
  {
    match v
    case Null => false
    case Bool(b) => b
    case Int(i) => i != 0
    case Str(s) => s != []
    case Arr(items) => items != []
    case Obj(fields) => fields != []
  }

  /** `needle` occurs in `hay` starting at index `i`. */
  predicate OccursAt(needle: string, hay: string, i: int) {
    0 <= i && i + |needle| <= |hay| && hay[i..i + |needle|] == needle
  }

  /** `needle in hay` for two Python strings. */
  predicate IsSubstring(needle: string, hay: string)
    decreases |hay|
  {
    needle <= hay || (hay != [] && IsSubstring(needle, hay[1..]))
  }

  /** `key in container` for a string `key`: a key test on a dict, a substring
      test on a string, an element test on a list; a TypeError otherwise. */
  function In(key: string, container: Value): (r: Outcome<bool>)
    ensures r.Ok? <==> container.Obj? || container.Str? || container.Arr?
    ensures container.Obj? ==> (r == Ok(true) <==> Lookup(container.fields, key).Some?)
    ensures container.Str? ==> (r == Ok(true) <==> exists i :: OccursAt(key, container.s, i))
    ensures container.Arr? ==> (r == Ok(true) <==> exists j :: 0 <= j < |container.items| && container.items[j] == Str(key))
  {
    match container
    case Obj(fields) => Ok(HasKey(fields, key))
    case Str(s) =>
      IsSubstringOccurs(key, s);
      Ok(IsSubstring(key, s))
    case Arr(items) => Ok(Str(key) in items)
    case _ => Raised
  }

  /** `len(v)`; a TypeError for a value without a length. */
  function Len(v: Value): (r: Outcome<nat>)
    ensures r.Ok? <==> v.Str? || v.Arr? || v.Obj?
    ensures v.Obj? && UniqueKeys(v.fields) ==> r == Ok(|KeySet(Keys(v.fields))|)
  {
    if v.Obj? && UniqueKeys(v.fields) then
      DistinctKeysCount(v.fields);
      Ok(|v.fields|)
    else
    match v
    case Str(s) => Ok(|s|)
    case Arr(items) => Ok(|items|)
    case Obj(fields) => Ok(|fields|)
    case _ => Raised
  }

  /** Number of bytes of one character in UTF-8. */
  function Utf8Width(c: char): nat {
    if c as int < 0x80 then 1
    else if c as int < 0x800 then 2
    else if c as int < 0x1_0000 then 3
    else 4
  }

  /** `len(s.encode('utf-8'))`. */
  function Utf8Length(s: string): (r: nat)
    ensures |s| <= r <= 4 * |s|
  {
    if s == [] then 0 else Utf8Width(s[0]) + Utf8Length(s[1..])
  }

  /** `v[key]` for a string `key`: the value on a dict that holds the key, a
      KeyError on a dict that does not, and a TypeError on a string, a list or
      a scalar (none of them can be subscripted, assigned or deleted by a
      string key). */
  function ItemAccess(v: Value, key: string): Outcome<Value> {
    match v
    case Obj(fields) =>
      (match Lookup(fields, key)
       case Some(x) => Ok(x)
       case None => Raised)
    case _ => Raised
  }

  /**
   * The pattern `if key in v: ... v[key] ...` (a read, a `del` or an
   * assignment), for each of `keys` in turn, on a value `v` that is not a
   * dict. Each step evaluates the membership test, then the item access when
   * the key is found. The contract is the closed form: the code leaves `v`
   * alone exactly when no key is found in it, and raises otherwise.
   */
  function NonDictAccess(v: Value, keys: seq<string>): (r: Outcome<Value>)
    requires !v.Obj?
    ensures r.Ok? <==> forall i :: 0 <= i < |keys| ==> In(keys[i], v) == Ok(false)
    ensures r.Ok? ==> r.value == v
    decreases |keys|
  {
    if keys == [] then Ok(v)
    else
      var found :- In(keys[0], v);
      var item :- if found then ItemAccess(v, keys[0]) else Ok(v);
      NonDictAccess(v, keys[1..])
  }

  // Facts about the dict operations.

  lemma {:induction false} ReplaceWithSame(fields: seq<Field>, k: string, v: Value)
    requires Lookup(fields, k) == Some(v)
    ensures Replace(fields, k, v) == fields
  {
    if fields != [] && fields[0].0 != k {
      ReplaceWithSame(fields[1..], k, v);
    }
  }

  /** In a dict without repeated keys, `d.get(k)` is the value stored under `k`. */
  lemma {:induction false} LookupStored(fields: seq<Field>, k: string, v: Value)
    requires UniqueKeys(fields) && (k, v) in fields
    ensures Lookup(fields, k) == Some(v)
  {
    if fields[0] != (k, v) {
      var rest := fields[1..];
      assert (k, v) in rest;
      var j :| 0 <= j < |rest| && rest[j] == (k, v);
      assert fields[j + 1] == (k, v);
      assert fields[0].0 != k;
      assert UniqueKeys(rest) by {
        forall i, j | 0 <= i < j < |rest|
          ensures rest[i].0 != rest[j].0
        {
          assert rest[i] == fields[i + 1] && rest[j] == fields[j + 1];
        }
      }
      LookupStored(rest, k, v);
    }
  }

  lemma {:induction false} RemoveKeysUnion(fields: seq<Field>, a: set<string>, b: set<string>)
    ensures RemoveKeys(RemoveKeys(fields, a), b) == RemoveKeys(fields, a + b)
  {
    if fields != [] {
      RemoveKeysUnion(fields[1..], a, b);
    }
  }

  lemma {:induction false} RemoveAbsentKeys(fields: seq<Field>, ks: set<string>)
    requires forall k :: k in ks ==> !HasKey(fields, k)
    ensures RemoveKeys(fields, ks) == fields
  {
    if fields != [] {
      assert fields[0].0 == Keys(fields)[0];
      assert Keys(fields[1..]) == Keys(fields)[1..];
      RemoveAbsentKeys(fields[1..], ks);
    }
  }

  lemma {:induction false} KeysOfRemoveKeys(fields: seq<Field>, ks: set<string>)
    ensures Keys(RemoveKeys(fields, ks)) == RemoveAll(Keys(fields), ks)
  {
    if fields != [] {
      assert Keys(fields)[1..] == Keys(fields[1..]);
      KeysOfRemoveKeys(fields[1..], ks);
    }
  }

  /** The strings of `s` that are not in `ks`, in order. */
  function RemoveAll(s: seq<string>, ks: set<string>): seq<string> {
    if s == [] then [] else (if s[0] in ks then [] else [s[0]]) + RemoveAll(s[1..], ks)
  }

  lemma {:induction false} RemoveKeysOfReplace(fields: seq<Field>, k: string, v: Value, ks: set<string>)
    requires k !in ks
    ensures RemoveKeys(Replace(fields, k, v), ks) == Replace(RemoveKeys(fields, ks), k, v)
  {
    if fields != [] && fields[0].0 != k {
      RemoveKeysOfReplace(fields[1..], k, v, ks);
    }
  }

  lemma {:induction false} ReplaceCommutes(fields: seq<Field>, k1: string, v1: Value, k2: string, v2: Value)
    requires k1 != k2
    ensures Replace(Replace(fields, k1, v1), k2, v2) == Replace(Replace(fields, k2, v2), k1, v1)
  {
    if fields != [] && fields[0].0 != k1 && fields[0].0 != k2 {
      ReplaceCommutes(fields[1..], k1, v1, k2, v2);
    }
  }

  lemma {:induction false} RemoveAllUnion(s: seq<string>, a: set<string>, b: set<string>)
    ensures RemoveAll(RemoveAll(s, a), b) == RemoveAll(s, a + b)
  {
    if s != [] {
      RemoveAllUnion(s[1..], a, b);
      var rest := RemoveAll(s[1..], a);
      if s[0] in a {
        assert RemoveAll(s, a) == [] + rest == rest;
      } else {
        var t := [s[0]] + rest;
        assert RemoveAll(s, a) == t;
        assert t[0] == s[0] && t[1..] == rest;
      }
    }
  }

  lemma DeleteOneMore(fields: seq<Field>, keys: seq<string>, j: nat)
    requires j < |keys|
    ensures RemoveKeys(RemoveKeys(fields, KeySet(keys[..j])), {keys[j]}) == RemoveKeys(fields, KeySet(keys[..j + 1]))
  {
    RemoveKeysUnion(fields, KeySet(keys[..j]), {keys[j]});
    assert keys[..j + 1] == keys[..j] + [keys[j]];
    assert KeySet(keys[..j + 1]) == KeySet(keys[..j]) + {keys[j]};
  }

  /** The loop `for key in keys: if key in d: del d[key]`. */
  method DeletePresent(fields: seq<Field>, keys: seq<string>) returns (r: seq<Field>)
    ensures r == RemoveKeys(fields, KeySet(keys))
  {
    r := fields;
    assert KeySet(keys[..0]) == {};
    RemoveAbsentKeys(fields, {});
    for j := 0 to |keys|
      invariant r == RemoveKeys(fields, KeySet(keys[..j]))
    {
      DeleteOneMore(fields, keys, j);
      if HasKey(r, keys[j]) {
        r := RemoveKeys(r, {keys[j]});
      } else {
        RemoveAbsentKeys(r, {keys[j]});
      }
    }
    assert keys[..|keys|] == keys;
  }

  /** A substring test is a search for an index where the needle occurs. */
  lemma {:induction false} IsSubstringOccurs(needle: string, hay: string)
    ensures IsSubstring(needle, hay) <==> exists i :: OccursAt(needle, hay, i)
    decreases |hay|
  {
    if hay != [] {
      IsSubstringOccurs(needle, hay[1..]);
      forall i | OccursAt(needle, hay[1..], i)
        ensures OccursAt(needle, hay, i + 1)
      {
        assert hay[1..][i..i + |needle|] == hay[i + 1..i + 1 + |needle|];
      }
      forall i | OccursAt(needle, hay, i) && i > 0
        ensures OccursAt(needle, hay[1..], i - 1)
      {
        assert hay[1..][i - 1..i - 1 + |needle|] == hay[i..i + |needle|];
      }
    }
    if needle <= hay {
      assert hay[0..|needle|] == needle;
      assert OccursAt(needle, hay, 0);
    }
    if OccursAt(needle, hay, 0) {
      assert needle <= hay;
    }
  }

  /** The keys of a dict without repeats are as many as its entries. */
  lemma {:induction false} DistinctKeysCount(fields: seq<Field>)
    requires UniqueKeys(fields)
    ensures |KeySet(Keys(fields))| == |fields|
  {
    if fields != [] {
      var rest := fields[1..];
      assert UniqueKeys(rest) by {
        forall i, j | 0 <= i < j < |rest|
          ensures rest[i].0 != rest[j].0
        {
          assert rest[i] == fields[i + 1] && rest[j] == fields[j + 1];
        }
      }
      DistinctKeysCount(rest);
      assert Keys(fields) == [fields[0].0] + Keys(rest);
      assert KeySet(Keys(fields)) == {fields[0].0} + KeySet(Keys(rest));
      assert fields[0].0 !in KeySet(Keys(rest));
    }
  }
}
