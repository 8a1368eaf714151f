/**
 * The request side of the `/dogs` routes: a parsed JSON body as the handlers
 * see it through `Object.keys`, `Object.entries` and destructuring, and the
 * four fields a Dog carries.
 */
module Request {

  datatype Option<T> = None | Some(value: T)

  /**
   * A JSON value, distinguished only as far as the handlers' `typeof` tests
   * distinguish it. A number is kept as an opaque value: nothing does
   * arithmetic on it.
   */
  datatype Value =
    | JString(s: string)
    | JNumber(n: real)
    | JOther            // boolean, null, array or object

  /** One own property of the body, in the order `Object.entries` yields it. */
  datatype Entry = Entry(key: string, value: Value)

  /** A request body: its own properties in iteration order. */
  type Body = seq<Entry>

  /** `Object.keys(body)`: the keys, in the same order as the entries. */
  function Keys(body: Body): (ks: seq<string>)
    ensures |ks| == |body| && forall i :: 0 <= i < |body| ==> ks[i] == body[i].key
  {
    seq(|body|, i requires 0 <= i < |body| => body[i].key)
  }

  /** The set of keys the body has. */
  function KeySet(body: Body): set<string>
  {
    if body == [] then {} else {body[0].key} + KeySet(body[1..])
  }

  /** A JavaScript object never has the same own key twice. */
  predicate DistinctKeys(body: Body)
  {
    forall i, j :: 0 <= i < j < |body| ==> body[i].key != body[j].key
  }

  /**
   * Property access `body[key]`: the value stored under `key`, or None where
   * JavaScript yields `undefined`.
   */
  function Lookup(body: Body, key: string): (v: Option<Value>)
    ensures v.Some? <==> key in KeySet(body)
    ensures v.Some? ==> Entry(key, v.value) in body
  {
    if body == [] then None
    else if body[0].key == key then Some(body[0].value)
    else Lookup(body[1..], key)
  }

  /** With distinct keys, the lookup of an entry's key finds that entry's value. */
  lemma {:induction false} LookupFindsEntry(body: Body, i: nat)
    requires DistinctKeys(body) && i < |body|
    ensures Lookup(body, body[i].key) == Some(body[i].value)
  {
    if i > 0 {
      assert body[0].key != body[i].key;
      assert body[1..][i - 1] == body[i];
      LookupFindsEntry(body[1..], i - 1);
    }
  }

  /** The keys of a body with distinct keys are as many as its entries. */
  lemma {:induction false} DistinctKeysCount(body: Body)
    requires DistinctKeys(body)
    ensures |KeySet(body)| == |body|
  {
    if body != [] {
      DistinctKeysCount(body[1..]);
      if body[0].key in KeySet(body[1..]) {
        var v := Lookup(body[1..], body[0].key);
        assert false;
      }
    }
  }

  lemma {:induction false} KeySetMembers(body: Body)
    ensures forall k :: k in KeySet(body) <==> exists i :: 0 <= i < |body| && body[i].key == k
  {
    if body != [] {
      KeySetMembers(body[1..]);
      forall k | k in KeySet(body)
        ensures exists i :: 0 <= i < |body| && body[i].key == k
      {
        if k != body[0].key {
          assert k in KeySet(body[1..]);
          var i :| 0 <= i < |body[1..]| && body[1..][i].key == k;
          assert body[i + 1].key == k;
        }
      }
      forall k | exists i :: 0 <= i < |body| && body[i].key == k
        ensures k in KeySet(body)
      {
        var i :| 0 <= i < |body| && body[i].key == k;
        if i > 0 {
          assert body[1..][i - 1].key == k;
        }
      }
    }
  }

  /** The fields of a Dog that a request may name. */
  datatype Field = Name | Breed | Description | Age

  /** The handlers' list of recognised keys. */
  const AllowedKeys: seq<string> := ["name", "breed", "description", "age"]

  function FieldKey(f: Field): string
  {
    match f
    case Name => "name"
    case Breed => "breed"
    case Description => "description"
    case Age => "age"
  }

  /** The field a key names, if it is one of the recognised keys. */
  function FieldOf(key: string): (f: Option<Field>)
    ensures f.Some? <==> key in AllowedKeys
    ensures f.Some? ==> FieldKey(f.value) == key
  {
    if key == "name" then Some(Name)
    else if key == "breed" then Some(Breed)
    else if key == "description" then Some(Description)
    else if key == "age" then Some(Age)
    else None
  }

  lemma FieldKeyRoundTrip(f: Field)
    ensures FieldOf(FieldKey(f)) == Some(f)
    ensures FieldKey(f) in AllowedKeys
  {
  }

  /**
   * The `typeof` test the handlers apply to a field: `age` must be a number,
   * the others strings; an absent field (`undefined`) conforms to neither.
   */
  predicate Conforms(f: Field, v: Option<Value>)
  {
    match f
    case Age => v.Some? && v.value.JNumber?
    case _ => v.Some? && v.value.JString?
  }
}
