/**
 * The already-parsed value tree that a save string turns into, and the few
 * JavaScript operations the faction loader applies to it: truthiness,
 * `typeof v === "object"`, destructuring an own property and `Object.entries`.
 */
module Json {
  import opened Optional

  /** A plain value tree. An object keeps its entries in insertion order. */
  datatype Value =
    | Null
    | Bool(b: bool)
    | Num(n: real)
    | Str(s: string)
    | Arr(items: seq<Value>)
    | Obj(entries: seq<(string, Value)>)

  /** JavaScript truthiness: null, false, 0 and "" are falsy; every array and object is truthy. */
  function Truthy(v: Value): (b: bool)
    ensures !b <==> v == Null || v == Bool(false) || v == Num(0.0) || v == Str("")
  {
    match v
    case Null => false
    case Bool(b) => b
    case Num(n) => n != 0.0
    case Str(s) => s != ""
    case Arr(_) => true
    case Obj(_) => true
  }

  /** `typeof v === "object"`, which holds of null, of arrays and of objects. */
  function IsObjectType(v: Value): (b: bool)
    ensures b <==> !(v.Bool? || v.Num? || v.Str?)
  {
    v.Null? || v.Arr? || v.Obj?
  }

  /** No key occurs twice, as in every object a parser produces. */
  predicate DistinctKeys(es: seq<(string, Value)>) {
    forall i, j :: 0 <= i < j < |es| ==> es[i].0 != es[j].0
  }

  /**
   * The value of property `key` of an object written with entries `es`: when
   * the text repeats a key, the parsed object holds the value written last.
   */
  function Lookup(es: seq<(string, Value)>, key: string): (r: Option<Value>)
    ensures r.None? <==> forall i :: 0 <= i < |es| ==> es[i].0 != key
    ensures r.Some? ==> exists i :: 0 <= i < |es| && es[i] == (key, r.value)
                                  && forall j :: i < j < |es| ==> es[j].0 != key
    decreases |es|
  {
    if es == [] then None
    else if es[|es| - 1].0 == key then Some(es[|es| - 1].1)
    else Lookup(es[..|es| - 1], key)
  }

  /** With distinct keys, the lookup finds exactly the entry carrying the key. */
  lemma LookupDistinct(es: seq<(string, Value)>, i: nat)
    requires DistinctKeys(es) && i < |es|
    ensures Lookup(es, es[i].0) == Some(es[i].1)
  {
  }

  /** Looking up in a concatenation: the later part wins. */
  lemma {:induction false} LookupAppend(a: seq<(string, Value)>, b: seq<(string, Value)>, key: string)
    ensures Lookup(a + b, key) == if Lookup(b, key).Some? then Lookup(b, key) else Lookup(a, key)
    decreases |b|
  {
    if b == [] {
      assert a + b == a;
    } else {
      var init := b[..|b| - 1];
      assert (a + b)[..|a + b| - 1] == a + init;
      LookupAppend(a, init, key);
    }
  }

  /**
   * Destructuring `{ key } = v`: an own property of an object. An array has
   * none of the record's property names, so each of them reads as undefined.
   */
  function Field(v: Value, key: string): (r: Option<Value>)
    ensures !v.Obj? ==> r.None?
  {
    if v.Obj? then Lookup(v.entries, key) else None
  }

  /** The decimal digit `d` as a character. */
  function DigitChar(d: nat): (c: char)
    requires d < 10
    ensures '0' <= c <= '9'
  {
    "0123456789"[d]
  }

  /** The property key of array index `i`: its decimal numeral. */
  function IndexKey(i: nat): (s: string)
    ensures |s| > 0 && '0' <= s[0] <= '9'
  {
    if i < 10 then [DigitChar(i)] else IndexKey(i / 10) + [DigitChar(i % 10)]
  }

  /** The keys of `es` without repeats, each at its first occurrence. */
  function Keys(es: seq<(string, Value)>): (ks: seq<string>)
    ensures forall i :: 0 <= i < |es| ==> es[i].0 in ks
    ensures forall j :: 0 <= j < |ks| ==> exists i :: 0 <= i < |es| && es[i].0 == ks[j]
    ensures forall i, j :: 0 <= i < j < |ks| ==> ks[i] != ks[j]
    decreases |es|
  {
    if es == [] then []
    else
      var ks := Keys(es[..|es| - 1]);
      if es[|es| - 1].0 in ks then ks else ks + [es[|es| - 1].0]
  }

  /**
   * `Object.entries(v)` for a truthy value whose `typeof` is "object": an
   * array's elements keyed by their index; an object's properties in the order
   * they were first written, each with the value it was written last, which
   * is what parsing text with a repeated key produces.
   */
  function Entries(v: Value): (es: seq<(string, Value)>)
    requires v.Arr? || v.Obj?
    ensures v.Arr? ==> |es| == |v.items|
    ensures v.Arr? ==> forall i :: 0 <= i < |es| ==> es[i] == (IndexKey(i), v.items[i])
    ensures v.Obj? ==> DistinctKeys(es)
  {
    match v
    case Obj(written) =>
      var ks := Keys(written);
      seq(|ks|, i requires 0 <= i < |ks| => (ks[i], Lookup(written, ks[i]).value))
    case Arr(items) => seq(|items|, i requires 0 <= i < |items| => (IndexKey(i), items[i]))
  }

  /** An object's entries hold each property with the value a lookup of the written entries finds. */
  lemma EntriesLookup(v: Value, key: string)
    requires v.Obj?
    ensures Lookup(Entries(v), key) == Lookup(v.entries, key)
  {
    var es, ks := Entries(v), Keys(v.entries);
    if Lookup(v.entries, key).Some? {
      var i :| 0 <= i < |v.entries| && v.entries[i].0 == key;
      assert key in ks;
      var j :| 0 <= j < |ks| && ks[j] == key;
      LookupDistinct(es, j);
    } else {
      forall j | 0 <= j < |es| ensures es[j].0 != key {
        var i :| 0 <= i < |v.entries| && v.entries[i].0 == ks[j];
      }
    }
  }
}
