/**
 * JSON-compatible Python values and the dict operations the pipeline uses. A Python dict
 * keeps its keys in insertion order, so a dict is modelled as an ordered list of entries:
 * `Store` is `d[k] = v` (an existing key keeps its place, a new key goes last) and `Lookup`
 * is `d.get(k)` that tells an absent key apart from a key bound to `None`.
 */
module PyJson {
  import opened Wrappers

  datatype Json =
    | JNull
    | JBool(b: bool)
    | JInt(n: int)
    | JString(s: string)
    | JArray(items: seq<Json>)
    | JObject(fields: seq<Entry>)

  datatype Entry = Entry(key: string, value: Json)

  /** The keys of a dict, in insertion order. */
  function Keys(d: seq<Entry>): (ks: seq<string>)
    ensures |ks| == |d|
    ensures forall i :: 0 <= i < |d| ==> ks[i] == d[i].key
  {
    seq(|d|, i requires 0 <= i < |d| => d[i].key)
  }

  predicate Distinct(ks: seq<string>)
  {
    forall i, j :: 0 <= i < j < |ks| ==> ks[i] != ks[j]
  }

  /** A well-formed dict: no key occurs twice. */
  predicate IsDict(d: seq<Entry>)
  {
    Distinct(Keys(d))
  }

  /** `d.get(k)`, with `None` standing for an absent key. */
  function Lookup(d: seq<Entry>, k: string): (r: Option<Json>)
    ensures r.Some? <==> k in Keys(d)
  {
    if |d| == 0 then None
    else if d[0].key == k then Some(d[0].value)
    else
      assert Keys(d) == [d[0].key] + Keys(d[1..]);
      Lookup(d[1..], k)
  }

  /** In a dict whose keys are distinct, the entry at position `i` is what lookup finds. */
  lemma {:induction false} LookupAt(d: seq<Entry>, i: nat)
    requires IsDict(d) && i < |d|
    ensures Lookup(d, d[i].key) == Some(d[i].value)
  {
    if i > 0 {
      assert d[0].key != d[i].key;
      assert Keys(d[1..])[i - 1] == d[i].key;
      LookupAt(d[1..], i - 1);
    }
  }

  /** Lookup in a dict that starts with entry `e`. */
  lemma LookupCons(e: Entry, rest: seq<Entry>)
    ensures forall k :: Lookup([e] + rest, k) == if e.key == k then Some(e.value) else Lookup(rest, k)
  {
    assert ([e] + rest)[1..] == rest;
  }

  lemma KeysCons(e: Entry, rest: seq<Entry>)
    ensures Keys([e] + rest) == [e.key] + Keys(rest)
  {
  }

  /** `d[k] = v`. */
  function Store(d: seq<Entry>, k: string, v: Json): (r: seq<Entry>)
    ensures Lookup(r, k) == Some(v)
    ensures forall k' :: k' != k ==> Lookup(r, k') == Lookup(d, k')
    ensures Keys(r) == if k in Keys(d) then Keys(d) else Keys(d) + [k]
  {
    if |d| == 0 then [Entry(k, v)]
    else if d[0].key == k then
      StoreHere(d, k, v);
      [Entry(k, v)] + d[1..]
    else
      var rest := Store(d[1..], k, v);
      StoreLater(d, k, v, rest);
      [d[0]] + rest
  }

  /** What `Store` promises: `r` is `d` with `k` bound to `v`. */
  ghost predicate Stored(d: seq<Entry>, k: string, v: Json, r: seq<Entry>)
  {
    && Lookup(r, k) == Some(v)
    && (forall k' :: k' != k ==> Lookup(r, k') == Lookup(d, k'))
    && Keys(r) == if k in Keys(d) then Keys(d) else Keys(d) + [k]
  }

  lemma StoreHere(d: seq<Entry>, k: string, v: Json)
    requires |d| > 0 && d[0].key == k
    ensures Stored(d, k, v, [Entry(k, v)] + d[1..])
  {
    assert d == [d[0]] + d[1..];
    KeysCons(d[0], d[1..]);
    KeysCons(Entry(k, v), d[1..]);
    LookupCons(Entry(k, v), d[1..]);
    LookupCons(d[0], d[1..]);
  }

  lemma StoreLater(d: seq<Entry>, k: string, v: Json, rest: seq<Entry>)
    requires |d| > 0 && d[0].key != k && Stored(d[1..], k, v, rest)
    ensures Stored(d, k, v, [d[0]] + rest)
  {
    var tail, r := d[1..], [d[0]] + rest;
    assert d == [d[0]] + tail;
    KeysCons(d[0], tail);
    KeysCons(d[0], rest);
    assert (k in Keys(d)) == (k in Keys(tail));
    if k in Keys(tail) {
      assert Keys(r) == Keys(d);
    } else {
      assert Keys(r) == [d[0].key] + (Keys(tail) + [k]) == Keys(d) + [k];
    }
    LookupCons(d[0], rest);
    LookupCons(d[0], tail);
    assert Lookup(r, k) == Lookup(rest, k);
    forall k' | k' != k
      ensures Lookup(r, k') == Lookup(d, k')
    {
      assert Lookup(rest, k') == Lookup(tail, k');
    }
  }

  /** Storing never creates a duplicate key. */
  lemma StoreKeepsDict(d: seq<Entry>, k: string, v: Json)
    requires IsDict(d)
    ensures IsDict(Store(d, k, v))
  {
    var ks := Keys(Store(d, k, v));
    if k !in Keys(d) {
      forall i, j | 0 <= i < j < |ks| ensures ks[i] != ks[j] {
        if j == |ks| - 1 {
          assert ks[i] == Keys(d)[i];
        }
      }
    }
  }

  /** Storing a key that is absent appends it. */
  lemma {:induction false} StoreAbsent(d: seq<Entry>, k: string, v: Json)
    requires k !in Keys(d)
    ensures Store(d, k, v) == d + [Entry(k, v)]
  {
    if |d| > 0 {
      assert Keys(d)[0] == d[0].key && Keys(d[1..]) == Keys(d)[1..];
      StoreAbsent(d[1..], k, v);
      StorePastHead(d, k, v);
      ConsSnoc(d, Entry(k, v), Store(d, k, v), Store(d[1..], k, v));
    }
  }

  lemma StorePastHead(d: seq<Entry>, k: string, v: Json)
    requires |d| > 0 && d[0].key != k
    ensures Store(d, k, v) == [d[0]] + Store(d[1..], k, v)
  {
  }

  lemma ConsSnoc(d: seq<Entry>, e: Entry, whole: seq<Entry>, rest: seq<Entry>)
    requires |d| > 0 && whole == [d[0]] + rest && rest == d[1..] + [e]
    ensures whole == d + [e]
  {
    assert d == [d[0]] + d[1..];
  }

  /** `d.get(k, default)`: a key bound to `None` yields `None`, not the default. */
  function GetOr(d: seq<Entry>, k: string, default: Json): (r: Json)
    ensures k in Keys(d) ==> Lookup(d, k) == Some(r)
    ensures k !in Keys(d) ==> r == default
  {
    match Lookup(d, k)
    case Some(v) => v
    case None => default
  }

  /** Python truthiness (`bool(v)`). */
  predicate Truthy(v: Json)
  {
    match v
    case JNull => false
    case JBool(b) => b
    case JInt(n) => n != 0
    case JString(s) => |s| > 0
    case JArray(items) => |items| > 0
    case JObject(fields) => |fields| > 0
  }

  /** Every element of a list is a string. */
  predicate AllStrings(items: seq<Json>)
  {
    forall i :: 0 <= i < |items| ==> items[i].JString?
  }

  function Strings(items: seq<Json>): (r: seq<string>)
    requires AllStrings(items)
    ensures |r| == |items|
    ensures forall i :: 0 <= i < |items| ==> items[i] == JString(r[i])
  {
    seq(|items|, i requires 0 <= i < |items| => items[i].s)
  }

  function StringValues(xs: seq<string>): (r: seq<Json>)
    ensures |r| == |xs| && AllStrings(r)
    ensures forall i :: 0 <= i < |xs| ==> r[i] == JString(xs[i])
  {
    seq(|xs|, i requires 0 <= i < |xs| => JString(xs[i]))
  }

  lemma StringsOfValues(xs: seq<string>)
    ensures Strings(StringValues(xs)) == xs
  {
    assert forall i :: 0 <= i < |xs| ==> Strings(StringValues(xs))[i] == xs[i];
  }
}
