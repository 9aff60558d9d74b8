/**
 * Key-casing repair of a model response (`GPTService.camel_to_snake`): every key gets an
 * underscore before each upper-case letter other than its first character and is then
 * lower-cased; nested dicts are repaired recursively, and so is every dict inside a list
 * whose first element is a dict.
 */
module KeyCase {
  import opened Wrappers
  import opened PyText
  import opened PyJson

  predicate NoUpper(s: string)
  {
    forall i :: 0 <= i < |s| ==> !IsUpper(s[i])
  }

  /** An underscore in front of every upper-case letter of `s`. */
  function InsertUnderscores(s: string): string
  {
    if s == [] then []
    else (if IsUpper(s[0]) then ['_', s[0]] else [s[0]]) + InsertUnderscores(s[1..])
  }

  /** `re.sub(r'(?<!^)(?=[A-Z])', '_', key).lower()`. */
  function SnakeKey(key: string): (r: string)
    ensures NoUpper(r)
  {
    LowerAll(if key == [] then [] else [key[0]] + InsertUnderscores(key[1..]))
  }

  lemma {:induction false} InsertUnderscoresNoUpper(s: string)
    requires NoUpper(s)
    ensures InsertUnderscores(s) == s
  {
    if s != [] {
      InsertUnderscoresNoUpper(s[1..]);
      assert [s[0]] + s[1..] == s;
    }
  }

  /** A key is left unchanged exactly when it has no upper-case letter. */
  lemma SnakeKeyFixedIff(key: string)
    ensures SnakeKey(key) == key <==> NoUpper(key)
  {
    if NoUpper(key) && key != [] {
      InsertUnderscoresNoUpper(key[1..]);
      assert [key[0]] + key[1..] == key;
      assert LowerAll(key) == key;
    }
  }

  /** Repairing a repaired key changes nothing. */
  lemma SnakeKeyIdempotent(key: string)
    ensures SnakeKey(SnakeKey(key)) == SnakeKey(key)
  {
    SnakeKeyFixedIff(SnakeKey(key));
  }

  lemma UnderscoreExample()
    ensures InsertUnderscores("obTitle") == "ob_Title"
  {
    InsertUnderscoresNoUpper("itle");
    assert InsertUnderscores("Title") == ['_', 'T'] + "itle";
  }

  lemma LowerExample()
    ensures LowerAll("job_Title") == "job_title"
  {
    var w := "job_Title";
    forall i | 0 <= i < |w| ensures LowerAll(w)[i] == "job_title"[i] {
    }
  }

  /** `jobTitle` is repaired to `job_title`. */
  lemma SnakeKeyExample()
    ensures SnakeKey("jobTitle") == "job_title"
  {
    UnderscoreExample();
    LowerExample();
    assert "jobTitle"[1..] == "obTitle";
    assert ['j'] + "ob_Title" == "job_Title";
  }

  /** The repaired form of one value: what `camel_to_snake` stores for it. */
  function SnakeValue(v: Json): Json
  {
    match v
    case JObject(fs) => JObject(SnakeFields(fs))
    case JArray(items) =>
      if |items| > 0 && items[0].JObject? then JArray(SnakeItems(items)) else v
    case _ => v
  }

  /** Element-wise repair of a list that starts with a dict: dicts are repaired, the rest kept. */
  function SnakeItems(items: seq<Json>): (r: seq<Json>)
    ensures |r| == |items|
  {
    if items == [] then []
    else
      var last := items[|items| - 1];
      SnakeItems(items[..|items| - 1]) + [if last.JObject? then JObject(SnakeFields(last.fields)) else last]
  }

  /** The dict `camel_to_snake` builds: entries stored in order under their repaired keys. */
  function SnakeFields(fs: seq<Entry>): seq<Entry>
  {
    if fs == [] then []
    else
      var last := fs[|fs| - 1];
      Store(SnakeFields(fs[..|fs| - 1]), SnakeKey(last.key), SnakeValue(last.value))
  }

  /** `GPTService.camel_to_snake`: fills a fresh dict in one pass over the input. */
  method CamelToSnake(camel: seq<Entry>) returns (snake: seq<Entry>)
    ensures snake == SnakeFields(camel)
  {
    snake := [];
    var i := 0;
    while i < |camel|
      invariant 0 <= i <= |camel|
      invariant snake == SnakeFields(camel[..i])
    {
      var value := SnakeValueOf(camel[i].value);
      SnakeFieldsStep(camel, i);
      snake := Store(snake, SnakeKey(camel[i].key), value);
      i := i + 1;
    }
    assert camel[..i] == camel;
  }

  /** The value `camel_to_snake` stores for one entry: a nested dict or a list of dicts is repaired in turn. */
  method SnakeValueOf(v: Json) returns (r: Json)
    ensures r == SnakeValue(v)
  {
    r := v;
    if v.JObject? {
      var converted := CamelToSnake(v.fields);
      r := JObject(converted);
    } else if v.JArray? && |v.items| > 0 && v.items[0].JObject? {
      var converted := CamelToSnakeItems(v.items);
      r := JArray(converted);
    }
  }

  lemma SnakeFieldsStep(camel: seq<Entry>, i: nat)
    requires i < |camel|
    ensures SnakeFields(camel[..i + 1])
         == Store(SnakeFields(camel[..i]), SnakeKey(camel[i].key), SnakeValue(camel[i].value))
  {
    assert camel[..i + 1][..i] == camel[..i];
  }

  lemma SnakeItemsStep(items: seq<Json>, j: nat)
    requires j < |items|
    ensures SnakeItems(items[..j + 1])
         == SnakeItems(items[..j]) + [if items[j].JObject? then JObject(SnakeFields(items[j].fields)) else items[j]]
  {
    assert items[..j + 1][..j] == items[..j];
  }

  /** The list comprehension of `camel_to_snake`: dicts repaired, other items kept as they are. */
  method CamelToSnakeItems(items: seq<Json>) returns (converted: seq<Json>)
    ensures converted == SnakeItems(items)
  {
    converted := [];
    var j := 0;
    while j < |items|
      invariant 0 <= j <= |items|
      invariant converted == SnakeItems(items[..j])
    {
      var item := items[j];
      if item.JObject? {
        var fields := CamelToSnake(item.fields);
        item := JObject(fields);
      }
      SnakeItemsStep(items, j);
      converted := converted + [item];
      j := j + 1;
    }
    assert items[..j] == items;
  }

  /**
   * A value already in repaired form: every key reached by the repair is lower-case and
   * unique within its dict. Lists whose first element is not a dict are never entered.
   */
  ghost predicate CanonicalValue(v: Json)
  {
    match v
    case JObject(fs) => CanonicalFields(fs)
    case JArray(items) => |items| > 0 && items[0].JObject? ==> CanonicalItems(items)
    case _ => true
  }

  ghost predicate CanonicalItems(items: seq<Json>)
  {
    forall i :: 0 <= i < |items| ==> items[i].JObject? ==> CanonicalFields(items[i].fields)
  }

  ghost predicate CanonicalFields(fs: seq<Entry>)
  {
    && IsDict(fs)
    && (forall i :: 0 <= i < |fs| ==> NoUpper(fs[i].key))
    && (forall i :: 0 <= i < |fs| ==> CanonicalValue(fs[i].value))
  }

  /** Every entry after `d[k] = v` is the new one or was already there. */
  lemma {:induction false} StoreEntries(d: seq<Entry>, k: string, v: Json)
    ensures forall i :: 0 <= i < |Store(d, k, v)| ==> Store(d, k, v)[i] == Entry(k, v) || Store(d, k, v)[i] in d
  {
    if |d| > 0 && d[0].key != k {
      StoreEntries(d[1..], k, v);
    }
  }

  /** The repair yields repaired form. */
  lemma {:induction false} SnakeValueCanonical(v: Json)
    ensures CanonicalValue(SnakeValue(v))
    decreases v, 1
  {
    match v
    case JObject(fs) => SnakeFieldsCanonical(fs);
    case JArray(items) =>
      if |items| > 0 && items[0].JObject? {
        SnakeItemsCanonical(items);
      }
    case _ =>
  }

  lemma {:induction false} SnakeItemsCanonical(items: seq<Json>)
    ensures CanonicalItems(SnakeItems(items))
    decreases items, 0
  {
    if items != [] {
      var last := items[|items| - 1];
      SnakeItemsCanonical(items[..|items| - 1]);
      if last.JObject? {
        SnakeFieldsCanonical(last.fields);
      }
    }
  }

  lemma {:induction false} SnakeFieldsCanonical(fs: seq<Entry>)
    ensures CanonicalFields(SnakeFields(fs))
    decreases fs, 0
  {
    if fs != [] {
      var last := fs[|fs| - 1];
      var prefix := SnakeFields(fs[..|fs| - 1]);
      SnakeFieldsCanonical(fs[..|fs| - 1]);
      SnakeValueCanonical(last.value);
      var k, v := SnakeKey(last.key), SnakeValue(last.value);
      StoreKeepsDict(prefix, k, v);
      StoreEntries(prefix, k, v);
      var r := Store(prefix, k, v);
      forall i | 0 <= i < |r| ensures NoUpper(r[i].key) && CanonicalValue(r[i].value) {
        if r[i] != Entry(k, v) {
          var j :| 0 <= j < |prefix| && prefix[j] == r[i];
        }
      }
    }
  }

  /** A value already in repaired form is returned unchanged. */
  lemma {:induction false} CanonicalValueFixed(v: Json)
    requires CanonicalValue(v)
    ensures SnakeValue(v) == v
    decreases v, 1
  {
    match v
    case JObject(fs) => CanonicalFieldsFixed(fs);
    case JArray(items) =>
      if |items| > 0 && items[0].JObject? {
        CanonicalItemsFixed(items);
      }
    case _ =>
  }

  lemma {:induction false} CanonicalItemsFixed(items: seq<Json>)
    requires CanonicalItems(items)
    ensures SnakeItems(items) == items
    decreases items, 0
  {
    if items != [] {
      var n := |items| - 1;
      var last := items[n];
      assert CanonicalItems(items[..n]);
      CanonicalItemsFixed(items[..n]);
      if last.JObject? {
        CanonicalFieldsFixed(last.fields);
      }
      assert items[..n] + [last] == items;
    }
  }

  lemma CanonicalFieldsPrefix(fs: seq<Entry>, n: nat)
    requires CanonicalFields(fs) && n <= |fs|
    ensures CanonicalFields(fs[..n])
    ensures forall i :: n <= i < |fs| ==> fs[i].key !in Keys(fs[..n])
  {
    assert Keys(fs[..n]) == Keys(fs)[..n];
  }

  /** The last step of `SnakeFields` on a repaired dict appends the last entry unchanged. */
  lemma FixedLastEntry(fs: seq<Entry>)
    requires fs != [] && CanonicalFields(fs)
    requires SnakeFields(fs[..|fs| - 1]) == fs[..|fs| - 1]
    requires SnakeValue(fs[|fs| - 1].value) == fs[|fs| - 1].value
    ensures SnakeFields(fs) == fs
  {
    var n := |fs| - 1;
    var last := fs[n];
    CanonicalFieldsPrefix(fs, n);
    SnakeKeyFixedIff(last.key);
    StoreAbsent(fs[..n], last.key, last.value);
    assert fs[..n] + [last] == fs;
  }

  lemma {:induction false} CanonicalFieldsFixed(fs: seq<Entry>)
    requires CanonicalFields(fs)
    ensures SnakeFields(fs) == fs
    decreases fs, 0
  {
    if fs != [] {
      var n := |fs| - 1;
      CanonicalFieldsPrefix(fs, n);
      CanonicalFieldsFixed(fs[..n]);
      CanonicalValueFixed(fs[n].value);
      FixedLastEntry(fs);
    }
  }

  /** `camel_to_snake` is idempotent. */
  lemma SnakeFieldsIdempotent(fs: seq<Entry>)
    ensures SnakeFields(SnakeFields(fs)) == SnakeFields(fs)
  {
    SnakeFieldsCanonical(fs);
    CanonicalFieldsFixed(SnakeFields(fs));
  }

  /** The output of `camel_to_snake` is a dict whose keys have no upper-case letter. */
  lemma SnakeFieldsKeys(fs: seq<Entry>)
    ensures IsDict(SnakeFields(fs))
    ensures forall k :: k in Keys(SnakeFields(fs)) ==> NoUpper(k)
  {
    SnakeFieldsCanonical(fs);
  }

  /** Index of the last entry whose key repairs to `k`. */
  function LastWith(fs: seq<Entry>, k: string): (r: Option<nat>)
    ensures r.Some? ==> r.value < |fs| && SnakeKey(fs[r.value].key) == k
    ensures r.Some? ==> forall j :: r.value < j < |fs| ==> SnakeKey(fs[j].key) != k
    ensures r.None? ==> forall j :: 0 <= j < |fs| ==> SnakeKey(fs[j].key) != k
  {
    if fs == [] then None
    else if SnakeKey(fs[|fs| - 1].key) == k then Some(|fs| - 1)
    else
      var prev := LastWith(fs[..|fs| - 1], k);
      LastWithEarlier(fs, fs[..|fs| - 1], k, prev, SnakeKey);
      prev
  }

  /** When the last entry's key does not map to `k`, the answer for the entries before it is the answer; `repair`
    * stands for the key repair. */
  lemma LastWithEarlier(fs: seq<Entry>, init: seq<Entry>, k: string, prev: Option<nat>, repair: string -> string)
    requires |fs| > 0 && init == fs[..|fs| - 1] && repair(fs[|fs| - 1].key) != k
    requires prev.Some? ==> prev.value < |init| && repair(init[prev.value].key) == k
    requires prev.Some? ==> forall j :: prev.value < j < |init| ==> repair(init[j].key) != k
    requires prev.None? ==> forall j :: 0 <= j < |init| ==> repair(init[j].key) != k
    ensures prev.Some? ==> prev.value < |fs| && repair(fs[prev.value].key) == k
    ensures prev.Some? ==> forall j :: prev.value < j < |fs| ==> repair(fs[j].key) != k
    ensures prev.None? ==> forall j :: 0 <= j < |fs| ==> repair(fs[j].key) != k
  {
    var n := |fs| - 1;
    if prev.Some? {
      assert init[prev.value] == fs[prev.value];
      forall j | prev.value < j < |fs| ensures repair(fs[j].key) != k {
        if j < n {
          assert init[j] == fs[j];
        }
      }
    } else {
      forall j | 0 <= j < |fs| ensures repair(fs[j].key) != k {
        if j < n {
          assert init[j] == fs[j];
        }
      }
    }
  }

  /**
   * When several input keys repair to the same key, the one that comes last in
   * iteration order supplies the value; a key nothing repairs to is absent.
   */
  lemma {:induction false} SnakeFieldsLookup(fs: seq<Entry>, k: string)
    ensures Lookup(SnakeFields(fs), k) ==
            match LastWith(fs, k)
            case None => None
            case Some(i) => Some(SnakeValue(fs[i].value))
  {
    if fs != [] {
      var n := |fs| - 1;
      SnakeFieldsLookup(fs[..n], k);
      if SnakeKey(fs[n].key) != k {
        match LastWith(fs[..n], k)
        case None =>
        case Some(i) => assert fs[..n][i] == fs[i];
      }
    }
  }
}
