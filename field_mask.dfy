/** The outbound field mask: a JSON object loses every key that the listed excluded-field
    categories name. The object is an ordered list of (key, value) members. */
module FieldMask {
  import opened Wrappers

  datatype JsonValue =
    | JNull
    | JBool(b: bool)
    | JNum(n: int)
    | JStr(s: string)
    | JArray(items: seq<JsonValue>)
    | JObject(members: seq<(string, JsonValue)>)

  /** The members of a JSON object, in serialisation order. */
  type JsonObject = seq<(string, JsonValue)>

  /** The categories of fields a caller can exclude from an update (`ExcludedFields`);
      any other value of the enumeration is `Unsupported`. */
  datatype ExcludedField =
    | ProductPrice
    | ProductDiscount
    | ProductName
    | Sku
    | Stock
    | ProductAttributes
    | ProductDescription
    | CategoryOfProduct
    | DraftStatus
    | CategoryName
    | Unsupported(code: int)

  /** `GetFieldNamesFromEnum`: the JSON keys a category stands for; an unsupported
      category fails (the source throws `ArgumentException`). */
  function GetFieldNamesFromEnum(field: ExcludedField): (r: Result<seq<string>, ExcludedField>)
    ensures r.Failure? <==> field.Unsupported?
    ensures r.Failure? ==> r.error == field
    ensures r.Success? ==> 1 <= |r.value| <= 2 && (|r.value| == 2 ==> r.value[0] != r.value[1])
  {
    match field
    case ProductPrice => Success(["price", "compare_at_price"])
    case ProductDiscount => Success(["price"])
    case ProductName => Success(["name", "english_name"])
    case Sku => Success(["product_identifier", "parent"])
    case Stock => Success(["stock", "stock_type"])
    case ProductAttributes => Success(["attributes"])
    case ProductDescription => Success(["description", "analysis"])
    case CategoryOfProduct => Success(["main_category", "other_categories"])
    case DraftStatus => Success(["draft", "available"])
    case CategoryName => Success(["name"])
    case Unsupported(_) => Failure(field)
  }

  /** The strings of a list, as a set. */
  function KeySet(names: seq<string>): (keys: set<string>)
    ensures forall k :: k in keys <==> k in names
  {
    set k | k in names
  }

  /** The keys of one category as a set (none for an unsupported one). */
  function FieldKeys(field: ExcludedField): set<string> {
    match GetFieldNamesFromEnum(field)
    case Success(names) => KeySet(names)
    case Failure(_) => {}
  }

  /** Only the two price categories mask "price", and only `Sku` masks "parent". */
  lemma PriceAndParentOwners(field: ExcludedField)
    ensures "price" in FieldKeys(field) <==> field == ProductPrice || field == ProductDiscount
    ensures "compare_at_price" in FieldKeys(field) <==> field == ProductPrice
    ensures "parent" in FieldKeys(field) <==> field == Sku
  {
  }

  predicate AllSupported(fields: seq<ExcludedField>) {
    forall i :: 0 <= i < |fields| ==> !fields[i].Unsupported?
  }

  /** The position of the first unsupported category. */
  function FirstUnsupported(fields: seq<ExcludedField>): (i: nat)
    requires !AllSupported(fields)
    ensures i < |fields| && fields[i].Unsupported? && AllSupported(fields[..i])
  {
    if fields[0].Unsupported? then 0
    else
      assert !AllSupported(fields[1..]) by {
        var k :| 0 <= k < |fields| && fields[k].Unsupported?;
        assert fields[1..][k - 1] == fields[k];
      }
      var i := 1 + FirstUnsupported(fields[1..]);
      assert forall k :: 1 <= k < i ==> fields[..i][k] == fields[1..][..i - 1][k - 1];
      i
  }

  /** The union of the keys of the listed categories. */
  function MaskKeys(fields: seq<ExcludedField>): set<string> {
    if fields == [] then {} else MaskKeys(fields[..|fields| - 1]) + FieldKeys(fields[|fields| - 1])
  }

  /** A key is masked exactly when some listed category names it. */
  lemma {:induction false} MaskKeysMembership(fields: seq<ExcludedField>, key: string)
    ensures key in MaskKeys(fields) <==> exists i :: 0 <= i < |fields| && key in FieldKeys(fields[i])
  {
    if fields != [] {
      var init := fields[..|fields| - 1];
      MaskKeysMembership(init, key);
      if key in MaskKeys(init) {
        var i :| 0 <= i < |init| && key in FieldKeys(init[i]);
        assert fields[i] == init[i];
      }
      if exists i :: 0 <= i < |fields| && key in FieldKeys(fields[i]) {
        var i :| 0 <= i < |fields| && key in FieldKeys(fields[i]);
        if i < |init| { assert init[i] == fields[i]; }
      }
    }
  }

  /** The members of `obj` whose keys are not in `keys`, in their original order. */
  function Without(obj: JsonObject, keys: set<string>): (r: JsonObject)
    ensures |r| <= |obj|
    ensures forall m :: m in r <==> m in obj && m.0 !in keys
  {
    if obj == [] then []
    else (if obj[0].0 in keys then [] else [obj[0]]) + Without(obj[1..], keys)
  }

  predicate ContainsKey(obj: JsonObject, key: string) {
    exists i :: 0 <= i < |obj| && obj[i].0 == key
  }

  /** The value of the first member named `key`. */
  function Lookup(obj: JsonObject, key: string): (r: Option<JsonValue>)
    ensures r.None? <==> !ContainsKey(obj, key)
    ensures r.Some? ==> (key, r.value) in obj
  {
    if obj == [] then None
    else if obj[0].0 == key then Some(obj[0].1)
    else
      var r := Lookup(obj[1..], key);
      assert ContainsKey(obj, key) <==> ContainsKey(obj[1..], key) by {
        if ContainsKey(obj, key) {
          var i :| 0 <= i < |obj| && obj[i].0 == key;
          assert obj[1..][i - 1] == obj[i];
        }
        if ContainsKey(obj[1..], key) {
          var i :| 0 <= i < |obj[1..]| && obj[1..][i].0 == key;
          assert obj[i + 1] == obj[1..][i];
        }
      }
      r
  }

  /** Masking distributes over concatenation, so the kept members keep their order. */
  lemma {:induction false} WithoutAppend(a: JsonObject, b: JsonObject, keys: set<string>)
    ensures Without(a + b, keys) == Without(a, keys) + Without(b, keys)
  {
    if a != [] {
      var head := if a[0].0 in keys then [] else [a[0]];
      assert (a + b)[0] == a[0];
      assert (a + b)[1..] == a[1..] + b;
      WithoutAppend(a[1..], b, keys);
      assert Without(a + b, keys) == head + Without(a[1..] + b, keys);
      assert Without(a, keys) == head + Without(a[1..], keys);
    } else {
      assert a + b == b;
    }
  }

  /** Masking twice in a row is masking once with both key sets. */
  lemma {:induction false} WithoutWithout(obj: JsonObject, first: set<string>, second: set<string>)
    ensures Without(Without(obj, first), second) == Without(obj, first + second)
  {
    if obj != [] {
      var head := if obj[0].0 in first then [] else [obj[0]];
      WithoutAppend(head, Without(obj[1..], first), second);
      WithoutWithout(obj[1..], first, second);
    }
  }

  /** Masking keys that do not occur changes nothing. */
  lemma {:induction false} WithoutAbsent(obj: JsonObject, keys: set<string>)
    requires forall i :: 0 <= i < |obj| ==> obj[i].0 !in keys
    ensures Without(obj, keys) == obj
  {
    if obj != [] {
      WithoutAbsent(obj[1..], keys);
    }
  }

  /** Masking is idempotent. */
  lemma MaskTwice(obj: JsonObject, keys: set<string>)
    ensures Without(Without(obj, keys), keys) == Without(obj, keys)
  {
    WithoutWithout(obj, keys, keys);
    assert keys + keys == keys;
  }

  /** A key that is not masked keeps its value. */
  lemma {:induction false} LookupWithout(obj: JsonObject, keys: set<string>, key: string)
    requires key !in keys
    ensures Lookup(Without(obj, keys), key) == Lookup(obj, key)
  {
    if obj != [] {
      LookupWithout(obj[1..], keys, key);
      var rest := Without(obj[1..], keys);
      if obj[0].0 in keys {
        assert Without(obj, keys) == rest;
      } else {
        var w := [obj[0]] + rest;
        assert Without(obj, keys) == w;
        assert w[0] == obj[0] && w[1..] == rest;
      }
    }
  }

  /** One more name adds its key to the set. */
  lemma KeySetStep(names: seq<string>, j: int)
    requires 0 <= j < |names|
    ensures KeySet(names[..j + 1]) == KeySet(names[..j]) + {names[j]}
  {
    assert names[..j + 1][..j] == names[..j];
  }

  /** Masking a key the object does not contain changes nothing. */
  lemma WithoutMissingKey(obj: JsonObject, key: string)
    requires !ContainsKey(obj, key)
    ensures Without(obj, {key}) == obj
  {
    WithoutAbsent(obj, {key});
  }

  /** The inner loop of the mask: each key of one category is removed when present. */
  method RemoveKeys(obj: JsonObject, names: seq<string>) returns (o: JsonObject)
    ensures o == Without(obj, KeySet(names))
  {
    o := obj;
    WithoutAbsent(obj, {});
    assert KeySet(names[..0]) == {};
    var j := 0;
    while j < |names|
      invariant 0 <= j <= |names|
      invariant o == Without(obj, KeySet(names[..j]))
    {
      var key := names[j];
      KeySetStep(names, j);
      if ContainsKey(o, key) {
        o := Without(o, {key});
      } else {
        WithoutMissingKey(o, key);
      }
      WithoutWithout(obj, KeySet(names[..j]), {key});
      j := j + 1;
    }
    assert names[..j] == names;
  }

  /** An unsupported category after only supported ones is the first unsupported one. */
  lemma FirstUnsupportedAt(fields: seq<ExcludedField>, i: nat)
    requires i < |fields| && AllSupported(fields[..i]) && fields[i].Unsupported?
    ensures !AllSupported(fields) && FirstUnsupported(fields) == i
  {
    var k := FirstUnsupported(fields);
    assert forall j :: 0 <= j < k ==> fields[..k][j] == fields[j];
    assert forall j :: 0 <= j < i ==> fields[..i][j] == fields[j];
  }

  /** One more supported category: the prefix stays supported and its mask grows by
      that category's keys. */
  lemma MaskKeysStep(fields: seq<ExcludedField>, i: nat)
    requires i < |fields| && AllSupported(fields[..i]) && !fields[i].Unsupported?
    ensures AllSupported(fields[..i + 1])
    ensures MaskKeys(fields[..i + 1]) == MaskKeys(fields[..i]) + FieldKeys(fields[i])
  {
    assert fields[..i + 1][..i] == fields[..i];
    assert forall k :: 0 <= k < i ==> fields[..i + 1][k] == fields[..i][k];
  }

  /** The mask as the source applies it: for each listed category in turn, its keys
      are removed from the object. The first unsupported category aborts the whole
      mask. */
  method ApplyMask(obj: JsonObject, fields: seq<ExcludedField>) returns (r: Result<JsonObject, ExcludedField>)
    ensures r.Failure? <==> !AllSupported(fields)
    ensures r.Failure? ==> r.error == fields[FirstUnsupported(fields)]
    ensures r.Success? ==> r.value == Without(obj, MaskKeys(fields))
  {
    var o := obj;
    var i := 0;
    WithoutAbsent(obj, {});
    while i < |fields|
      invariant 0 <= i <= |fields|
      invariant AllSupported(fields[..i])
      invariant o == Without(obj, MaskKeys(fields[..i]))
    {
      var names := GetFieldNamesFromEnum(fields[i]);
      if names.Failure? {
        FirstUnsupportedAt(fields, i);
        return Failure(names.error);
      }
      MaskKeysStep(fields, i);
      WithoutWithout(obj, MaskKeys(fields[..i]), KeySet(names.value));
      o := RemoveKeys(o, names.value);
      i := i + 1;
    }
    assert fields[..i] == fields;
    return Success(o);
  }
}
