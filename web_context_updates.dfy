/** The update operations: the caller's excluded-field list is completed in place
    with the categories an update must never send, the product discount is turned
    into a price swap, and the masked record goes out. The caller's list is a
    `FieldList` because the source adds to and removes from it, and the caller sees
    those changes. */
module Updates {
  import opened Wrappers
  import opened Models
  import opened EncodedProduct
  import opened MixinConverters
  import opened FieldMask
  import opened Requests

  // --------------------------------------------------------------- the field list

  /** The index of the first occurrence of `field`. */
  function FirstIndex(fields: seq<ExcludedField>, field: ExcludedField): (i: nat)
    requires field in fields
    ensures i < |fields| && fields[i] == field && field !in fields[..i]
  {
    if fields[0] == field then 0
    else
      var i := 1 + FirstIndex(fields[1..], field);
      assert fields[..i] == [fields[0]] + fields[1..][..i - 1];
      i
  }

  /** `List.Remove`: the first occurrence of `field` is dropped, if there is one. */
  function RemoveFirst(fields: seq<ExcludedField>, field: ExcludedField): (r: seq<ExcludedField>)
    ensures field !in fields ==> r == fields
    ensures field in fields ==> r == fields[..FirstIndex(fields, field)] + fields[FirstIndex(fields, field) + 1..]
  {
    if field in fields then
      var i := FirstIndex(fields, field);
      fields[..i] + fields[i + 1..]
    else fields
  }

  /** Removing drops exactly one occurrence of a listed field and nothing else. */
  lemma RemoveFirstCounts(fields: seq<ExcludedField>, field: ExcludedField)
    ensures multiset(RemoveFirst(fields, field)) == multiset(fields) - multiset{field}
    ensures |RemoveFirst(fields, field)| == if field in fields then |fields| - 1 else |fields|
  {
    if field in fields {
      var i := FirstIndex(fields, field);
      assert fields == fields[..i] + [fields[i]] + fields[i + 1..];
      assert multiset(fields) == multiset(fields[..i]) + multiset{field} + multiset(fields[i + 1..]);
    } else {
      assert multiset(fields)[field] == 0;
    }
  }

  /** The caller's `List<ExcludedFields>`. */
  class FieldList {
    var items: seq<ExcludedField>

    constructor (items: seq<ExcludedField>)
      ensures this.items == items
    {
      this.items := items;
    }

    /** `List.Add`. */
    method Add(field: ExcludedField)
      modifies this
      ensures items == old(items) + [field]
    {
      items := items + [field];
    }

    /** `if (!list.Contains(field)) list.Add(field)`. */
    method Include(field: ExcludedField)
      modifies this
      ensures items == AddMissing(old(items), field)
    {
      if field !in items {
        Add(field);
      }
    }

    /** `List.Remove`: reports whether the field was listed. */
    method Remove(field: ExcludedField) returns (removed: bool)
      modifies this
      ensures items == RemoveFirst(old(items), field)
      ensures removed <==> field in old(items)
    {
      removed := field in items;
      items := RemoveFirst(items, field);
    }
  }

  /** The fields of a list, a null list having none. */
  function ItemsOf(list: FieldList?): seq<ExcludedField>
    reads list
  {
    if list == null then [] else list.items
  }

  /** The caller's list, or a new empty one when it is null. */
  method OrNew(excluded: FieldList?) returns (list: FieldList)
    ensures excluded != null ==> list == excluded
    ensures excluded == null ==> fresh(list) && list.items == []
  {
    if excluded == null {
      list := new FieldList([]);
    } else {
      list := excluded;
    }
  }

  // ------------------------------------------------------- the required categories

  /** The field appended when it is not listed yet (`if (!Contains) Add`). */
  function AddMissing(fields: seq<ExcludedField>, field: ExcludedField): (r: seq<ExcludedField>)
    ensures field in r
    ensures field in fields ==> r == fields
    ensures field !in fields ==> r == fields + [field]
  {
    if field in fields then fields else fields + [field]
  }

  /** Each of `required`, in order, appended when it is not listed yet. */
  function WithRequired(fields: seq<ExcludedField>, required: seq<ExcludedField>): seq<ExcludedField>
    decreases |required|
  {
    if required == [] then fields else WithRequired(AddMissing(fields, required[0]), required[1..])
  }

  /** The categories a product update always excludes. */
  const ProductRequired: seq<ExcludedField> := [ProductAttributes, DraftStatus]

  /** The categories a variant update always excludes. */
  const VariantRequired: seq<ExcludedField> := [ProductName, ProductAttributes, DraftStatus]

  /** Completing the list keeps the caller's entries in front, in order, adds every
      required category, and adds each one at most once: a required category that
      was not listed occurs exactly once afterwards, and every other count is the
      caller's. */
  lemma {:induction false} WithRequiredCounts(fields: seq<ExcludedField>, required: seq<ExcludedField>)
    requires forall i, j :: 0 <= i < j < |required| ==> required[i] != required[j]
    ensures var r := WithRequired(fields, required);
      |fields| <= |r| && r[..|fields|] == fields &&
      (forall f :: f in required ==> f in r) &&
      (forall f :: f in required && f !in fields ==> multiset(r)[f] == 1) &&
      (forall f :: f !in required || f in fields ==> multiset(r)[f] == multiset(fields)[f])
    decreases |required|
  {
    if required != [] {
      var head := required[0];
      var next := AddMissing(fields, head);
      assert forall i, j :: 0 <= i < j < |required[1..]| ==> required[1..][i] != required[1..][j] by {
        forall i, j | 0 <= i < j < |required[1..]|
          ensures required[1..][i] != required[1..][j]
        {
          assert required[1..][i] == required[i + 1] && required[1..][j] == required[j + 1];
        }
      }
      WithRequiredCounts(next, required[1..]);
      var r := WithRequired(next, required[1..]);
      assert r == WithRequired(fields, required);
      assert next[..|fields|] == fields;
      assert r[..|fields|] == r[..|next|][..|fields|];
      assert head !in required[1..] by {
        forall j | 0 <= j < |required[1..]|
          ensures required[1..][j] != head
        {
          assert required[1..][j] == required[j + 1];
        }
      }
      forall f | f in required
        ensures f in r
      {
        if f != head {
          var j :| 0 <= j < |required| && required[j] == f;
          assert required[1..][j - 1] == f;
        }
      }
      if head !in fields {
        assert multiset(next) == multiset(fields) + multiset{head};
      }
    }
  }

  /** The discount swap: with `ProductDiscount` listed, the price sent is the
      compare-at price, and one `ProductDiscount` leaves the list, so that the price
      is not masked for it. */
  function DiscountSwap(data: MxProduct, fields: seq<ExcludedField>): (swapped: (MxProduct, seq<ExcludedField>))
    ensures ProductDiscount !in fields ==> swapped == (data, fields)
    ensures ProductDiscount in fields ==>
      swapped == (data.(price := data.compareAtPrice), RemoveFirst(fields, ProductDiscount))
  {
    if ProductDiscount in fields then (data.(price := data.compareAtPrice), RemoveFirst(fields, ProductDiscount))
    else (data, fields)
  }

  /** The swap as the update methods perform it, on the list in place. */
  method SwapDiscount(list: FieldList, product: MxProduct) returns (swapped: MxProduct)
    modifies list
    ensures (swapped, list.items) == DiscountSwap(product, old(list.items))
  {
    swapped := product;
    if ProductDiscount in list.items {
      swapped := product.(price := product.compareAtPrice);
      var _ := list.Remove(ProductDiscount);
    }
  }

  /** What an update sends, before masking: the converted record (the conversion
      fails on a null sale price, where the source's cast throws) after the discount
      swap, and the final excluded list. */
  function PreparedProduct(entity: WebProduct, fields: seq<ExcludedField>): (r: Result<(MxProduct, seq<ExcludedField>), Error>)
    ensures r.Failure? <==> entity.salePrice.None?
    ensures r.Failure? ==> r.error == NullableWithoutValue
    ensures r.Success? ==> r.value == DiscountSwap(ToMxProduct(entity).value, fields)
  {
    match ToMxProduct(entity)
    case None => Failure(NullableWithoutValue)
    case Some(data) => Success(DiscountSwap(data, fields))
  }

  // ---------------------------------------------------------------- the records

  function OptNum(n: Option<int>): JsonValue {
    match n
    case None => JNull
    case Some(v) => JNum(v)
  }

  function OptStr(s: Option<string>): JsonValue {
    match s
    case None => JNull
    case Some(v) => JStr(v)
  }

  function AttributeJson(attribute: MxAttribute): JsonValue {
    JObject([("id", JNum(attribute.id)), ("value", OptStr(attribute.value))])
  }

  function VariantJson(variant: MxVariant): JsonValue {
    JObject([
      ("id", JNum(variant.id)),
      ("attributes", JArray(seq(|variant.attributes|, i requires 0 <= i < |variant.attributes| =>
        AttributeJson(variant.attributes[i])))),
      ("name", OptStr(variant.name)),
      ("price", OptNum(variant.price)),
      ("compare_at_price", OptNum(variant.compareAtPrice)),
      ("stock", JNum(variant.stock))])
  }

  /** The serialised vendor product, its members in declaration order (the converted
      record always carries an empty image list). */
  function ProductJson(product: MxProduct): (obj: JsonObject)
    ensures |obj| == 12
    ensures obj[4] == ("price", OptNum(product.price))
    ensures obj[5] == ("compare_at_price", OptNum(product.compareAtPrice))
    ensures obj[9] == ("available", JBool(product.available))
  {
    [
      ("id", JNum(product.id)),
      ("name", OptStr(product.name)),
      ("english_name", OptStr(product.englishName)),
      ("main_category", OptNum(product.mainCategory)),
      ("price", OptNum(product.price)),
      ("compare_at_price", OptNum(product.compareAtPrice)),
      ("stock_type", OptStr(product.stockType)),
      ("stock", JNum(product.stock)),
      ("has_variants", JBool(product.hasVariants)),
      ("available", JBool(product.available)),
      ("images", JArray([])),
      ("variants", match product.variants
        case None => JNull
        case Some(vs) => JArray(seq(|vs|, i requires 0 <= i < |vs| => VariantJson(vs[i]))))
    ]
  }

  /** The serialised vendor category. */
  function CategoryJson(category: MxCategory): (obj: JsonObject)
    ensures |obj| == 4 && obj[2] == ("parent", OptNum(category.parent))
  {
    [
      ("id", JNum(category.id)),
      ("name", OptStr(category.name)),
      ("parent", OptNum(category.parent)),
      ("available", JBool(category.available))
    ]
  }

  // ------------------------------------------------------------ what goes out

  /** A listed category's keys are never sent. */
  lemma MaskedKeyAbsent(obj: JsonObject, fields: seq<ExcludedField>, field: ExcludedField, key: string)
    requires field in fields && key in FieldKeys(field)
    ensures !ContainsKey(Without(obj, MaskKeys(fields)), key)
  {
    var i :| 0 <= i < |fields| && fields[i] == field;
    MaskKeysMembership(fields, key);
    var sent := Without(obj, MaskKeys(fields));
    forall j | 0 <= j < |sent|
      ensures sent[j].0 != key
    {
      assert sent[j] in sent;
    }
  }

  /** The key of a member that is not masked keeps its value. */
  lemma SentValue(obj: JsonObject, fields: seq<ExcludedField>, i: int)
    requires 0 <= i < |obj| && obj[i].0 !in MaskKeys(fields)
    requires forall j :: 0 <= j < i ==> obj[j].0 != obj[i].0
    ensures Lookup(Without(obj, MaskKeys(fields)), obj[i].0) == Some(obj[i].1)
  {
    LookupWithout(obj, MaskKeys(fields), obj[i].0);
    LookupFirst(obj, i);
  }

  /** A key's first member gives its value. */
  lemma {:induction false} LookupFirst(obj: JsonObject, i: int)
    requires 0 <= i < |obj|
    requires forall j :: 0 <= j < i ==> obj[j].0 != obj[i].0
    ensures Lookup(obj, obj[i].0) == Some(obj[i].1)
  {
    if i > 0 {
      assert obj[1..][i - 1] == obj[i];
      LookupFirst(obj[1..], i - 1);
    }
  }

  /** With `ProductDiscount` listed once and `ProductPrice` not listed, the product
      goes out with its compare-at price in both price members. */
  lemma DiscountSwapSendsCompareAtPrice(data: MxProduct, fields: seq<ExcludedField>)
    requires multiset(fields)[ProductDiscount] == 1 && ProductPrice !in fields
    ensures var (swapped, mask) := DiscountSwap(data, fields);
      Lookup(Without(ProductJson(swapped), MaskKeys(mask)), "price") == Some(OptNum(data.compareAtPrice)) &&
      Lookup(Without(ProductJson(swapped), MaskKeys(mask)), "compare_at_price") == Some(OptNum(data.compareAtPrice))
  {
    var (swapped, mask) := DiscountSwap(data, fields);
    RemoveFirstCounts(fields, ProductDiscount);
    assert ProductDiscount !in mask by {
      assert multiset(mask)[ProductDiscount] == 0;
    }
    assert ProductPrice !in mask by {
      assert multiset(mask)[ProductPrice] == multiset(fields)[ProductPrice] == 0;
    }
    var obj := ProductJson(swapped);
    forall key | key == "price" || key == "compare_at_price"
      ensures key !in MaskKeys(mask)
    {
      MaskKeysMembership(mask, key);
      forall i | 0 <= i < |mask|
        ensures key !in FieldKeys(mask[i])
      {
        PriceAndParentOwners(mask[i]);
      }
    }
    assert obj[4].0 == "price" && obj[5].0 == "compare_at_price";
    assert forall j :: 0 <= j < 4 ==> obj[j].0 != "price";
    assert forall j :: 0 <= j < 5 ==> obj[j].0 != "compare_at_price";
    SentValue(obj, mask, 4);
    SentValue(obj, mask, 5);
  }

  /** The swap keeps every other listed category on the list. */
  lemma SwapKeepsListed(data: MxProduct, fields: seq<ExcludedField>, field: ExcludedField)
    requires field in fields && field != ProductDiscount
    ensures field in DiscountSwap(data, fields).1
  {
    RemoveFirstCounts(fields, ProductDiscount);
    assert multiset(DiscountSwap(data, fields).1)[field] == multiset(fields)[field];
  }

  /** A product update never sends the product's availability: `DraftStatus` is
      always on the final list. */
  lemma ProductUpdateHidesAvailability(data: MxProduct, fields: seq<ExcludedField>)
    ensures var (swapped, mask) := DiscountSwap(data, WithRequired(fields, ProductRequired));
      !ContainsKey(Without(ProductJson(swapped), MaskKeys(mask)), "available")
  {
    var listed := WithRequired(fields, ProductRequired);
    WithRequiredCounts(fields, ProductRequired);
    assert DraftStatus in ProductRequired;
    SwapKeepsListed(data, listed, DraftStatus);
    var (swapped, mask) := DiscountSwap(data, listed);
    MaskedKeyAbsent(ProductJson(swapped), mask, DraftStatus, "available");
  }

  /** A variant update never sends the name: `ProductName` is always on the final
      list. */
  lemma VariantUpdateHidesName(data: MxProduct, fields: seq<ExcludedField>)
    ensures var (swapped, mask) := DiscountSwap(data, WithRequired(fields, VariantRequired));
      !ContainsKey(Without(ProductJson(swapped), MaskKeys(mask)), "name")
  {
    var listed := WithRequired(fields, VariantRequired);
    WithRequiredCounts(fields, VariantRequired);
    assert ProductName in VariantRequired;
    SwapKeepsListed(data, listed, ProductName);
    var (swapped, mask) := DiscountSwap(data, listed);
    MaskedKeyAbsent(ProductJson(swapped), mask, ProductName, "name");
  }

  /** A category update never sends the parent: `Sku`, which names it, is always on
      the list. */
  lemma CategoryUpdateHidesParent(category: MxCategory, fields: seq<ExcludedField>)
    ensures !ContainsKey(Without(CategoryJson(category), MaskKeys(fields + [Sku])), "parent")
  {
    PriceAndParentOwners(Sku);
    MaskedKeyAbsent(CategoryJson(category), fields + [Sku], Sku, "parent");
  }

  /** What a prepared update does: a failed preparation sends nothing; otherwise the
      record goes out masked by the final list (an unsupported category on it aborts
      the request) and the answer is classified. */
  function UpdateOutcome<T>(prepared: Result<(MxProduct, seq<ExcludedField>), Error>, response: Response<T>)
    : (out: (Result<Option<T>, Error>, Option<JsonObject>))
    ensures prepared.Failure? ==> out == (Failure(prepared.error), None)
    ensures prepared.Success? && prepared.value.1 == [] ==> out == (Outcome(response), Some(ProductJson(prepared.value.0)))
    ensures prepared.Success? && prepared.value.1 != [] && AllSupported(prepared.value.1) ==>
      out == (Outcome(response), Some(Without(ProductJson(prepared.value.0), MaskKeys(prepared.value.1))))
    ensures prepared.Success? && !AllSupported(prepared.value.1) ==>
      out == (Failure(UnsupportedField(prepared.value.1[FirstUnsupported(prepared.value.1)])), None)
  {
    match prepared
    case Failure(e) => (Failure(e), None)
    case Success((data, mask)) => Sending(Some(ProductJson(data)), Some(mask), response)
  }

  /** The list a product update leaves behind: the completed list, less one
      `ProductDiscount` when the conversion succeeded. */
  function FinalList(listed: seq<ExcludedField>, prepared: Result<(MxProduct, seq<ExcludedField>), Error>): seq<ExcludedField> {
    if prepared.Success? then prepared.value.1 else listed
  }

  /** The code an update returns: the answer's product id as a bare-product code (a
      null answer is dereferenced). */
  function UpdatedCode(outcome: Result<Option<MxProduct>, Error>): (r: Result<int, Error>)
    ensures outcome.Failure? ==> r == Failure(outcome.error)
    ensures outcome == Success(None) ==> r == Failure(NullReference)
    ensures outcome.Success? && outcome.value.Some? ==>
      (r.Success? && (outcome.value.value.id >= 0 ==> r.value >= 0 && Decode(r.value) == (outcome.value.value.id, 0)))
  {
    match outcome
    case Failure(e) => Failure(e)
    case Success(None) => Failure(NullReference)
    case Success(Some(product)) => Success(EncodedId(product))
  }

  // ------------------------------------------------------------ the operations

  /** `UpdateProduct`: the caller's list (a new one when it is null) gains
      `ProductAttributes` and `DraftStatus` when missing; the product named by the
      code's variable id is converted and, with `ProductDiscount` listed, sent at its
      compare-at price with one `ProductDiscount` removed from the list; the answer's
      id comes back as a bare-product code. `target` is the product id in the
      endpoint. */
  method UpdateProduct(id: nat, entity: WebProduct, excluded: FieldList?, response: Response<MxProduct>)
    returns (r: Result<int, Error>, target: int, sent: Option<JsonObject>)
    modifies excluded
    ensures target == Decode(id).0
    ensures var listed := WithRequired(old(ItemsOf(excluded)), ProductRequired);
      var prepared := PreparedProduct(entity.(id := target), listed);
      var (answer, body) := UpdateOutcome(prepared, response);
      r == UpdatedCode(answer) && sent == body && (excluded != null ==> excluded.items == FinalList(listed, prepared))
  {
    var list := OrNew(excluded);
    list.Include(ProductAttributes);
    list.Include(DraftStatus);
    target := Decode(id).0;
    var data := ToMxProduct(entity.(id := target));
    if data.None? {
      return Failure(NullableWithoutValue), target, None;
    }
    var product := SwapDiscount(list, data.value);
    var answer;
    answer, sent := SendRequest(Some(ProductJson(product)), Some(list.items), response);
    r := UpdatedCode(answer);
  }

  /** `UpdateVariationProduct`: as `UpdateProduct`, with `ProductName` also always
      excluded; the code in the product's own id names both the product and the
      variant in the endpoint (`target`), the variant id replaces the product's id,
      and nothing is returned. */
  method UpdateVariationProduct(entity: WebProduct, excluded: FieldList?, response: Response<MxVariant>)
    returns (r: Result<(), Error>, target: (int, int), sent: Option<JsonObject>)
    requires entity.id >= 0
    modifies excluded
    ensures target == Decode(entity.id)
    ensures var listed := WithRequired(old(ItemsOf(excluded)), VariantRequired);
      var prepared := PreparedProduct(entity.(id := target.1), listed);
      var (answer, body) := UpdateOutcome(prepared, response);
      r == (if answer.Failure? then Failure(answer.error) else Success(())) && sent == body &&
      (excluded != null ==> excluded.items == FinalList(listed, prepared))
  {
    var list := OrNew(excluded);
    list.Include(ProductName);
    list.Include(ProductAttributes);
    list.Include(DraftStatus);
    target := Decode(entity.id);
    var data := ToMxProduct(entity.(id := target.1));
    if data.None? {
      return Failure(NullableWithoutValue), target, None;
    }
    var product := SwapDiscount(list, data.value);
    var answer;
    answer, sent := SendRequest(Some(ProductJson(product)), Some(list.items), response);
    r := if answer.Failure? then Failure(answer.error) else Success(());
  }

  /** `UpdateCategory`: `Sku` is appended to the caller's list unconditionally (a
      null list is dereferenced), the category is converted and sent to the endpoint
      of `id`, and the answer's id is returned. */
  method UpdateCategory(id: int, entity: WebCategory, excluded: FieldList?, response: Response<MxCategory>)
    returns (r: Result<int, Error>, sent: Option<JsonObject>)
    modifies excluded
    ensures excluded == null ==> r == Failure(NullReference) && sent == None
    ensures excluded != null ==> excluded.items == old(excluded.items) + [Sku]
    ensures excluded != null ==>
      var (answer, body) := Sending(Some(CategoryJson(ToMxCategory(entity))), Some(excluded.items), response);
      sent == body && r == match answer
        case Failure(e) => Failure(e)
        case Success(None) => Failure(NullReference)
        case Success(Some(category)) => Success(category.id)
  {
    if excluded == null {
      return Failure(NullReference), None;
    }
    excluded.Add(Sku);
    var answer;
    answer, sent := SendRequest(Some(CategoryJson(ToMxCategory(entity))), Some(excluded.items), response);
    r := match answer
      case Failure(e) => Failure(e)
      case Success(None) => Failure(NullReference)
      case Success(Some(category)) => Success(category.id);
  }
}
