/** Conversions between the vendor's records and the host's records: status and
    payment-method tables with their defaults, slug generation, price and stock
    defaulting for products, the parent-id convention for categories, and the price
    lines of an order. */
module MixinConverters {
  import opened Wrappers
  import opened Text
  import opened Models

  /** A string made only of characters that lower-casing leaves alone is its own
      lower-case form. */
  lemma ToLowerOfLowerCase(s: string)
    requires forall i :: 0 <= i < |s| ==> !('A' <= s[i] <= 'Z')
    ensures ToLower(s) == s
  {
  }

  // ---------------------------------------------------------------- order status

  /** `MapOrderStatus`: the vendor's status word, compared case-insensitively, to the
      host's status; null, empty and unknown words fall back to `Other`. */
  function MapOrderStatus(status: Option<string>): (r: OrderStatus)
    ensures r == Pending <==> status.Some? && ToLower(status.value) == "processing"
    ensures r == Processing <==> status.Some? && ToLower(status.value) == "shipping"
    ensures r == Completed <==> status.Some? && ToLower(status.value) == "finished"
    ensures r == OnHold <==> status.Some? && ToLower(status.value) == "draft"
    ensures r == Cancelled <==> status.Some? && ToLower(status.value) == "canceled"
    ensures status.None? || status.value == "" ==> r == Other
  {
    if status.None? || status.value == "" then Other
    else
      var t := ToLower(status.value);
      if t == "processing" then Pending
      else if t == "shipping" then Processing
      else if t == "finished" then Completed
      else if t == "draft" then OnHold
      else if t == "canceled" then Cancelled
      else Other
  }

  /** `MapWebOrderStatusToJson`: the host's status to the vendor's word; `Other` is
      sent as "processing". */
  function MapWebOrderStatusToJson(status: OrderStatus): (word: string)
    ensures word in {"processing", "shipping", "finished", "draft", "canceled"}
  {
    match status
    case Pending => "processing"
    case Processing => "shipping"
    case Completed => "finished"
    case OnHold => "draft"
    case Cancelled => "canceled"
    case Other => "processing"
  }

  /** Sending a named status to the vendor and reading it back gives the same status;
      `Other` comes back as `Pending`. */
  lemma OrderStatusRoundTrip(status: OrderStatus)
    ensures status != Other ==> MapOrderStatus(Some(MapWebOrderStatusToJson(status))) == status
    ensures status == Other ==> MapOrderStatus(Some(MapWebOrderStatusToJson(status))) == Pending
  {
    ToLowerOfLowerCase(MapWebOrderStatusToJson(status));
  }

  /** Reading a status word (in any letter case) and sending it back gives the word in
      lower case. */
  lemma OrderStatusWordRoundTrip(word: string)
    requires ToLower(word) in {"processing", "shipping", "finished", "draft", "canceled"}
    ensures MapWebOrderStatusToJson(MapOrderStatus(Some(word))) == ToLower(word)
  {
  }

  // -------------------------------------------------------------- payment method

  /** `MapPaymentMethod`: the payment word, compared case-insensitively, to the host's
      payment method with id 1 (online), 2 (cash), 3 (card) or 0 (anything else,
      including null); the title and the description echo the word. */
  function MapPaymentMethod(paymentMethod: Option<string>): (r: WebPaymentMethod)
    ensures r.id == 1 <==> paymentMethod.Some? && ToLower(paymentMethod.value) == "online"
    ensures r.id == 2 <==> paymentMethod.Some? && ToLower(paymentMethod.value) == "cash"
    ensures r.id == 3 <==> paymentMethod.Some? && ToLower(paymentMethod.value) == "card"
    ensures r.id in {0, 1, 2, 3}
    ensures r.title == paymentMethod && r.description == paymentMethod
  {
    var key := ToLower(paymentMethod.GetOr(""));
    var id := if key == "online" then 1 else if key == "cash" then 2 else if key == "card" then 3 else 0;
    WebPaymentMethod(id, paymentMethod, paymentMethod)
  }

  /** `MapWebPaymentMethodToJson`: the host's payment method back to the vendor's
      word; null and unknown ids are sent as "online". */
  function MapWebPaymentMethodToJson(paymentMethod: Option<WebPaymentMethod>): (word: string)
    ensures word in {"online", "cash", "card"}
    ensures paymentMethod.None? || paymentMethod.value.id !in {2, 3} ==> word == "online"
  {
    if paymentMethod.None? then "online"
    else if paymentMethod.value.id == 2 then "cash"
    else if paymentMethod.value.id == 3 then "card"
    else "online"
  }

  /** On the three known ids, reading back the word sent for a method gives the same id. */
  lemma PaymentMethodIdRoundTrip(paymentMethod: WebPaymentMethod)
    requires paymentMethod.id in {1, 2, 3}
    ensures MapPaymentMethod(Some(MapWebPaymentMethodToJson(Some(paymentMethod)))).id == paymentMethod.id
  {
    ToLowerOfLowerCase(MapWebPaymentMethodToJson(Some(paymentMethod)));
  }

  /** A known payment word (in any letter case) is sent back in lower case. */
  lemma PaymentWordRoundTrip(word: string)
    requires ToLower(word) in {"online", "cash", "card"}
    ensures MapWebPaymentMethodToJson(Some(MapPaymentMethod(Some(word)))) == ToLower(word)
  {
  }

  // ------------------------------------------------------------------------ slug

  /** One character of a slug: lower-cased, with space and underscore turned into '-'. */
  function SlugChar(c: char): (r: char)
    ensures r != ' ' && r != '_' && !('A' <= r <= 'Z')
    ensures r == '-' <==> c == ' ' || c == '_' || c == '-'
  {
    if c == ' ' || c == '_' then '-' else LowerChar(c)
  }

  /** `GenerateSlug`: empty for a null or empty phrase; otherwise the phrase lower-cased
      with every space and underscore replaced by '-'. */
  function GenerateSlug(phrase: Option<string>): (slug: string)
    ensures phrase.None? ==> slug == ""
    ensures phrase.Some? ==> |slug| == |phrase.value|
    ensures phrase.Some? ==> forall i :: 0 <= i < |slug| ==>
      slug[i] == (if phrase.value[i] in {' ', '_'} then '-' else ToLower(phrase.value)[i])
    ensures forall i :: 0 <= i < |slug| ==> slug[i] != ' ' && slug[i] != '_' && !('A' <= slug[i] <= 'Z')
  {
    if phrase.None? || phrase.value == "" then ""
    else
      var s := phrase.value;
      seq(|s|, i requires 0 <= i < |s| => SlugChar(s[i]))
  }

  /** A slug is its own slug. */
  lemma GenerateSlugIdempotent(phrase: Option<string>)
    ensures GenerateSlug(Some(GenerateSlug(phrase))) == GenerateSlug(phrase)
  {
    var s := GenerateSlug(phrase);
    var t := GenerateSlug(Some(s));
    assert |t| == |s|;
    forall i | 0 <= i < |s| ensures t[i] == s[i] {
      assert t[i] == SlugChar(s[i]);
    }
  }

  // -------------------------------------------------------------------- products

  /** `ToWebProduct`: a vendor product as a host product. A price missing on one side
      is taken from the other, both are 0 when neither is given; the stock is 10 for
      "unlimited" stock and 0 otherwise; the single category is the main category (0
      when missing); the slug comes from the English name, else the name. */
  function ToWebProduct(product: MxProduct): (w: WebProduct)
    ensures w.id == product.id
    ensures product.compareAtPrice.Some? && product.price.Some? ==>
      w.regularPrice == product.compareAtPrice.value && w.salePrice == product.price
    ensures product.compareAtPrice.Some? && product.price.None? ==>
      w.regularPrice == product.compareAtPrice.value && w.salePrice == product.compareAtPrice
    ensures product.compareAtPrice.None? && product.price.Some? ==>
      w.regularPrice == product.price.value && w.salePrice == product.price
    ensures product.compareAtPrice.None? && product.price.None? ==>
      w.regularPrice == 0 && w.salePrice == Some(0)
    ensures w.stockQuantity == (if product.stockType == Some("unlimited") then 10 else 0)
    ensures w.categories == Some([WebCategory(product.mainCategory.GetOr(0), None, None)])
    ensures w.productType == Some(if product.hasVariants then "variable" else "simple")
    ensures w.name == (if product.name.Some? then product.name else product.englishName)
    ensures w.slug == if product.englishName.Some? then Some(GenerateSlug(product.englishName))
                      else if product.name.Some? then Some(GenerateSlug(product.name)) else None
    ensures w.attributes == []
  {
    var regularPrice := product.compareAtPrice;
    var salePrice := product.price;
    var (regularPrice, salePrice) :=
      if regularPrice.Some? && salePrice.None? then (regularPrice, regularPrice)
      else if regularPrice.None? && salePrice.Some? then (salePrice, salePrice)
      else (regularPrice, salePrice);
    WebProduct(
      product.id,
      if product.name.Some? then product.name else product.englishName,
      if product.englishName.Some? then Some(GenerateSlug(product.englishName))
      else if product.name.Some? then Some(GenerateSlug(product.name)) else None,
      regularPrice.GetOr(0),
      Some(salePrice.GetOr(0)),
      if product.stockType == Some("unlimited") then 10 else 0,
      Some([WebCategory(product.mainCategory.GetOr(0), None, None)]),
      Some(if product.hasVariants then "variable" else "simple"),
      [])
  }

  /** `MxVariantToMcProduct`: a vendor variant as a host product. The regular price is
      the compare-at price, else the price, else 0; the sale price is the variant's
      price, possibly null; the attributes are copied one for one. */
  function MxVariantToMcProduct(variant: MxVariant): (w: WebProduct)
    ensures w.id == variant.id && w.name == variant.name
    ensures w.regularPrice == variant.compareAtPrice.GetOr(variant.price.GetOr(0))
    ensures w.salePrice == variant.price
    ensures w.stockQuantity == variant.stock
    ensures |w.attributes| == |variant.attributes|
    ensures forall i :: 0 <= i < |w.attributes| ==>
      w.attributes[i].id == variant.attributes[i].id && w.attributes[i].value == variant.attributes[i].value
  {
    var attrs := variant.attributes;
    WebProduct(
      variant.id, variant.name, None,
      if variant.compareAtPrice.Some? then variant.compareAtPrice.value else variant.price.GetOr(0),
      variant.price, variant.stock, None, None,
      seq(|attrs|, i requires 0 <= i < |attrs| => WebAttribute(attrs[i].id, attrs[i].value)))
  }

  /** The category id `ToMxProduct` sends: the first category's id, or 1 when there is
      no category or its id is 0. */
  function MainCategoryOf(product: WebProduct): (categoryId: int)
    ensures categoryId != 0
    ensures product.categories.Some? && |product.categories.value| > 0 && product.categories.value[0].id != 0 ==>
      categoryId == product.categories.value[0].id
    ensures product.categories.None? || |product.categories.value| == 0 || product.categories.value[0].id == 0 ==>
      categoryId == 1
  {
    if product.categories.None? || |product.categories.value| == 0 || product.categories.value[0].id == 0 then 1
    else product.categories.value[0].id
  }

  /** `ToMxProduct`: a host product as a vendor product, or None where the source's
      cast of a null sale price throws. The compare-at price is null exactly when the
      regular price is 0; the stock type is "out_of_stock" exactly when the quantity is
      at most 0; the English name carries the slug. */
  function ToMxProduct(product: WebProduct): (r: Option<MxProduct>)
    ensures r.None? <==> product.salePrice.None?
    ensures r.Some? ==> r.value.id == product.id && r.value.name == product.name
    ensures r.Some? ==> r.value.englishName == product.slug
    ensures r.Some? ==> r.value.price == product.salePrice
    ensures r.Some? ==> (r.value.compareAtPrice.None? <==> product.regularPrice == 0)
    ensures r.Some? && product.regularPrice != 0 ==> r.value.compareAtPrice == Some(product.regularPrice)
    ensures r.Some? ==> r.value.mainCategory == Some(MainCategoryOf(product))
    ensures r.Some? ==> (r.value.stockType == Some("out_of_stock") <==> product.stockQuantity <= 0)
    ensures r.Some? ==> r.value.stockType in {Some("out_of_stock"), Some("limited")}
    ensures r.Some? ==> r.value.stock == product.stockQuantity
    ensures r.Some? ==> (r.value.hasVariants <==> product.productType == Some("variable"))
    ensures r.Some? ==> r.value.available && r.value.variants == Some([])
  {
    if product.salePrice.None? then None
    else
      var compareAtPrice := if product.regularPrice != 0 then Some(product.regularPrice) else None;
      var stockType := if product.stockQuantity <= 0 then "out_of_stock" else "limited";
      Some(MxProduct(
        product.id, product.name, product.slug, Some(MainCategoryOf(product)),
        Some(product.salePrice.value), compareAtPrice, Some(stockType), product.stockQuantity,
        product.productType == Some("variable"), true, Some([])))
  }

  /** Converting a vendor product to the host and back keeps its id, its prices (when
      both are given and the compare-at price is not 0), its main category (when not
      0) and whether it has variants. */
  lemma ProductRoundTrip(product: MxProduct)
    requires product.price.Some? && product.compareAtPrice.Some? && product.compareAtPrice.value != 0
    requires product.mainCategory.Some? && product.mainCategory.value != 0
    ensures ToMxProduct(ToWebProduct(product)).Some?
    ensures var back := ToMxProduct(ToWebProduct(product)).value;
      back.id == product.id && back.price == product.price &&
      back.compareAtPrice == product.compareAtPrice && back.mainCategory == product.mainCategory &&
      back.hasVariants == product.hasVariants
  {
  }

  /** The stock does not survive a trip from the host and back: the vendor side only
      ever receives "limited" or "out_of_stock", which the host reads as 0. */
  lemma StockLostInRoundTrip(product: WebProduct)
    requires product.salePrice.Some?
    ensures ToWebProduct(ToMxProduct(product).value).stockQuantity == 0
  {
  }

  // ------------------------------------------------------------------ categories

  /** The parent convention: a parent id of 0 means "no parent". */
  function NormalParent(parent: Option<int>): (r: Option<int>)
    ensures r != Some(0)
    ensures parent != Some(0) ==> r == parent
    ensures parent == Some(0) ==> r == None
  {
    if parent == Some(0) then None else parent
  }

  /** `ToWebCategory`: a vendor category as a host category, parent 0 becoming null. */
  function ToWebCategory(category: MxCategory): (w: WebCategory)
    ensures w.id == category.id && w.name == category.name
    ensures w.parentId == NormalParent(category.parent)
  {
    WebCategory(category.id, category.name, if category.parent == Some(0) then None else category.parent)
  }

  /** `ToMxCategory`: a host category as an available vendor category, parent 0
      becoming null. */
  function ToMxCategory(category: WebCategory): (m: MxCategory)
    ensures m.id == category.id && m.name == category.name && m.available
    ensures m.parent == NormalParent(category.parentId)
  {
    MxCategory(category.id, category.name, if category.parentId == Some(0) then None else category.parentId, true)
  }

  /** Both directions agree: an available vendor category with a normal parent
      survives the trip to the host and back, and a host category with a normal parent
      survives the trip to the vendor and back. */
  lemma CategoryRoundTrip(m: MxCategory, w: WebCategory)
    ensures m.available && m.parent != Some(0) ==> ToMxCategory(ToWebCategory(m)) == m
    ensures w.parentId != Some(0) ==> ToWebCategory(ToMxCategory(w)) == w
  {
  }

  // ---------------------------------------------------------------------- orders

  /** One order line as the host sees it: the unit price is the compare-at price (else
      the price) and the unit discount is what the customer saves on it. */
  function ToWebOrderDetail(item: MxOrderItem): (d: WebOrderDetail)
    reads item
    ensures d.name == item.name && d.productId == item.productId && d.quantity == item.quantity
    ensures d.unitPrice - d.unitDiscount == item.price
    ensures item.compareAtPrice.None? ==> d.unitPrice == item.price && d.unitDiscount == 0
    ensures item.compareAtPrice.Some? ==> d.unitPrice == item.compareAtPrice.value
  {
    var unitPrice := item.compareAtPrice.GetOr(item.price);
    WebOrderDetail(item.name, item.productId, item.quantity, unitPrice, unitPrice - item.price)
  }

  /** The objects of an order's item list. */
  function ItemSet(items: Option<seq<MxOrderItem>>): set<MxOrderItem> {
    if items.None? then {} else set i | i in items.value
  }

  /** `ToWebOrder`, restricted to the fields derived here: the payment method and
      status go through their tables, the raw status is kept as text, and each item
      becomes an order line in order (no lines when the item list is null). */
  function ToWebOrder(order: MxOrderDetail): (w: WebOrder)
    reads ItemSet(order.items)
    ensures w.id == order.id
    ensures w.paymentMethod == MapPaymentMethod(order.paymentMethod)
    ensures w.status == MapOrderStatus(order.status) && w.statusText == order.status
    ensures order.items.None? ==> w.items == []
    ensures order.items.Some? ==> |w.items| == |order.items.value|
    ensures order.items.Some? ==> forall i :: 0 <= i < |w.items| ==>
      w.items[i] == ToWebOrderDetail(order.items.value[i])
  {
    var lines :=
      if order.items.None? then []
      else
        var items := order.items.value;
        seq(|items|, i reads ItemSet(order.items) requires 0 <= i < |items| => ToWebOrderDetail(items[i]));
    WebOrder(order.id, MapPaymentMethod(order.paymentMethod), MapOrderStatus(order.status), order.status, lines)
  }
}
