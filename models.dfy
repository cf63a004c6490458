/** Record shapes crossing the adapter: the vendor's records (Mx*) and the host
    platform's records (Web*), with only the fields the core reads or writes.
    Money is an integer number of currency units; dates are integer instants. */
module Models {
  import opened Wrappers

  /** A variant attribute (`MxAttribute`). */
  datatype MxAttribute = MxAttribute(id: int, value: Option<string>)

  /** A product variant (`MxVariant`). */
  datatype MxVariant = MxVariant(
    id: int,
    attributes: seq<MxAttribute>,
    name: Option<string>,
    price: Option<int>,
    compareAtPrice: Option<int>,
    stock: int)

  /** A vendor product (`MxProduct`); its JSON keys, in serialisation order, are given by
      `Updates.ProductJson`. */
  datatype MxProduct = MxProduct(
    id: int,
    name: Option<string>,
    englishName: Option<string>,
    mainCategory: Option<int>,
    price: Option<int>,
    compareAtPrice: Option<int>,
    stockType: Option<string>,
    stock: int,
    hasVariants: bool,
    available: bool,
    variants: Option<seq<MxVariant>>)

  /** A vendor category (`MxCategory`). */
  datatype MxCategory = MxCategory(id: int, name: Option<string>, parent: Option<int>, available: bool)

  /** A vendor customer, reduced to the fields the search methods read. */
  datatype MxCustomer = MxCustomer(id: int, firstName: Option<string>, lastName: Option<string>)

  /** One row of the vendor's order list (`MxOrderSummary`). */
  datatype MxOrderSummary = MxOrderSummary(id: int, status: Option<string>, creationDate: int)

  /** A vendor order line (`MxOrderItem`). It is an object because the order fetch
      writes `productId` into it in place; the other fields are only read, so they are
      constants here. `productId` is declared as a string in the source but receives a
      composite id, so it is an integer here (None until assigned). */
  class MxOrderItem {
    const name: Option<string>
    const quantity: int
    const compareAtPrice: Option<int>
    const price: int
    const url: Option<string>
    var productId: Option<int>

    constructor (name: Option<string>, quantity: int, compareAtPrice: Option<int>, price: int, url: Option<string>)
      ensures this.name == name && this.quantity == quantity && this.compareAtPrice == compareAtPrice
      ensures this.price == price && this.url == url && productId == None
    {
      this.name := name;
      this.quantity := quantity;
      this.compareAtPrice := compareAtPrice;
      this.price := price;
      this.url := url;
      productId := None;
    }
  }

  /** A vendor order (`MxOrderDetail`), reduced to what the order conversion reads. */
  datatype MxOrderDetail = MxOrderDetail(
    id: int,
    status: Option<string>,
    paymentMethod: Option<string>,
    items: Option<seq<MxOrderItem>>)

  /** The host's order states. */
  datatype OrderStatus = Pending | Processing | Completed | OnHold | Cancelled | Other

  /** The host's product kinds used to filter searches. */
  datatype ProductTypes = Simple | Variable | AnyType

  datatype WebPaymentMethod = WebPaymentMethod(id: int, title: Option<string>, description: Option<string>)

  datatype WebAttribute = WebAttribute(id: int, value: Option<string>)

  datatype WebCategory = WebCategory(id: int, name: Option<string>, parentId: Option<int>)

  /** A host product. `salePrice` is nullable because the variant conversion stores a
      nullable vendor price in it. */
  datatype WebProduct = WebProduct(
    id: int,
    name: Option<string>,
    slug: Option<string>,
    regularPrice: int,
    salePrice: Option<int>,
    stockQuantity: int,
    categories: Option<seq<WebCategory>>,
    productType: Option<string>,
    attributes: seq<WebAttribute>)

  /** A host order line. */
  datatype WebOrderDetail = WebOrderDetail(
    name: Option<string>,
    productId: Option<int>,
    quantity: int,
    unitPrice: int,
    unitDiscount: int)

  /** A host order, reduced to the fields derived by the core. */
  datatype WebOrder = WebOrder(
    id: int,
    paymentMethod: WebPaymentMethod,
    status: OrderStatus,
    statusText: Option<string>,
    items: seq<WebOrderDetail>)
}
