/** Sending one request: the outbound body is masked, and the response's status code
    and body text are classified into a decoded value or one of the adapter's
    exception kinds, in a fixed priority order. */
module Requests {
  import opened Wrappers
  import opened Text
  import opened FieldMask
  import ProductUrlParser

  /** The field-level kinds of `WebInvalidFieldException`: the named fields, the fixed
      messages "BadRequest" and "Forbidden", and the message that carries any other
      status code. */
  datatype FieldError =
    | InvalidSku
    | InvalidQuantity
    | DuplicateCategoryName
    | MissingParentCategoryId
    | BadRequest
    | Forbidden
    | UnexpectedStatus(status: int)

  /** The exceptions that leave the adapter's operations. */
  datatype Error =
    | DoesNotExist                       // WebDoesNotExistException
    | InvalidField(field: FieldError)    // WebInvalidFieldException
    | Authentication                     // WebAuthenticationException
    | InternalServerError                // InternalServerErrorException
    | NetworkError                       // NetworkError
    | UnsupportedField(excluded: ExcludedField)  // ArgumentException from the field table
    | NullReference                      // a null list or object dereferenced
    | EmptySequence                      // `Max` of an empty sequence
    | NullableWithoutValue               // InvalidOperationException: `(int)` on a null nullable value
    | InvalidUrl(urlError: ProductUrlParser.ParseError)  // from the product-URL parser

  const OK: int := 200
  const Created: int := 201
  const BadRequestStatus: int := 400
  const Unauthorized: int := 401
  const ForbiddenStatus: int := 403
  const NotFound: int := 404
  const InternalServerErrorStatus: int := 500

  /** The response body contains the text (a null body contains nothing). */
  predicate Mentions(content: Option<string>, text: string) {
    content.Some? && Contains(content.value, text)
  }

  /** The classification of a response: None means the body is decoded; otherwise the
      exception thrown. For 400 and 500 the body is searched for known error codes in
      a fixed order, the first one found deciding. */
  function Classify(status: int, content: Option<string>): (r: Option<Error>)
    ensures r.None? <==> status == OK || status == Created
    ensures r == Some(DoesNotExist) <==>
      status == NotFound || (status == BadRequestStatus && Mentions(content, "product_invalid_id"))
    ensures r == Some(InvalidField(InvalidSku)) <==>
      status == BadRequestStatus && !Mentions(content, "product_invalid_id") &&
      Mentions(content, "product_invalid_sku")
    ensures r == Some(InvalidField(InvalidQuantity)) <==>
      status == BadRequestStatus && !Mentions(content, "product_invalid_id") &&
      !Mentions(content, "product_invalid_sku") && Mentions(content, "stock_quantity")
    ensures r == Some(InvalidField(DuplicateCategoryName)) <==>
      (status == BadRequestStatus && !Mentions(content, "product_invalid_id") &&
       !Mentions(content, "product_invalid_sku") && !Mentions(content, "stock_quantity") &&
       Mentions(content, "term_exists")) ||
      (status == InternalServerErrorStatus && Mentions(content, "duplicate_term_slug"))
    ensures r == Some(InvalidField(BadRequest)) <==>
      status == BadRequestStatus && !Mentions(content, "product_invalid_id") &&
      !Mentions(content, "product_invalid_sku") && !Mentions(content, "stock_quantity") &&
      !Mentions(content, "term_exists")
    ensures r == Some(InvalidField(MissingParentCategoryId)) <==>
      status == InternalServerErrorStatus && !Mentions(content, "duplicate_term_slug") &&
      Mentions(content, "missing_parent")
    ensures r == Some(InternalServerError) <==>
      status == InternalServerErrorStatus && !Mentions(content, "duplicate_term_slug") &&
      !Mentions(content, "missing_parent")
    ensures r == Some(Authentication) <==> status == Unauthorized
    ensures r == Some(InvalidField(Forbidden)) <==> status == ForbiddenStatus
    ensures r == Some(NetworkError) <==> status == 0
    ensures r.Some? && r.value.InvalidField? && r.value.field.UnexpectedStatus? <==>
      status !in {OK, Created, NotFound, BadRequestStatus, Unauthorized, ForbiddenStatus,
                  InternalServerErrorStatus, 0}
    ensures r.Some? && r.value.InvalidField? && r.value.field.UnexpectedStatus? ==>
      r.value.field.status == status
  {
    if status == OK || status == Created then None
    else if status == NotFound then Some(DoesNotExist)
    else if status == BadRequestStatus then
      if Mentions(content, "product_invalid_id") then Some(DoesNotExist)
      else if Mentions(content, "product_invalid_sku") then Some(InvalidField(InvalidSku))
      else if Mentions(content, "stock_quantity") then Some(InvalidField(InvalidQuantity))
      else if Mentions(content, "term_exists") then Some(InvalidField(DuplicateCategoryName))
      else Some(InvalidField(BadRequest))
    else if status == Unauthorized then Some(Authentication)
    else if status == ForbiddenStatus then Some(InvalidField(Forbidden))
    else if status == InternalServerErrorStatus then
      if Mentions(content, "duplicate_term_slug") then Some(InvalidField(DuplicateCategoryName))
      else if Mentions(content, "missing_parent") then Some(InvalidField(MissingParentCategoryId))
      else Some(InternalServerError)
    else if status == 0 then Some(NetworkError)
    else Some(InvalidField(UnexpectedStatus(status)))
  }

  /** A 400 body is searched for the invalid-id code first: a body naming both an
      invalid id and an existing term is a missing record, not a duplicate name. */
  lemma InvalidIdTakesPriority(content: string)
    requires Contains(content, "product_invalid_id") && Contains(content, "term_exists")
    ensures Classify(BadRequestStatus, Some(content)) == Some(DoesNotExist)
  {
  }

  /** What the server answered: the status code, the body text (possibly null), and the
      value the body decodes to (null when it decodes to nothing). */
  datatype Response<T> = Response(status: int, content: Option<string>, decoded: Option<T>)

  /** The outcome of a response: the decoded value, or the classified exception. */
  function Outcome<T>(response: Response<T>): (r: Result<Option<T>, Error>)
    ensures r.Success? <==> response.status in {OK, Created}
    ensures r.Success? ==> r.value == response.decoded
    ensures r.Failure? ==> Classify(response.status, response.content) == Some(r.error)
  {
    match Classify(response.status, response.content)
    case None => Success(response.decoded)
    case Some(e) => Failure(e)
  }

  /** What goes out for a body and an excluded list: the body itself when there is
      no body or the list is null or empty; otherwise the body without every key the
      listed categories name, unless a category is unsupported, which aborts the
      request with the first such category. */
  function MaskedBody(body: Option<JsonObject>, excluded: Option<seq<ExcludedField>>): (r: Result<Option<JsonObject>, ExcludedField>)
    ensures body.None? || excluded.None? || excluded.value == [] ==> r == Success(body)
    ensures body.Some? && excluded.Some? && excluded.value != [] ==>
      (r.Failure? <==> !AllSupported(excluded.value))
    ensures body.Some? && excluded.Some? && excluded.value != [] && AllSupported(excluded.value) ==>
      r == Success(Some(Without(body.value, MaskKeys(excluded.value))))
    ensures body.Some? && excluded.Some? && excluded.value != [] && !AllSupported(excluded.value) ==>
      r == Failure(excluded.value[FirstUnsupported(excluded.value)])
  {
    if body.None? || excluded.None? || excluded.value == [] then Success(body)
    else if !AllSupported(excluded.value) then Failure(excluded.value[FirstUnsupported(excluded.value)])
    else Success(Some(Without(body.value, MaskKeys(excluded.value))))
  }

  /** The outcome of sending: the classified answer and the body that went out, or
      the unsupported category's exception and nothing sent. */
  function Sending<T>(body: Option<JsonObject>, excluded: Option<seq<ExcludedField>>, response: Response<T>): (out: (Result<Option<T>, Error>, Option<JsonObject>))
    ensures MaskedBody(body, excluded).Success? ==> out == (Outcome(response), MaskedBody(body, excluded).value)
    ensures MaskedBody(body, excluded).Failure? ==>
      out == (Failure(UnsupportedField(MaskedBody(body, excluded).error)), None)
  {
    match MaskedBody(body, excluded)
    case Success(sent) => (Outcome(response), sent)
    case Failure(field) => (Failure(UnsupportedField(field)), None)
  }

  /** Sending the same body twice through the mask changes nothing the second time:
      what goes out has none of the masked keys left. */
  lemma MaskedBodyIdempotent(body: JsonObject, excluded: seq<ExcludedField>)
    requires MaskedBody(Some(body), Some(excluded)).Success?
    ensures var sent := MaskedBody(Some(body), Some(excluded)).value;
      sent.Some? && MaskedBody(sent, Some(excluded)) == Success(sent)
  {
    if excluded != [] {
      MaskTwice(body, MaskKeys(excluded));
    }
  }

  /** `SendRequest`: the body (if any) is masked, key by key, when the excluded list is
      non-null and non-empty; an unsupported category aborts before anything is sent.
      Then the response is classified. `sent` is the body that went out. */
  method SendRequest<T>(body: Option<JsonObject>, excluded: Option<seq<ExcludedField>>, response: Response<T>)
    returns (r: Result<Option<T>, Error>, sent: Option<JsonObject>)
    ensures (r, sent) == Sending(body, excluded, response)
  {
    sent := body;
    if body.Some? && excluded.Some? && |excluded.value| > 0 {
      var masked := ApplyMask(body.value, excluded.value);
      if masked.Failure? {
        return Failure(UnsupportedField(masked.error)), None;
      }
      sent := Some(masked.value);
    }
    r := Outcome(response);
  }
}
