/** Reading one order: each order line gets a product code built from the product id in
    its URL and a variant id, which is looked up by the attribute values named in the
    line's title when the URL carries one. The variant listing of a product is an input
    (`fetchVariants`) instead of a request. */
module Orders {
  import opened Wrappers
  import opened Text
  import opened Models
  import opened EncodedProduct
  import opened ProductUrlParser
  import opened MixinConverters
  import opened Requests

  /** What the variant listing request of one product yields: the classified failure,
      or the result list (None when the body or its list is null). */
  type VariantsFetch = Result<Option<seq<MxVariant>>, Error>

  /** The attribute values named in an order line's title `<name> - <v1> / <v2> ...`:
      the text after the first " - " up to the next one, cut at every "/", each piece
      trimmed. */
  function AttributeTokens(itemName: string): (tokens: seq<string>)
    requires Contains(itemName, " - ")
    ensures |tokens| >= 1
    ensures forall k :: 0 <= k < |tokens| ==>
      tokens[k] == [] || (!IsWhiteSpace(tokens[k][0]) && !IsWhiteSpace(tokens[k][|tokens[k]| - 1]))
    ensures var segment := Split(itemName, " - ")[1];
      Join(Split(segment, "/"), "/") == segment && |tokens| == |Split(segment, "/")| &&
      forall k :: 0 <= k < |tokens| ==> tokens[k] == Trim(Split(segment, "/")[k])
  {
    var pieces := Split(Split(itemName, " - ")[1], "/");
    seq(|pieces|, k requires 0 <= k < |pieces| => Trim(pieces[k]))
  }

  /** The title "Shirt - Blue / 30" is cut at its only " - ". */
  lemma TitleSplitExample()
    ensures Contains("Shirt - Blue / 30", " - ")
    ensures Split("Shirt - Blue / 30", " - ") == ["Shirt", "Blue / 30"]
  {
    var title := "Shirt - Blue / 30";
    forall j | 0 <= j < 5 ensures !MatchAt(title, " - ", j, false) {
      assert title[j..j + 3][1] == title[j + 1];
    }
    FindFirst(title, " - ", 0, 5, false);
    assert title[..5] == "Shirt" && title[8..] == "Blue / 30";
    NoDashIn("Blue / 30");
  }

  lemma NoDashIn(s: string)
    requires forall i :: 0 <= i < |s| ==> s[i] != '-'
    ensures Split(s, " - ") == [s]
  {
    forall j | 0 <= j ensures !MatchAt(s, " - ", j, false) {
      if j + 3 <= |s| { assert s[j..j + 3][1] == s[j + 1]; }
    }
  }

  /** The segment "Blue / 30" is cut at its only "/". */
  lemma SegmentSplitExample()
    ensures Split("Blue / 30", "/") == ["Blue ", " 30"]
  {
    var segment := "Blue / 30";
    forall j | 0 <= j < 5 ensures !MatchAt(segment, "/", j, false) {
      assert segment[j..j + 1][0] == segment[j];
    }
    FindFirst(segment, "/", 0, 5, false);
    assert segment[..5] == "Blue " && segment[6..] == " 30";
    forall j | 0 <= j ensures !MatchAt(" 30", "/", j, false) {
      if j + 1 <= 3 { assert " 30"[j..j + 1][0] == " 30"[j]; }
    }
    assert Split(" 30", "/") == [" 30"];
  }

  /** The title "Shirt - Blue / 30" names the values "Blue" and "30". */
  lemma AttributeTokensExample()
    ensures Contains("Shirt - Blue / 30", " - ") && AttributeTokens("Shirt - Blue / 30") == ["Blue", "30"]
  {
    TitleSplitExample();
    SegmentSplitExample();
    TwoPieceTokens("Shirt - Blue / 30", "Blue ", " 30");
    TrimPairExample();
  }

  lemma TwoPieceTokens(itemName: string, first: string, second: string)
    requires Contains(itemName, " - ") && Split(Split(itemName, " - ")[1], "/") == [first, second]
    ensures AttributeTokens(itemName) == [Trim(first), Trim(second)]
  {
  }

  lemma TrimPairExample()
    ensures [Trim("Blue "), Trim(" 30")] == ["Blue", "30"]
  {
    assert Trim("Blue ") == "Blue" by { TrimBlueExample(); }
    assert Trim(" 30") == "30" by { TrimThirtyExample(); }
  }

  lemma TrimBlueExample()
    ensures Trim("Blue ") == "Blue"
  {
    assert "Blue " == "" + "Blue" + " ";
    TrimPadded("", "Blue", " ");
  }

  lemma TrimThirtyExample()
    ensures Trim(" 30") == "30"
  {
    assert " 30" == " " + "30" + "";
    TrimPadded(" ", "30", "");
  }

  /** Every token is among the variant's attribute values. */
  predicate HasAllValues(variant: MxVariant, tokens: seq<string>) {
    forall k :: 0 <= k < |tokens| ==> exists a :: a in variant.attributes && a.value == Some(tokens[k])
  }

  /** The id of the first variant whose attribute values include every token. */
  function FirstMatch(variants: seq<MxVariant>, tokens: seq<string>): (r: Option<int>)
    ensures r.None? <==> forall k :: 0 <= k < |variants| ==> !HasAllValues(variants[k], tokens)
    ensures r.Some? ==> exists k :: (0 <= k < |variants| && variants[k].id == r.value &&
      HasAllValues(variants[k], tokens) && forall j :: 0 <= j < k ==> !HasAllValues(variants[j], tokens))
  {
    if variants == [] then None
    else if HasAllValues(variants[0], tokens) then Some(variants[0].id)
    else
      var r := FirstMatch(variants[1..], tokens);
      assert forall k :: 1 <= k < |variants| ==> variants[k] == variants[1..][k - 1];
      if r.Some? then
        var k :| 0 <= k < |variants[1..]| && variants[1..][k].id == r.value &&
          HasAllValues(variants[1..][k], tokens) &&
          forall j :: 0 <= j < k ==> !HasAllValues(variants[1..][j], tokens);
        assert variants[k + 1] == variants[1..][k];
        r
      else r
  }

  /** `ResolveVariantId`: the variant listing is requested first, so its failure comes
      first; a null title fails; a title without " - " names no variant; otherwise the
      first variant carrying every named value, if any. */
  function ResolveVariantId(itemName: Option<string>, fetched: VariantsFetch): (r: Result<Option<int>, Error>)
    ensures fetched.Failure? ==> r == Failure(fetched.error)
    ensures fetched.Success? && itemName.None? ==> r == Failure(NullReference)
    ensures fetched.Success? && itemName.Some? && !Contains(itemName.value, " - ") ==> r == Success(None)
    ensures fetched.Success? && itemName.Some? && Contains(itemName.value, " - ") && fetched.value.None? ==>
      r == Failure(NullReference)
    ensures fetched.Success? && itemName.Some? && Contains(itemName.value, " - ") && fetched.value.Some? ==>
      var variants := fetched.value.value;
      var tokens := AttributeTokens(itemName.value);
      r.Success? &&
      (r.value.None? <==> forall k :: 0 <= k < |variants| ==> !HasAllValues(variants[k], tokens)) &&
      (r.value.Some? ==> exists k :: (0 <= k < |variants| && variants[k].id == r.value.value &&
        HasAllValues(variants[k], tokens) && forall j :: 0 <= j < k ==> !HasAllValues(variants[j], tokens)))
  {
    match fetched
    case Failure(e) => Failure(e)
    case Success(variants) =>
      if itemName.None? then Failure(NullReference)
      else if !Contains(itemName.value, " - ") then Success(None)
      else if variants.None? then Failure(NullReference)
      else Success(FirstMatch(variants.value, AttributeTokens(itemName.value)))
  }

  /** The product code of one order line: the URL's product id with the resolved
      variant id, else the URL's variant id, else 0; the variant listing is consulted
      only when the URL carries a variant id. */
  function ItemCode(url: Option<string>, itemName: Option<string>, fetchVariants: int -> VariantsFetch)
    : (r: Result<int, Error>)
    ensures Parse(url).Failure? ==> r == Failure(InvalidUrl(Parse(url).error))
    ensures Parse(url).Success? && Parse(url).value.variantId.None? ==>
      r == Success(Encode(Parse(url).value.productId, 0))
    ensures Parse(url).Success? && Parse(url).value.variantId.Some? ==>
      var p := Parse(url).value.productId;
      var resolved := ResolveVariantId(itemName, fetchVariants(p));
      (resolved.Failure? ==> r == Failure(resolved.error)) &&
      (resolved.Success? && resolved.value.Some? ==> r == Success(Encode(p, resolved.value.value))) &&
      (resolved.Success? && resolved.value.None? ==> r == Success(Encode(p, Parse(url).value.variantId.value)))
  {
    match Parse(url)
    case Failure(e) => Failure(InvalidUrl(e))
    case Success(ParsedUrl(p, None)) => Success(Encode(p, 0))
    case Success(ParsedUrl(p, Some(v))) =>
      match ResolveVariantId(itemName, fetchVariants(p))
      case Failure(e) => Failure(e)
      case Success(Some(rv)) => Success(Encode(p, rv))
      case Success(None) => Success(Encode(p, v))
  }

  /** The variant id a line's code carries: the resolved one, else the URL's, else 0. */
  function ChosenVariant(parsed: ParsedUrl, resolved: Result<Option<int>, Error>): int {
    if parsed.variantId.None? then 0
    else if resolved.Success? && resolved.value.Some? then resolved.value.value
    else parsed.variantId.value
  }

  /** A line's code decodes back to the URL's product id and the chosen variant id,
      when that variant id is not negative. */
  lemma ItemCodeDecodes(url: Option<string>, itemName: Option<string>, fetchVariants: int -> VariantsFetch)
    requires ItemCode(url, itemName, fetchVariants).Success?
    requires ChosenVariant(Parse(url).value, ResolveVariantId(itemName, fetchVariants(Parse(url).value.productId))) >= 0
    ensures ItemCode(url, itemName, fetchVariants).value >= 0
    ensures Decode(ItemCode(url, itemName, fetchVariants).value) ==
      (Parse(url).value.productId,
       ChosenVariant(Parse(url).value, ResolveVariantId(itemName, fetchVariants(Parse(url).value.productId))))
  {
    var p := Parse(url).value.productId;
    var v := ChosenVariant(Parse(url).value, ResolveVariantId(itemName, fetchVariants(p)));
    assert ItemCode(url, itemName, fetchVariants).value == Encode(p, v);
    DecodeEncode(p, v);
  }

  /** Without a variant id in the URL, the variant listing does not matter. */
  lemma NoVariantNoLookup(url: Option<string>, itemName: Option<string>, f: int -> VariantsFetch, g: int -> VariantsFetch)
    requires Parse(url).Success? && Parse(url).value.variantId.None?
    ensures ItemCode(url, itemName, f) == ItemCode(url, itemName, g)
  {
  }

  /** The variant listings one line consults: its product id when its URL parses and
      carries a variant id. */
  function LineConsults(url: Option<string>): (ids: seq<int>)
    ensures |ids| <= 1
    ensures ids != [] <==> Parse(url).Success? && Parse(url).value.variantId.Some?
  {
    var parsed := Parse(url);
    if parsed.Success? && parsed.value.variantId.Some? then [parsed.value.productId] else []
  }

  /** The body of the item loop for one line: the line gets its product code unless
      computing it fails; `consulted` records the variant listing read, if any. */
  method AssignLine(item: MxOrderItem, fetchVariants: int -> VariantsFetch)
    returns (r: Result<(), Error>, consulted: seq<int>)
    modifies item
    ensures consulted == LineConsults(item.url)
    ensures r.Success? <==> ItemCode(item.url, item.name, fetchVariants).Success?
    ensures r.Success? ==> item.productId == Some(ItemCode(item.url, item.name, fetchVariants).value)
    ensures r.Failure? ==> r.error == ItemCode(item.url, item.name, fetchVariants).error
    ensures r.Failure? ==> item.productId == old(item.productId)
  {
    var parsed := Parse(item.url);
    consulted := [];
    if parsed.Failure? {
      return Failure(InvalidUrl(parsed.error)), consulted;
    }
    var p := parsed.value.productId;
    var code;
    if parsed.value.variantId.Some? {
      consulted := [p];
      var resolved := ResolveVariantId(item.name, fetchVariants(p));
      if resolved.Failure? {
        return Failure(resolved.error), consulted;
      }
      if resolved.value.Some? {
        code := Encode(p, resolved.value.value);
      } else {
        code := Encode(p, parsed.value.variantId.value);
      }
    } else {
      code := Encode(p, 0);
    }
    item.productId := Some(code);
    r := Success(());
  }

  /** The variant listings the lines consult, in line order. */
  function Consulted(items: seq<MxOrderItem>): (ids: seq<int>)
    ensures |ids| <= |items|
  {
    if items == [] then [] else Consulted(items[..|items| - 1]) + LineConsults(items[|items| - 1].url)
  }

  /** One more line read: its variant listing, if any, follows the earlier ones. */
  lemma ConsultedStep(items: seq<MxOrderItem>, i: int)
    requires 0 <= i < |items|
    ensures Consulted(items[..i + 1]) == Consulted(items[..i]) + LineConsults(items[i].url)
  {
    assert items[..i + 1][..i] == items[..i];
  }

  /** The product codes of the lines, in line order. */
  function LineCodes(items: seq<MxOrderItem>, fetchVariants: int -> VariantsFetch): (codes: seq<Result<int, Error>>)
    ensures |codes| == |items|
  {
    if items == [] then []
    else LineCodes(items[..|items| - 1], fetchVariants) +
         [ItemCode(items[|items| - 1].url, items[|items| - 1].name, fetchVariants)]
  }

  /** Entry k of the line codes is the code of line k. */
  lemma {:induction false} LineCodesAt(items: seq<MxOrderItem>, fetchVariants: int -> VariantsFetch, k: int)
    requires 0 <= k < |items|
    ensures LineCodes(items, fetchVariants)[k] == ItemCode(items[k].url, items[k].name, fetchVariants)
  {
    var n := |items| - 1;
    var last := ItemCode(items[n].url, items[n].name, fetchVariants);
    assert LineCodes(items, fetchVariants) == LineCodes(items[..n], fetchVariants) + [last];
    if k < n {
      LineCodesAt(items[..n], fetchVariants, k);
      assert items[..n][k] == items[k];
    }
  }

  /** Two positions holding the same line object have the same code. */
  lemma SameLineSameCode(items: seq<MxOrderItem>, fetchVariants: int -> VariantsFetch, j: int, k: int)
    requires 0 <= j < |items| && 0 <= k < |items| && items[j] == items[k]
    ensures LineCodes(items, fetchVariants)[j] == LineCodes(items, fetchVariants)[k]
  {
    LineCodesAt(items, fetchVariants, j);
    LineCodesAt(items, fetchVariants, k);
  }

  /** Every code before position k succeeds. */
  predicate SucceedsBefore(codes: seq<Result<int, Error>>, k: int) {
    forall j :: 0 <= j < k && j < |codes| ==> codes[j].Success?
  }

  /** Position k holds the first failing code, and it fails with `error`. */
  predicate FirstFailureAt(codes: seq<Result<int, Error>>, k: int, error: Error) {
    0 <= k < |codes| && SucceedsBefore(codes, k) && codes[k] == Failure(error)
  }

  /** One more successful code. */
  lemma SucceedsStep(codes: seq<Result<int, Error>>, i: int)
    requires 0 <= i < |codes| && SucceedsBefore(codes, i) && codes[i].Success?
    ensures SucceedsBefore(codes, i + 1)
  {
  }

  /** Line i of the item loop. */
  method AssignLineAt(items: seq<MxOrderItem>, i: int, fetchVariants: int -> VariantsFetch)
    returns (r: Result<(), Error>, consulted: seq<int>)
    requires 0 <= i < |items|
    modifies items[i]
    ensures consulted == LineConsults(items[i].url)
    ensures r.Success? <==> LineCodes(items, fetchVariants)[i].Success?
    ensures r.Success? ==> items[i].productId == Some(LineCodes(items, fetchVariants)[i].value)
    ensures r.Failure? ==> LineCodes(items, fetchVariants)[i] == Failure(r.error)
    ensures r.Failure? ==> items[i].productId == old(items[i].productId)
  {
    LineCodesAt(items, fetchVariants, i);
    r, consulted := AssignLine(items[i], fetchVariants);
  }

  /** The loop stops at line k: every earlier line has a code, line k's code fails
      with `error`, and the variant listings of lines 0..k were read. */
  predicate FailsAt(items: seq<MxOrderItem>, fetchVariants: int -> VariantsFetch, k: int, error: Error,
                    consulted: seq<int>) {
    FirstFailureAt(LineCodes(items, fetchVariants), k, error) && consulted == Consulted(items[..k + 1])
  }

  /** Lines before n carry their codes. */
  predicate AssignedBefore(items: seq<MxOrderItem>, codes: seq<Result<int, Error>>, n: int)
    reads set item | item in items
  {
    |codes| == |items| && SucceedsBefore(codes, n) &&
    forall k :: 0 <= k < n && k < |items| ==> items[k].productId == Some(codes[k].value)
  }

  /** One round of the item loop: line i gets its code, or the loop stops with the
      code's failure. */
  method AssignStep(items: seq<MxOrderItem>, i: int, fetchVariants: int -> VariantsFetch)
    returns (r: Result<(), Error>, asked: seq<int>)
    requires 0 <= i < |items|
    requires AssignedBefore(items, LineCodes(items, fetchVariants), i)
    modifies items[i]
    ensures asked == LineConsults(items[i].url)
    ensures r.Success? ==> AssignedBefore(items, LineCodes(items, fetchVariants), i + 1)
    ensures r.Failure? ==> LineCodes(items, fetchVariants)[i] == Failure(r.error)
  {
    ghost var codes := LineCodes(items, fetchVariants);
    r, asked := AssignLineAt(items, i, fetchVariants);
    if r.Success? {
      forall k | 0 <= k < i + 1
        ensures items[k].productId == Some(codes[k].value)
      {
        if items[k] == items[i] {
          SameLineSameCode(items, fetchVariants, k, i);
        }
      }
      SucceedsStep(codes, i);
    }
  }

  /** The item loop of `GetOrderById`: each line in turn gets its product code; the
      first line whose code fails aborts the loop, leaving the earlier lines updated.
      `consulted` records the variant listings read, in order. */
  method AssignProductIds(items: seq<MxOrderItem>, fetchVariants: int -> VariantsFetch)
    returns (r: Result<(), Error>, consulted: seq<int>)
    modifies set item | item in items
    ensures r.Success? ==> AssignedBefore(items, LineCodes(items, fetchVariants), |items|)
    ensures r.Success? ==> consulted == Consulted(items)
    ensures r.Failure? ==> exists k :: FailsAt(items, fetchVariants, k, r.error, consulted)
  {
    consulted := [];
    var i := 0;
    while i < |items|
      invariant 0 <= i <= |items|
      invariant AssignedBefore(items, LineCodes(items, fetchVariants), i)
      invariant consulted == Consulted(items[..i])
    {
      var outcome, asked := AssignStep(items, i, fetchVariants);
      ConsultedStep(items, i);
      consulted := consulted + asked;
      if outcome.Failure? {
        assert FailsAt(items, fetchVariants, i, outcome.error, consulted);
        return outcome, consulted;
      }
      i := i + 1;
    }
    assert items[..i] == items;
    return Success(()), consulted;
  }

  /** `GetOrderById`: the order is requested (its failure comes first); a null order or
      a null item list fails; the item loop assigns each line's product code; then the
      order is converted, its lines carrying those codes. */
  method GetOrderById(fetched: Result<Option<MxOrderDetail>, Error>, fetchVariants: int -> VariantsFetch)
    returns (r: Result<WebOrder, Error>)
    modifies if fetched.Success? && fetched.value.Some? then ItemSet(fetched.value.value.items) else {}
    ensures fetched.Failure? ==> r == Failure(fetched.error)
    ensures fetched.Success? && (fetched.value.None? || fetched.value.value.items.None?) ==>
      r == Failure(NullReference)
    ensures fetched.Success? && fetched.value.Some? && fetched.value.value.items.Some? ==>
      var items := fetched.value.value.items.value;
      var codes := LineCodes(items, fetchVariants);
      (r.Success? <==> SucceedsBefore(codes, |items|)) &&
      (r.Failure? ==> exists k :: FirstFailureAt(codes, k, r.error)) &&
      (r.Success? ==> (r.value == ToWebOrder(fetched.value.value) && |r.value.items| == |items| &&
        forall k :: 0 <= k < |items| ==> r.value.items[k].productId == Some(codes[k].value)))
  {
    if fetched.Failure? {
      return Failure(fetched.error);
    }
    if fetched.value.None? || fetched.value.value.items.None? {
      return Failure(NullReference);
    }
    var order := fetched.value.value;
    var items := order.items.value;
    assert ItemSet(order.items) == set item | item in items;
    var outcome, consulted := AssignProductIds(items, fetchVariants);
    if outcome.Failure? {
      return Failure(outcome.error);
    }
    var w := ToWebOrder(order);
    assert forall k :: 0 <= k < |items| ==> w.items[k].productId == items[k].productId;
    r := Success(w);
  }
}
