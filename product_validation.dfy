/** `productSchema` as a predicate; `isUrl` stands for zod's URL check on image addresses. */
module ProductValidation {
  import opened Wrappers
  import opened OrderValidation
  import opened Schema
  import opened Text

  /** `z.enum(['ACTIVE', 'DRAFT', 'ARCHIVED'])` */
  function ParseStatus(s: string): (r: Option<ProductStatus>)
    ensures r.Some? <==> s in ["ACTIVE", "DRAFT", "ARCHIVED"]
  {
    if s == "ACTIVE" then Some(ACTIVE)
    else if s == "DRAFT" then Some(DRAFT)
    else if s == "ARCHIVED" then Some(ARCHIVED)
    else None
  }

  datatype ImageInput = ImageInput(url: string, alt: Option<string>)
  datatype VariantInput = VariantInput(name: string, price: Option<real>, stock: real)
  datatype ProductInput = ProductInput(
    name: string, description: string, price: real, stock: real, categoryId: string,
    status: string, images: seq<ImageInput>, variants: Option<seq<VariantInput>>)

  /** A variant: whole non-negative stock, price absent or at least 0.01. */
  predicate ValidVariant(v: VariantInput) {
    IsInteger(v.stock) && v.stock >= 0.0 && (v.price.None? || v.price.value >= 0.01)
  }

  /** A valid variant has a storable stock and a positive price if any; its name is unchecked. */
  lemma ValidVariantFacts(v: VariantInput, name: string)
    ensures ValidVariant(v) ==> v.stock.Floor >= 0 && v.stock.Floor as real == v.stock
    ensures ValidVariant(v) ==> v.price.None? || v.price.value > 0.0
    ensures ValidVariant(v.(name := name)) <==> ValidVariant(v)
    ensures !ValidVariant(v.(stock := 0.5)) && !ValidVariant(v.(price := Some(0.0)))
  {
    assert 0.5.Floor == 0;
  }

  predicate ValidProduct(p: ProductInput, isUrl: string -> bool) {
    && Utf16Len(p.name) >= 3
    && Utf16Len(p.description) >= 10
    && p.price >= 0.01
    && IsInteger(p.stock) && p.stock >= 0.0
    && |p.categoryId| >= 1
    && ParseStatus(p.status).Some?
    && |p.images| >= 1
    && (forall i :: 0 <= i < |p.images| ==> isUrl(p.images[i].url))
    && (p.variants.None? || forall i :: 0 <= i < |p.variants.value| ==> ValidVariant(p.variants.value[i]))
  }

  /** What a validated product guarantees to the code that stores it. */
  lemma ValidProductFacts(p: ProductInput, isUrl: string -> bool)
    requires ValidProduct(p, isUrl)
    ensures p.price > 0.0 && p.stock.Floor >= 0 && p.stock.Floor as real == p.stock
    ensures p.images != []
    ensures p.variants.Some? ==> forall v :: v in p.variants.value ==>
      v.stock.Floor >= 0 && (v.price.None? || v.price.value > 0.0)
  {
    if p.variants.Some? {
      forall v | v in p.variants.value
        ensures v.stock.Floor >= 0 && (v.price.None? || v.price.value > 0.0)
      {
        var i :| 0 <= i < |p.variants.value| && p.variants.value[i] == v;
        assert ValidVariant(p.variants.value[i]);
      }
    }
  }
}
