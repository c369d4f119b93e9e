/**
 * The home page: loading the catalogue, the message shown when loading
 * fails, and the search box that filters the products by name or
 * description.
 */
module Home {
  import opened Js
  import opened Records

  /** `a || b || ''` over two optional strings. */
  function FirstNonEmpty(a: Option<string>, b: Option<string>): (r: string)
    ensures a.Some? && a.value != "" ==> r == a.value
    ensures !(a.Some? && a.value != "") && b.Some? ==> r == b.value
    ensures !(a.Some? && a.value != "") && b.None? ==> r == ""
  {
    if a.Some? && a.value != "" then a.value
    else if b.Some? then b.value
    else ""
  }

  /** The name the search looks at: `ProductName`, then `productName`. */
  function NameOf(p: Product): string {
    FirstNonEmpty(p.ProductName, p.productName)
  }

  /** The description the search looks at: `ProductDescription`, then
      `productDescription`. */
  function DescriptionOf(p: Product): string {
    FirstNonEmpty(p.ProductDescription, p.productDescription)
  }

  /** The search test: the lower-cased name or description contains the
      lower-cased term. */
  predicate MatchesSearch(p: Product, searchTerm: string) {
    Includes(ToLower(NameOf(p)), ToLower(searchTerm)) || Includes(ToLower(DescriptionOf(p)), ToLower(searchTerm))
  }

  /** `filteredProducts`: exactly the matching products, in catalogue order. */
  function FilteredProducts(products: seq<Product>, searchTerm: string): (r: seq<Product>)
    ensures IsSubsequence(r, products)
    ensures forall i :: 0 <= i < |r| ==> MatchesSearch(r[i], searchTerm)
    ensures forall i :: 0 <= i < |products| ==> (products[i] in r <==> MatchesSearch(products[i], searchTerm))
    ensures forall p :: multiset(r)[p] == if MatchesSearch(p, searchTerm) then multiset(products)[p] else 0
  {
    FilterIsSubsequence(products, p => MatchesSearch(p, searchTerm));
    FilterCounts(products, p => MatchesSearch(p, searchTerm));
    Filter(products, p => MatchesSearch(p, searchTerm))
  }

  /** An empty search shows the whole catalogue. */
  lemma EmptySearchKeepsAll(products: seq<Product>)
    ensures FilteredProducts(products, "") == products
  {
    forall p: Product ensures MatchesSearch(p, "") {
      assert ToLower("") == "";
      IncludesEmpty(ToLower(NameOf(p)));
    }
    FilterKeepsAll(products, p => MatchesSearch(p, ""));
  }

  /** The search ignores the case of the term. */
  lemma SearchIgnoresCase(products: seq<Product>, searchTerm: string)
    ensures FilteredProducts(products, ToUpper(searchTerm)) == FilteredProducts(products, searchTerm)
  {
    LowerOfUpper(searchTerm);
    FilterCongruence(products, p => MatchesSearch(p, ToUpper(searchTerm)), p => MatchesSearch(p, searchTerm));
  }

  /** A product whose name holds the term, in any case, is shown. */
  lemma NamedProductIsShown(products: seq<Product>, i: nat, searchTerm: string)
    requires i < |products|
    requires Includes(ToLower(NameOf(products[i])), ToLower(searchTerm))
    ensures products[i] in FilteredProducts(products, searchTerm)
  {
  }

  const NoProducts := "No products available at the moment"
  const ServiceMissing := "Product service is not available. Please check if the backend server is running."
  const ServerFailed := "Server error. Please try again later."
  const Unreachable := "Unable to connect to the server. Please check your internet connection and ensure the backend server is running."
  const LoadFailed := "Failed to load products. Please try again later."

  /** The message for a failed catalogue request: a 404, a 500, no response
      or a network error, and everything else each have their own. */
  function LoadErrorMessage(err: ApiError): (r: string)
    ensures r == ServiceMissing <==> err.responseStatus == Some(404)
    ensures r == ServerFailed <==> err.responseStatus == Some(500)
    ensures r == Unreachable <==>
              err.responseStatus != Some(404) && err.responseStatus != Some(500)
              && (err.code == "NETWORK_ERROR" || err.responseStatus.None?)
    ensures r == LoadFailed <==>
              err.responseStatus.Some? && err.responseStatus != Some(404) && err.responseStatus != Some(500)
              && err.code != "NETWORK_ERROR"
  {
    if err.responseStatus == Some(404) then ServiceMissing
    else if err.responseStatus == Some(500) then ServerFailed
    else if err.code == "NETWORK_ERROR" || err.responseStatus.None? then Unreachable
    else LoadFailed
  }

  /** How the catalogue request ended: a body (possibly without data), or an
      error. */
  datatype ProductsResponse = ProductsBody(data: Option<seq<Product>>) | ProductsError(err: ApiError)

  /** The home page's state. */
  class HomePage {
    var products: seq<Product>
    var error: string
    var loading: bool

    constructor ()
      ensures products == [] && error == "" && loading
    {
      products := [];
      error := "";
      loading := true;
    }

    /** `fetchProducts`: a non-empty catalogue is shown; an empty one, or a
        failed request, leaves no products and a message. */
    method FetchProducts(response: ProductsResponse)
      modifies this
      ensures !loading
      ensures error == "" <==> response.ProductsBody? && response.data.Some? && response.data.value != []
      ensures error == "" ==> products == response.data.value
      ensures error != "" ==> products == []
      ensures response.ProductsBody? && error != "" ==> error == NoProducts
      ensures response.ProductsError? ==> error == LoadErrorMessage(response.err)
    {
      loading := true;
      error := "";
      match response {
        case ProductsBody(data) =>
          if data.Some? && |data.value| > 0 {
            products := data.value;
          } else {
            products := [];
            error := NoProducts;
          }
        case ProductsError(err) =>
          products := [];
          error := LoadErrorMessage(err);
      }
      loading := false;
    }
  }
}
