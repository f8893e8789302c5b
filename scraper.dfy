/**
  The scraper's extraction pipeline. The listing page and the detail pages are
  reached through Jsoup in the original; here the CSS queries arrive as
  sequences (the `div.productInfo` containers, the `p.pricePerUnit` texts) and
  the detail pages are a map from href to page.
 */
module Scraper {
  import opened JavaLang
  import opened Products

  // ---------------------------------------------------------------------
  // Description extraction
  // ---------------------------------------------------------------------

  /** The markup that introduces a product's description on its detail page. */
  const DescriptionAnchor: string :=
    "<h3 class=\"productDataItemHeader\">Description</h3>\n<div class=\"productText\">\n<p>"

  /** `index + searchFor.length()`: just past the first anchor, or, when the
      page has no anchor, `-1 + searchFor.length()`. */
  function DescriptionStart(body: string): (start: int)
    ensures start >= |DescriptionAnchor| - 1
  {
    IndexOf(body, DescriptionAnchor, 0) + |DescriptionAnchor|
  }

  /** `"<"` occurs at `k` exactly when the character there is `'<'`. */
  lemma OpenBracketMatch(s: string, k: int)
    ensures MatchesAt(s, "<", k) <==> 0 <= k < |s| && s[k] == '<'
  {
    if 0 <= k < |s| && s[k] == '<' {
      assert s[k..k + 1] == "<";
    }
  }

  /** The text between the anchor and the next `<`, by the source's index
      arithmetic; `substring` throws when no `<` follows the start. */
  function ExtractDescription(body: string): (r: Result<string>)
    ensures r.Throws? ==> r.error.StringIndexOutOfBounds?
  {
    var start := DescriptionStart(body);
    var end := IndexOf(body, "<", start);
    Substring(body, start, end)
  }

  /** Extraction succeeds exactly when a `<` follows the start, and what it
      extracts holds no `<`. */
  lemma ExtractDescriptionSpec(body: string)
    ensures var r := ExtractDescription(body);
            && (r.Ok? <==> exists j :: DescriptionStart(body) <= j < |body| && body[j] == '<')
            && (r.Ok? ==> '<' !in r.value)
  {
    var start := DescriptionStart(body);
    IndexOfSpec(body, "<", start);
    assert forall k :: MatchesAt(body, "<", k) <==> 0 <= k < |body| && body[k] == '<' by {
      forall k { OpenBracketMatch(body, k); }
    }
  }

  /** When the anchor first occurs at `i`, extraction starts right after it. */
  lemma DescriptionStartAfterAnchor(body: string, i: nat)
    requires MatchesAt(body, DescriptionAnchor, i)
    requires forall k :: 0 <= k < i ==> !MatchesAt(body, DescriptionAnchor, k)
    ensures DescriptionStart(body) == i + |DescriptionAnchor|
  {
    IndexOfSpec(body, DescriptionAnchor, 0);
  }

  /** Without the anchor, `indexOf` gives -1 and extraction silently starts at
      the anchor's length minus one. */
  lemma DescriptionStartWithoutAnchor(body: string)
    requires forall k :: !MatchesAt(body, DescriptionAnchor, k)
    ensures DescriptionStart(body) == |DescriptionAnchor| - 1
  {
    IndexOfSpec(body, DescriptionAnchor, 0);
  }

  /** The description is the text from the start up to, and excluding, the
      first `<` at or after it. */
  lemma DescriptionUpToNextTag(body: string, end: nat)
    requires DescriptionStart(body) <= end < |body| && body[end] == '<'
    requires forall k :: DescriptionStart(body) <= k < end ==> body[k] != '<'
    ensures ExtractDescription(body) == Ok(body[DescriptionStart(body)..end])
  {
    var start := DescriptionStart(body);
    forall k | start <= k < end ensures !MatchesAt(body, "<", k) {
      OpenBracketMatch(body, k);
    }
    OpenBracketMatch(body, end);
    IndexOfSpec(body, "<", start);
    assert IndexOf(body, "<", start) == end;
  }

  /** With no `<` at or after the start, `end` is -1 and `substring` throws. */
  lemma DescriptionWithoutNextTag(body: string)
    requires forall k :: DescriptionStart(body) <= k < |body| ==> body[k] != '<'
    ensures ExtractDescription(body) == Throws(StringIndexOutOfBounds(DescriptionStart(body), -1, |body|))
  {
    var start := DescriptionStart(body);
    forall k | SearchStart(body, start) <= k ensures !MatchesAt(body, "<", k) {
      OpenBracketMatch(body, k);
    }
    IndexOfSpec(body, "<", start);
  }

  // ---------------------------------------------------------------------
  // Page size
  // ---------------------------------------------------------------------

  /** `linkedDoc.getBytes().length / 1024`: Java's int division, which for a
      length (never negative) truncates to the whole kilobytes. */
  function SizeInKb(bytes: ByteCount): (kb: Kilobytes)
    ensures kb * 1024 <= bytes < kb * 1024 + 1024
  {
    bytes / 1024
  }

  /** The size is the one whole number of kilobytes that brackets the length. */
  lemma SizeInKbUnique(bytes: ByteCount, kb: nat)
    requires kb * 1024 <= bytes < kb * 1024 + 1024
    ensures SizeInKb(bytes) == kb
  {
    var r := SizeInKb(bytes);
    assert (r - kb) * 1024 < 1024 && (kb - r) * 1024 < 1024;
  }

  /** 2048 bytes make 2kb and 2047 bytes make 1kb: truncation, not rounding. */
  lemma SizeInKbTruncates()
    ensures SizeInKb(2048) == 2
    ensures SizeInKb(2047) == 1
  {
    SizeInKbUnique(2048, 2);
    SizeInKbUnique(2047, 1);
  }

  // ---------------------------------------------------------------------
  // Product pass: createProductArray
  // ---------------------------------------------------------------------

  /** The first `a` element of a container: its `href` and its own text. */
  datatype Link = Link(href: string, ownText: string)

  /** A `div.productInfo` element, reduced to `e.select("a").first()`, which is
      null when the container holds no link. */
  datatype Container = Container(firstLink: Option<Link>)

  /** A fetched detail page: its body text and the length of its bytes in the
      platform charset. The pages the scraper can fetch are a map from href to
      page; fetching an href outside it fails with an IOException. */
  datatype Page = Page(body: string, byteLength: ByteCount)

  /** What one container contributes to its product: title, description, size. */
  datatype Details = Details(title: string, description: string, size: Kilobytes)

  /** The fields a product of the product pass holds when it is appended. */
  function NewProduct(d: Details): Snapshot {
    Snapshot(Some(d.title), d.size, Zero, Some(d.description))
  }

  /** One pass of the loop body of `createProductArray`, as a value: the
      details it sets on its product, or the exception that ends the method. */
  function ReadContainer(c: Container, web: map<string, Page>): (r: Result<Details>)
    ensures c.firstLink.None? ==> r == Throws(NullPointer)
    ensures c.firstLink.Some? && c.firstLink.value.href !in web ==> r == Throws(IO(c.firstLink.value.href))
    ensures c.firstLink.Some? && c.firstLink.value.href in web ==>
              var extracted := ExtractDescription(web[c.firstLink.value.href].body);
              (r.Ok? <==> extracted.Ok?) && (r.Throws? ==> r == Throws(extracted.error))
    ensures r.Ok? ==> c.firstLink.Some? && r.value.title == c.firstLink.value.ownText
    ensures r.Ok? ==> c.firstLink.value.href in web
    ensures r.Ok? ==> var page := web[c.firstLink.value.href];
                      ExtractDescription(page.body) == Ok(r.value.description)
                      && r.value.size == SizeInKb(page.byteLength)
  {
    match c.firstLink
    case None => Throws(NullPointer)
    case Some(link) =>
      if link.href !in web then Throws(IO(link.href))
      else
        var linkedDoc := web[link.href];
        match ExtractDescription(linkedDoc.body)
        case Throws(e) => Throws(e)
        case Ok(description) => Ok(Details(link.ownText, description, SizeInKb(linkedDoc.byteLength)))
  }

  /** What each container yields when read on its own, in container order. */
  function ReadAll(cs: seq<Container>, web: map<string, Page>): (rs: seq<Result<Details>>)
  {
    seq(|cs|, i requires 0 <= i < |cs| => ReadContainer(cs[i], web))
  }

  /** The details read before the first failure, and that failure. */
  datatype Scanned = Scanned(records: seq<Details>, failure: Option<JavaException>)

  /** Goes through the reads in order and stops at the first exception. */
  function Scan(rs: seq<Result<Details>>): (r: Scanned)
    ensures |r.records| <= |rs|
    ensures r.failure.None? <==> |r.records| == |rs|
    decreases |rs|
  {
    if rs == [] then Scanned([], None)
    else
      match rs[0]
      case Throws(e) => Scanned([], Some(e))
      case Ok(d) =>
        var rest := Scan(rs[1..]);
        Scanned([d] + rest.records, rest.failure)
  }

  /** Record `i` is read `i`: one record per read, in order. */
  lemma {:induction false} ScanInOrder(rs: seq<Result<Details>>, i: nat)
    requires i < |Scan(rs).records|
    ensures rs[i] == Ok(Scan(rs).records[i])
    decreases |rs|
  {
    if i > 0 {
      ScanInOrder(rs[1..], i - 1);
    }
  }

  /** The failure Scan reports is the one of the first read that is not kept. */
  lemma {:induction false} ScanStopsAtFailure(rs: seq<Result<Details>>)
    requires Scan(rs).failure.Some?
    ensures rs[|Scan(rs).records|] == Throws(Scan(rs).failure.value)
    decreases |rs|
  {
    if rs[0].Ok? {
      ScanStopsAtFailure(rs[1..]);
    }
  }

  /** What Scan says of read `i` when no earlier read failed. */
  lemma ScanAt(rs: seq<Result<Details>>, i: nat)
    requires i <= |Scan(rs).records| && i < |rs|
    ensures i < |Scan(rs).records| ==> rs[i] == Ok(Scan(rs).records[i])
    ensures i == |Scan(rs).records| ==> rs[i] == Throws(Scan(rs).failure.value)
  {
    if i < |Scan(rs).records| {
      ScanInOrder(rs, i);
    } else {
      ScanStopsAtFailure(rs);
    }
  }

  /** Every read is kept exactly when none of them fails. */
  lemma {:induction false} ScanCompleteIff(rs: seq<Result<Details>>)
    ensures Scan(rs).failure.None? <==> forall i :: 0 <= i < |rs| ==> rs[i].Ok?
    decreases |rs|
  {
    if rs != [] {
      ScanCompleteIff(rs[1..]);
      assert forall i :: 1 <= i < |rs| ==> rs[i] == rs[1..][i - 1];
    }
  }

  /** The message of the assertion at the end of `createProductArray`. */
  const NoProductsMessage: string := "No products are in the list"

  /** `ps` are the products made from `records`, one each, in order. */
  ghost predicate MadeFrom(ps: seq<Product>, records: seq<Details>)
    reads set p | p in ps
  {
    |ps| == |records| && forall i :: 0 <= i < |ps| ==> ps[i].State() == NewProduct(records[i])
  }

  /** The body of the loop of `createProductArray` for one container: a new
      product gets the link's own text as title and the detail page's
      description and size, and is appended to `list`; an exception leaves the
      list as it was. */
  method AppendProduct(list: ProductList, e: Container, web: map<string, Page>)
    returns (failure: Option<JavaException>, ghost p: Product)
    modifies list
    ensures ReadContainer(e, web).Throws? ==>
              failure == Some(ReadContainer(e, web).error) && list.items == old(list.items)
    ensures ReadContainer(e, web).Ok? ==>
              failure == None && list.items == old(list.items) + [p]
              && fresh(p) && p.State() == NewProduct(ReadContainer(e, web).value)
  {
    var product := new Product();
    p := product;
    match e.firstLink {
      case None =>
        failure := Some(NullPointer);
      case Some(detail) =>
        var href := detail.href;
        var title := detail.ownText;
        product.SetTitle(title);
        if href !in web {
          return Some(IO(href)), product;
        }
        var linkedDoc := web[href];
        var description := ExtractDescription(linkedDoc.body);
        if description.Throws? {
          return Some(description.error), product;
        }
        product.SetDescription(description.value);
        product.SetSize(SizeInKb(linkedDoc.byteLength));
        list.Add(product);
        failure := None;
    }
  }

  /** Container `i` of the loop, whose predecessors were all read: it either
      yields the next product of Scan's records or stops with Scan's failure. */
  method AppendNext(list: ProductList, productsInfo: seq<Container>, web: map<string, Page>, i: nat)
    returns (failure: Option<JavaException>, ghost p: Product)
    requires i <= |Scan(ReadAll(productsInfo, web)).records| && i < |productsInfo|
    modifies list
    ensures i == |Scan(ReadAll(productsInfo, web)).records| ==>
              failure == Scan(ReadAll(productsInfo, web)).failure && failure.Some? && list.items == old(list.items)
    ensures i < |Scan(ReadAll(productsInfo, web)).records| ==>
              failure == None && list.items == old(list.items) + [p]
              && fresh(p) && p.State() == NewProduct(Scan(ReadAll(productsInfo, web)).records[i])
  {
    ScanAt(ReadAll(productsInfo, web), i);
    failure, p := AppendProduct(list, productsInfo[i], web);
  }

  /** `createProductArray(doc, list)`: for each container, in order, a new
      product made from it is appended to `list`; the first exception leaves
      the products appended so far in place. The method then asserts that the
      list is not empty. */
  method CreateProductArray(list: ProductList, productsInfo: seq<Container>, web: map<string, Page>)
    returns (outcome: Outcome)
    modifies list
    ensures |list.items| >= |old(list.items)| && list.items[..|old(list.items)|] == old(list.items)
    ensures MadeFrom(list.items[|old(list.items)|..], Scan(ReadAll(productsInfo, web)).records)
    ensures forall p :: p in list.items[|old(list.items)|..] ==> fresh(p)
    ensures Distinct(list.items[|old(list.items)|..])
    ensures outcome == (if Scan(ReadAll(productsInfo, web)).failure.Some? then Thrown(Scan(ReadAll(productsInfo, web)).failure.value)
                        else if |list.items| == 0 then Thrown(AssertionFailed(NoProductsMessage))
                        else Normal)
  {
    ghost var scanned := Scan(ReadAll(productsInfo, web));
    ghost var before := list.items;
    ghost var added: seq<Product> := [];
    var i := 0;
    while i < |productsInfo|
      invariant 0 <= i <= |scanned.records|
      invariant list.items == before + added
      invariant |added| == i
      invariant forall k :: 0 <= k < i ==> added[k].State() == NewProduct(scanned.records[k])
      invariant forall p :: p in added ==> fresh(p)
      invariant Distinct(added)
    {
      var failure, p := AppendNext(list, productsInfo, web, i);
      if failure.Some? {
        assert list.items[|before|..] == added;
        return Thrown(failure.value);
      }
      added := added + [p];
      i := i + 1;
    }
    assert list.items[|before|..] == added;
    if |list.items| == 0 {
      outcome := Thrown(AssertionFailed(NoProductsMessage));
    } else {
      outcome := Normal;
    }
  }

  // ---------------------------------------------------------------------
  // Price pass: addProductPrices
  // ---------------------------------------------------------------------

  /** The entity text that precedes a price on the listing page. */
  const PoundPrefix: string := "&pound"

  /** `if (price.startsWith("&pound")) price = price.substring(6)`. */
  function StripPound(text: string): (price: string)
    ensures StartsWith(text, PoundPrefix) ==> text == PoundPrefix + price
    ensures !StartsWith(text, PoundPrefix) ==> price == text
  {
    if StartsWith(text, PoundPrefix) then text[6..] else text
  }

  /** A price written after the entity loses exactly the entity. */
  lemma StripPoundAfterEntity(amount: string)
    ensures StripPound(PoundPrefix + amount) == amount
  {
    assert (PoundPrefix + amount)[..|PoundPrefix|] == PoundPrefix;
  }

  /** The index of the first of the first `k` price texts that
      `Double.parseDouble` rejects once stripped, or `k` if it accepts them all. */
  function FirstUnparsable(texts: seq<string>, parsable: string -> bool, k: nat): (j: nat)
    requires k <= |texts|
    ensures j <= k
    ensures forall i :: 0 <= i < j ==> parsable(StripPound(texts[i]))
    ensures j < k ==> !parsable(StripPound(texts[j]))
    decreases k
  {
    if k == 0 then 0
    else
      var j := FirstUnparsable(texts, parsable, k - 1);
      if j < k - 1 then j
      else if parsable(StripPound(texts[k - 1])) then k
      else k - 1
  }

  /** How the price pass ends, and the unit prices of the products after it. */
  datatype Priced = Priced(outcome: Outcome, prices: seq<Price>)

  /** The reference definition of the price pass on the products' unit prices
      `before`: with no products, the first `it.next()` throws; otherwise the
      i-th price goes to the i-th product for every i below the shorter length,
      until a price text does not parse. */
  function ZipPrices(before: seq<Price>, texts: seq<string>, parsable: string -> bool): (r: Priced)
    ensures |r.prices| == |before|
  {
    if |before| == 0 && |texts| > 0 then Priced(Thrown(NoSuchElement), before)
    else
      var k := if |texts| < |before| then |texts| else |before|;
      var j := FirstUnparsable(texts, parsable, k);
      Priced(if j < k then Thrown(NumberFormat(StripPound(texts[j]))) else Normal,
             seq(|before|, i requires 0 <= i < |before| => if i < j then Parsed(StripPound(texts[i])) else before[i]))
  }

  /** Where the price pass ends when the first `j` texts parse and the walk
      stops at `j`, because the products or the texts ran out or text `j`
      does not parse: its outcome, and which products got a new price. */
  lemma ZipPricesEndsAt(before: seq<Price>, texts: seq<string>, parsable: string -> bool, j: nat)
    requires |before| > 0 || |texts| == 0
    requires j <= |before| && j <= |texts|
    requires forall k :: 0 <= k < j ==> parsable(StripPound(texts[k]))
    requires j == |before| || j == |texts| || !parsable(StripPound(texts[j]))
    ensures ZipPrices(before, texts, parsable).outcome
              == if j < |before| && j < |texts| then Thrown(NumberFormat(StripPound(texts[j]))) else Normal
    ensures forall k :: 0 <= k < |before| ==>
              ZipPrices(before, texts, parsable).prices[k] == if k < j then Parsed(StripPound(texts[k])) else before[k]
  {
    var m := if |texts| < |before| then |texts| else |before|;
    assert FirstUnparsable(texts, parsable, m) == j;
  }

  /** The unit prices of `ps` are `prices` when they agree product by product. */
  lemma PricesAre(ps: seq<Product>, prices: seq<Price>)
    requires |prices| == |ps|
    requires forall k :: 0 <= k < |ps| ==> ps[k].unitPrice == prices[k]
    ensures Prices(ps) == prices
  {
  }

  /** The loop of `addProductPrices`: walks the price texts with one shared
      iterator over `products`, giving the i-th product the i-th price and
      breaking once the products run out. It stops at `j`: the first `j`
      texts parse and have been set, and the walk ended because the texts or
      the products ran out, or because text `j` does not parse. */
  method PriceLoop(products: seq<Product>, productsPrices: seq<string>, parsable: string -> bool)
    returns (outcome: Outcome, ghost j: nat)
    requires Distinct(products)
    modifies set p | p in products
    ensures j <= |products| && j <= |productsPrices|
    ensures forall k :: 0 <= k < j ==> parsable(StripPound(productsPrices[k]))
    ensures |products| == 0 && |productsPrices| > 0 ==> outcome == Thrown(NoSuchElement)
    ensures |products| > 0 || |productsPrices| == 0 ==>
              && (j == |products| || j == |productsPrices| || !parsable(StripPound(productsPrices[j])))
              && outcome == if j < |products| && j < |productsPrices|
                            then Thrown(NumberFormat(StripPound(productsPrices[j]))) else Normal
    ensures forall k :: 0 <= k < |products| ==>
              products[k].State() == old(products[k].State()).(unitPrice :=
                if k < j then Parsed(StripPound(productsPrices[k])) else old(products[k].unitPrice))
  {
    var i := 0;   // the iterator's position: how many products next() has handed out
    while i < |productsPrices|
      invariant 0 <= i <= |productsPrices| && i <= |products|
      invariant i > 0 ==> i < |products|
      invariant forall k :: 0 <= k < i ==> parsable(StripPound(productsPrices[k]))
      invariant forall k :: 0 <= k < |products| ==>
                  products[k].State() == old(products[k].State()).(unitPrice :=
                    if k < i then Parsed(StripPound(productsPrices[k])) else old(products[k].unitPrice))
    {
      if i == |products| {
        return Thrown(NoSuchElement), i;
      }
      var p := products[i];
      var price := StripPound(productsPrices[i]);
      if !parsable(price) {
        return Thrown(NumberFormat(price)), i;
      }
      p.SetUnitPrice(Parsed(price));
      i := i + 1;
      if i == |products| {
        break;
      }
    }
    return Normal, i;
  }

  /** `addProductPrices(doc, list)`: the loop above over the list's products.
      Only unit prices are written, and the list itself is not changed. */
  method AddProductPrices(list: ProductList, productsPrices: seq<string>, parsable: string -> bool)
    returns (outcome: Outcome)
    requires Distinct(list.items)
    modifies set p | p in list.items
    ensures ZipPrices(old(Prices(list.items)), productsPrices, parsable) == Priced(outcome, Prices(list.items))
    ensures forall i :: 0 <= i < |list.items| ==>
              list.items[i].State() == old(list.items[i].State()).(unitPrice := list.items[i].unitPrice)
  {
    var products := list.items;
    ghost var before := Prices(products);
    ghost var j;
    outcome, j := PriceLoop(products, productsPrices, parsable);
    if |products| == 0 && |productsPrices| > 0 {
      assert ZipPrices(before, productsPrices, parsable) == Priced(Thrown(NoSuchElement), []);
    } else {
      ZipPricesEndsAt(before, productsPrices, parsable, j);
      PricesAre(products, ZipPrices(before, productsPrices, parsable).prices);
    }
  }

  /** Surplus price texts beyond the last product are never read. */
  lemma SurplusPricesIgnored(before: seq<Price>, texts: seq<string>, extra: seq<string>, parsable: string -> bool)
    requires 0 < |before| <= |texts|
    ensures ZipPrices(before, texts + extra, parsable) == ZipPrices(before, texts, parsable)
  {
    var k := |before|;
    var j1 := FirstUnparsable(texts + extra, parsable, k);
    var j2 := FirstUnparsable(texts, parsable, k);
    assert forall i :: 0 <= i < k ==> (texts + extra)[i] == texts[i];
    assert j1 == j2;
  }

  /** When every price text the walk reads parses (surplus texts beyond the
      last product may not), the pass ends normally, the first
      `min(#prices, #products)` products get their prices by position and the
      others keep the price they had. */
  lemma ZipPricesPositional(before: seq<Price>, texts: seq<string>, parsable: string -> bool)
    requires |before| > 0 || |texts| == 0
    requires forall i :: 0 <= i < |texts| && i < |before| ==> parsable(StripPound(texts[i]))
    ensures ZipPrices(before, texts, parsable).outcome == Normal
    ensures forall i :: 0 <= i < |before| ==>
              ZipPrices(before, texts, parsable).prices[i]
                == if i < |texts| then Parsed(StripPound(texts[i])) else before[i]
  {
  }

  /** With no products and at least one price, the first `it.next()` throws
      and nothing is priced. */
  lemma ZipPricesNoProducts(texts: seq<string>, parsable: string -> bool)
    requires |texts| > 0
    ensures ZipPrices([], texts, parsable) == Priced(Thrown(NoSuchElement), [])
  {
  }

  /** A price text that does not parse ends the pass there: the products
      before it are priced, it and the rest keep their prices. */
  lemma ZipPricesStopsAtUnparsable(before: seq<Price>, texts: seq<string>, parsable: string -> bool, j: nat)
    requires j < |before| && j < |texts|
    requires forall i :: 0 <= i < j ==> parsable(StripPound(texts[i]))
    requires !parsable(StripPound(texts[j]))
    ensures ZipPrices(before, texts, parsable).outcome == Thrown(NumberFormat(StripPound(texts[j])))
    ensures ZipPrices(before, texts, parsable).prices
              == seq(j, i requires 0 <= i < j => Parsed(StripPound(texts[i]))) + before[j..]
  {
    var k := if |texts| < |before| then |texts| else |before|;
    assert FirstUnparsable(texts, parsable, k) == j;
  }

  // ---------------------------------------------------------------------
  // Report: createJsonOutput
  // ---------------------------------------------------------------------

  /** The message of the assertion that the list is not empty. */
  const EmptyListMessage: string := "The list has not been populated to create JSON"

  /** The "results" part of `createJsonOutput(list)`: the assertion that the
      list is not empty, then one JSON entry per product in list order. */
  method CreateJsonOutput(list: ProductList) returns (r: Result<seq<JsonEntry>>)
    ensures r.Ok? <==> |list.items| > 0
    ensures r.Throws? ==> r.error == AssertionFailed(EmptyListMessage)
    ensures r.Ok? ==> |r.value| == |list.items|
                      && forall i :: 0 <= i < |list.items| ==> r.value[i] == list.items[i].ToJson()
  {
    var products := list.items;
    if |products| == 0 {
      return Throws(AssertionFailed(EmptyListMessage));
    }
    var prodList: seq<JsonEntry> := [];
    var it := 0;
    while it < |products|
      invariant 0 <= it <= |products| && |prodList| == it
      invariant forall i :: 0 <= i < it ==> prodList[i] == products[i].ToJson()
    {
      var p := products[it];
      prodList := prodList + [p.ToJson()];
      it := it + 1;
    }
    return Ok(prodList);
  }
}
