# Screen scraper model

A Dafny model of the `uk.ac.cedar.screenscraper` scraper. The scraper reads a product listing page, builds one `Product` per product container, and fills in each product's:

- title, from the first link's own text;
- description, cut out of the linked detail page between a fixed heading anchor and the next `<`;
- page size in kilobytes.

A second pass hands the listing's unit-price texts to the products by position. The report step turns the list into JSON entries.

Modules:

- `JavaLang` (`java_lang.dfy`) covers the Java behaviour the scraper depends on:
  - exceptions, as `Result` and `Outcome` values;
  - `String.indexOf(str, from)`, with its clamped start and its `-1`;
  - `String.substring(begin, end)`, with its bounds exception;
  - `Double.toString` of the whole numbers that the size field holds.
- `Products` (`products.dfy`) holds the `Product` class, with its four fields, setters and getters, and the shared `ArrayList<Product>` as `ProductList`.
- `Scraper` (`scraper.dfy`) covers:
  - description extraction and the size in kilobytes;
  - `createProductArray`, modelled as `CreateProductArray`;
  - `addProductPrices`, modelled as `AddProductPrices`;
  - the list part of `createJsonOutput`, modelled as `CreateJsonOutput`.

The environment is passed in as inputs:

- The CSS query results are sequences:
  - the `div.productInfo` containers, each reduced to its first link;
  - the `p.pricePerUnit` own texts.
- The detail pages are a map from href to page body and byte length. Fetching an href that is not in the map fails, and the model always gives that failure as an `IOException` (see "## Left out").
- A unit price is kept opaque: `Zero` is the field's default 0.0, and `Parsed(t)` is the double parsed from text `t`.
- Whether `Double.parseDouble` accepts a text is a parameter, `parsable`.

Behaviours of the code a reader might not expect, all kept in the model:

- The code does not detect a missing description anchor: `indexOf` gives -1 and extraction starts at the anchor's length minus one, which is 79. Extraction can still throw from there, for example StringIndexOutOfBoundsException for a body shorter than 79 characters.
- `getSize` renders the size double, so 2 kilobytes print as `2.0kb`, not `2kb`.
- Products without a matching price keep their price silently. There is no missing-price flag.
- `addProductPrices` treats an empty price list as normal. Every product then keeps 0.0, and the run fails at `createJsonOutput`'s `total > 0` assertion. The model leaves that assertion out (see Scraper.CreateJsonOutput under "## Left out").

## Model

| member | source | states |
|---|---|---|
| JavaLang.SearchStart | src/main/java/uk/ac/cedar/screenscraper/Scraper.java:140 | where `indexOf(str, from)` starts looking. A negative `from` starts at 0, a `from` past the end starts at the end, and any other `from` starts at `from` |
| JavaLang.StartsWithChars | src/main/java/uk/ac/cedar/screenscraper/Scraper.java:194 | `startsWith(p)` holds exactly when `p` is no longer than the text and agrees with it character by character |
| JavaLang.CharsMatchSlices | src/main/java/uk/ac/cedar/screenscraper/Scraper.java:138-140 | comparing the pattern with the text one character at a time agrees with comparing the two slices |
| JavaLang.IndexFrom | src/main/java/uk/ac/cedar/screenscraper/Scraper.java:138-140 | the search result is -1 or an index at or after the start where the whole pattern fits |
| JavaLang.IndexFromSpec | src/main/java/uk/ac/cedar/screenscraper/Scraper.java:138-140 | the search returns the least index at or after the start where the pattern occurs, and -1 only when it occurs nowhere from there on |
| JavaLang.IndexOf | src/main/java/uk/ac/cedar/screenscraper/Scraper.java:138-140 | `indexOf` returns -1 or an index at or after its clamped start |
| JavaLang.IndexOfSpec | src/main/java/uk/ac/cedar/screenscraper/Scraper.java:138-140 | `indexOf` finds the first occurrence at or after the clamped start, and returns -1 exactly when there is none |
| JavaLang.Substring | src/main/java/uk/ac/cedar/screenscraper/Scraper.java:141 | `substring(begin, end)` succeeds exactly when `0 <= begin <= end <= length`, and then returns the `end - begin` characters starting at `begin`. Otherwise it throws StringIndexOutOfBoundsException carrying `begin`, `end` and the length |
| JavaLang.Decimal | src/main/java/uk/ac/cedar/screenscraper/Product.java:65 | the decimal digits of a number are non-empty, all digits, and have no leading zero |
| JavaLang.DecimalRoundTrip | src/main/java/uk/ac/cedar/screenscraper/Product.java:65 | reading back the printed digits gives the number |
| JavaLang.WholeDoubleToString | src/main/java/uk/ac/cedar/screenscraper/Product.java:65 | a whole double below 10^7 prints as its digits, without leading zeros, followed by `.0`, and the digits denote the number |
| Products.Product.constructor | src/main/java/uk/ac/cedar/screenscraper/Product.java:14-18 | a new product has Java's field defaults: null title and description, size 0 and unit price 0.0 |
| Products.Product.SetTitle | src/main/java/uk/ac/cedar/screenscraper/Product.java:20-23 | the title becomes the argument and the other three fields are unchanged. `getTitle` (Product.java:40-43, the function `GetTitle`) then returns it |
| Products.Product.SetUnitPrice | src/main/java/uk/ac/cedar/screenscraper/Product.java:25-28 | the unit price becomes the argument and the other fields are unchanged. `getUnitPriceDouble` (Product.java:57-60, the function `GetUnitPriceDouble`) then returns it |
| Products.Product.SetSize | src/main/java/uk/ac/cedar/screenscraper/Product.java:30-33 | the size becomes the argument and the other fields are unchanged |
| Products.Product.SetDescription | src/main/java/uk/ac/cedar/screenscraper/Product.java:35-38 | the description becomes the argument and the other fields are unchanged. `getDescription` (Product.java:45-48, the function `GetDescription`) then returns it |
| Products.Product.GetSize | src/main/java/uk/ac/cedar/screenscraper/Product.java:62-66 | the size string is the decimal digits of the stored size, without leading zeros, followed by `.0kb` |
| Products.Product.ToJson | src/main/java/uk/ac/cedar/screenscraper/Scraper.java:72-76 | the JSON object of a product carries its title and description as they are, its size as the `getSize` string, and its unit price unformatted (the `##.00` rendering is left out) |
| Products.ProductList.constructor | src/main/java/uk/ac/cedar/screenscraper/Scraper.java:31 | a new list is empty |
| Products.ProductList.Add | src/main/java/uk/ac/cedar/screenscraper/Scraper.java:150 | `add` appends the product at the end and keeps the earlier elements |
| Scraper.DescriptionStart | src/main/java/uk/ac/cedar/screenscraper/Scraper.java:138-139 | the start index is never below the anchor's length minus one |
| Scraper.OpenBracketMatch | src/main/java/uk/ac/cedar/screenscraper/Scraper.java:140 | `"<"` occurs at an index exactly when the character there is `<` |
| Scraper.ExtractDescription | src/main/java/uk/ac/cedar/screenscraper/Scraper.java:137-141 | extraction fails only with StringIndexOutOfBoundsException |
| Scraper.ExtractDescriptionSpec | src/main/java/uk/ac/cedar/screenscraper/Scraper.java:138-141 | extraction succeeds exactly when a `<` occurs at or after the start, and the extracted text contains no `<` |
| Scraper.DescriptionStartAfterAnchor | src/main/java/uk/ac/cedar/screenscraper/Scraper.java:138-139 | when the anchor first occurs at `i`, extraction starts right after it |
| Scraper.DescriptionStartWithoutAnchor | src/main/java/uk/ac/cedar/screenscraper/Scraper.java:138-139 | when the anchor is absent, extraction silently starts at the anchor's length minus one |
| Scraper.DescriptionUpToNextTag | src/main/java/uk/ac/cedar/screenscraper/Scraper.java:140-141 | the description is exactly the text from the start up to, and excluding, the first `<` after it |
| Scraper.DescriptionWithoutNextTag | src/main/java/uk/ac/cedar/screenscraper/Scraper.java:140-141 | with no `<` after the start, `end` is -1 and `substring(start, -1)` throws |
| Scraper.SizeInKb | src/main/java/uk/ac/cedar/screenscraper/Scraper.java:147 | the size brackets the byte length: `kb * 1024 <= bytes < (kb + 1) * 1024` |
| Scraper.SizeInKbUnique | src/main/java/uk/ac/cedar/screenscraper/Scraper.java:147 | the size is the only whole number of kilobytes that brackets the byte length |
| Scraper.SizeInKbTruncates | src/main/java/uk/ac/cedar/screenscraper/Scraper.java:147 | 2048 bytes give 2 and 2047 bytes give 1: truncation, not rounding |
| Scraper.ReadContainer | src/main/java/uk/ac/cedar/screenscraper/Scraper.java:127-147 | for one container: a missing link throws NullPointerException, and an href that cannot be fetched throws the fetch exception. Otherwise the container succeeds exactly when the description can be extracted, and fails with extraction's exception. On success, the title is the link's own text, the description is the page's extracted description, and the size is the page's size in kilobytes |
| Scraper.Scan | src/main/java/uk/ac/cedar/screenscraper/Scraper.java:120-151 | the loop keeps at most one record per container, and stops with a failure exactly when it did not read them all |
| Scraper.ScanInOrder | src/main/java/uk/ac/cedar/screenscraper/Scraper.java:120-151 | record `i` is what container `i` yields: one product per container, in container order |
| Scraper.ScanStopsAtFailure | src/main/java/uk/ac/cedar/screenscraper/Scraper.java:120-151 | the exception that ends the loop is the one thrown by the first container not turned into a product |
| Scraper.ScanAt | src/main/java/uk/ac/cedar/screenscraper/Scraper.java:120-151 | combines the two lemmas above for the container the loop is at |
| Scraper.ScanCompleteIff | src/main/java/uk/ac/cedar/screenscraper/Scraper.java:120-151 | every container becomes a product exactly when none of them throws |
| Scraper.AppendProduct | src/main/java/uk/ac/cedar/screenscraper/Scraper.java:122-150 | one iteration appends a fresh product holding the container's title, description and size, or throws the container's exception and leaves the list unchanged |
| Scraper.AppendNext | src/main/java/uk/ac/cedar/screenscraper/Scraper.java:120-151 | one iteration either appends the product for the next record of the scan, or stops with the scan's failure |
| Scraper.CreateProductArray | src/main/java/uk/ac/cedar/screenscraper/Scraper.java:105-158 | the earlier list elements are kept. The appended products are fresh, distinct, made one per scanned record in order. The outcome is the first exception, or the failed assertion `No products are in the list` when the list is empty, or normal completion |
| Scraper.StripPound | src/main/java/uk/ac/cedar/screenscraper/Scraper.java:193-197 | a text starting with `&pound` loses exactly that prefix, and any other text is unchanged |
| Scraper.StripPoundAfterEntity | src/main/java/uk/ac/cedar/screenscraper/Scraper.java:194-197 | stripping `&pound` from `&pound` followed by an amount gives the amount back |
| Scraper.FirstUnparsable | src/main/java/uk/ac/cedar/screenscraper/Scraper.java:187-201 | the index of the first stripped price text that `parseDouble` rejects, with every earlier text accepted |
| Scraper.ZipPrices | src/main/java/uk/ac/cedar/screenscraper/Scraper.java:170-212 | the price pass leaves one price per product and never changes the number of products |
| Scraper.PricesAre | src/main/java/uk/ac/cedar/screenscraper/Scraper.java:201 | the list of unit prices is fixed by each product's own unit price |
| Scraper.ZipPricesEndsAt | src/main/java/uk/ac/cedar/screenscraper/Scraper.java:187-209 | when the walk stops at `j`, the outcome is NumberFormatException for text `j` if both lists continue, else normal. The first `j` products get their stripped, parsed prices and the rest keep theirs |
| Scraper.PriceLoop | src/main/java/uk/ac/cedar/screenscraper/Scraper.java:181-209 | the loop stops at some `j` no greater than either length. The texts before `j` parse, and `j` is where the texts or the products run out or the first unparsable text. The outcome is NoSuchElementException with no products, NumberFormatException for text `j` if both lists go on, else normal. Only the unit prices of the first `j` products change, to their stripped, parsed texts |
| Scraper.AddProductPrices | src/main/java/uk/ac/cedar/screenscraper/Scraper.java:170-212 | the products' prices and the outcome are exactly those of the positional zip of the old prices with the price texts. Every other product field is unchanged, and the list itself is unchanged |
| Scraper.SurplusPricesIgnored | src/main/java/uk/ac/cedar/screenscraper/Scraper.java:205-208 | price texts beyond the last product make no difference: the loop breaks before reading them |
| Scraper.ZipPricesPositional | src/main/java/uk/ac/cedar/screenscraper/Scraper.java:187-209 | when the texts below both lengths parse (surplus texts past the last product may not), the pass ends normally, product `i` gets text `i` for every `i` below both lengths, and the other products keep their earlier price |
| Scraper.ZipPricesNoProducts | src/main/java/uk/ac/cedar/screenscraper/Scraper.java:181-190 | with no products and at least one price text, the first `it.next()` throws NoSuchElementException |
| Scraper.ZipPricesStopsAtUnparsable | src/main/java/uk/ac/cedar/screenscraper/Scraper.java:199-201 | an unparsable text ends the pass with NumberFormatException. The products before it are priced, and it and the rest keep their prices |
| Scraper.CreateJsonOutput | src/main/java/uk/ac/cedar/screenscraper/Scraper.java:55-80 | fails with the assertion `The list has not been populated to create JSON` exactly when the list is empty. Otherwise there is one entry per product, in list order, with the product's title, size string, unit price and description |

## Left out

- Fetching pages with Jsoup is network I/O. The detail pages are a map from href to page, and an href outside the map stands for the IOException.
- Scraper.ReadContainer: every href outside the map gives `IO`. For an empty href (a link without an `href` attribute), or a relative or malformed one, `Jsoup.connect` throws IllegalArgumentException instead. That exception is unchecked, and `main`'s `catch (IOException)` does not catch it. The model does not tell these cases apart.
- Java strings index UTF-16 code units, but a Dafny string is a sequence of Unicode scalar values. Indices, lengths and the length carried by StringIndexOutOfBounds are counted in characters. With a supplementary character in the page before the description, the model's positions differ from Java's. Java can also split a surrogate pair, for example when the anchor is absent and extraction starts at code unit 79. Pages without supplementary characters behave identically.
- HTML parsing and the CSS queries (`select`, `first`, `attr`, `ownText`) are foreign library code. Their results are inputs.
- The double parsing of prices is floating point. Acceptance by `Double.parseDouble` is the `parsable` parameter, and a parsed price is kept as its text.
- The `Double` price value and its `DecimalFormat("##.00")` rendering in `getUnitPrice` are floating point and are not modelled.
- Scraper.CreateJsonOutput: the running `total` of unit prices, its `total > 0` assertion and its formatting are floating point and are not modelled. Only the list's non-empty check and the one-entry-per-product loop are.
- JSON serialisation with json-simple is a library serialiser. The report is a sequence of `JsonEntry` values.
- `getBytes()` uses the platform charset. A page's byte length is given with the page.
- `main`, the JUnit runner `executeScrape` and console printing are entry points and I/O.
- Scraper.CreateProductArray: the `null != list` guard and `assertNotNull(productsInfo)` are not modelled. A Dafny class reference is never null, and a Jsoup selection is never null.
- Scraper.AddProductPrices: `assertNotNull(list)`, the `null != list` guard and `assertNotNull(productsPrices)` are not modelled, for the same reasons.
- Scraper.AddProductPrices: requires that no product object appears twice in the list. The Java list could hold one object twice, and then a later `setUnitPrice` would overwrite an earlier one. `CreateProductArray` only appends fresh, distinct products.
- Products.Product.SetSize: takes whole kilobytes that fit a Java int's byte count, not any double. That is all `createProductArray` ever passes.
