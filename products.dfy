/**
  The product record of the scraper: a mutable holder of four fields that is
  created empty, filled in by the product pass (title, description, size) and
  later by the price pass (unit price), and read back for the report.
 */
module Products {
  import opened JavaLang

  /** A Java int holding an array length: the byte count of a page body. */
  type ByteCount = n: nat | n <= 0x7FFF_FFFF

  /** The largest page size in kilobytes a Java byte array can have. */
  const MaxKilobytes: nat := 0x7FFF_FFFF / 1024

  /** A page size in kilobytes, as the product pass stores it. */
  type Kilobytes = n: nat | n <= MaxKilobytes

  /** A unit price, kept opaque. `Zero` is the 0.0 a fresh product's double
      field holds; `Parsed(t)` is the double that `Double.parseDouble(t)`
      yields, for a text `t` it accepted. */
  datatype Price = Zero | Parsed(text: string)

  /** All four fields of a product at one moment. A Java `null` string is `None`. */
  datatype Snapshot = Snapshot(title: Option<string>, size: Kilobytes, unitPrice: Price, description: Option<string>)

  /** One element of the report's "results" array. */
  datatype JsonEntry = JsonEntry(title: Option<string>, size: string, unitPrice: Price, description: Option<string>)

  class Product {
    var title: Option<string>
    var size: Kilobytes
    var unitPrice: Price
    var description: Option<string>

    /** The implicit no-argument constructor: Java's field defaults. */
    constructor ()
      ensures State() == Snapshot(None, 0, Zero, None)
    {
      title, size, unitPrice, description := None, 0, Zero, None;
    }

    function State(): Snapshot
      reads this
    {
      Snapshot(title, size, unitPrice, description)
    }

    method SetTitle(t: string)
      modifies this
      ensures State() == old(State()).(title := Some(t))
      ensures GetTitle() == Some(t)
    {
      title := Some(t);
    }

    method SetUnitPrice(p: Price)
      modifies this
      ensures State() == old(State()).(unitPrice := p)
      ensures GetUnitPriceDouble() == p
    {
      unitPrice := p;
    }

    method SetSize(kb: Kilobytes)
      modifies this
      ensures State() == old(State()).(size := kb)
    {
      size := kb;
    }

    method SetDescription(d: string)
      modifies this
      ensures State() == old(State()).(description := Some(d))
      ensures GetDescription() == Some(d)
    {
      description := Some(d);
    }

    function GetTitle(): Option<string>
      reads this
    {
      title
    }

    function GetDescription(): Option<string>
      reads this
    {
      description
    }

    function GetUnitPriceDouble(): Price
      reads this
    {
      unitPrice
    }

    /** `this.size + "kb"`: the double rendered by Double.toString, a whole
        number in plain notation, then the unit. */
    function GetSize(): (s: string)
      reads this
      ensures |s| >= 5 && s[|s| - 4..] == ".0kb"
      ensures var digits := s[..|s| - 4];
              (forall k :: 0 <= k < |digits| ==> IsDigit(digits[k]))
              && DecimalValue(digits) == size
              && (digits[0] == '0' ==> |digits| == 1)
    {
      var rendered := WholeDoubleToString(size);
      var s := rendered + "kb";
      assert s[..|s| - 4] == rendered[..|rendered| - 2];
      s
    }

    /** The JSON object `createJsonOutput` builds for this product, with the
        unit price left unformatted. */
    function ToJson(): (e: JsonEntry)
      reads this
      ensures e.title == State().title && e.description == State().description
      ensures e.unitPrice == State().unitPrice && e.size == GetSize()
    {
      JsonEntry(GetTitle(), GetSize(), GetUnitPriceDouble(), GetDescription())
    }
  }

  /** The `ArrayList<Product>` that the two passes share and append to in place. */
  class ProductList {
    var items: seq<Product>

    constructor ()
      ensures items == []
    {
      items := [];
    }

    /** `list.add(p)`. */
    method Add(p: Product)
      modifies this
      ensures items == old(items) + [p]
    {
      items := items + [p];
    }
  }

  /** The unit prices of `ps`, in list order. */
  function Prices(ps: seq<Product>): (r: seq<Price>)
    reads set p | p in ps
    ensures |r| == |ps|
    ensures forall i :: 0 <= i < |ps| ==> r[i] == ps[i].unitPrice
  {
    seq(|ps|, i reads set p | p in ps requires 0 <= i < |ps| => ps[i].unitPrice)
  }

  /** No product object appears twice in `ps`. */
  predicate Distinct(ps: seq<Product>) {
    forall i, j :: 0 <= i < j < |ps| ==> ps[i] != ps[j]
  }
}
