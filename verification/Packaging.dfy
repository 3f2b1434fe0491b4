/**
 * Box expansion (`gerar_pacotes`): every product's integer quantity is split
 * into boxes of the product's capacity, the full boxes first and the
 * remainder last, each record labelled `i/N`. The capacity comes from the
 * capacity table, 10 when the code is not in it; a capacity of 0 makes
 * Python's `//` raise `ZeroDivisionError`, which ends the run.
 */
module Packaging {
  import opened Results
  import opened Text

  /** Boxes per product when the capacity table has no entry for its code. */
  const DefaultCapacity: int := 10

  /** A product row after extraction: code, trimmed description, `int(float(qtd))`. */
  datatype Product = Product(code: string, description: string, quantity: nat)

  /** One output record, one per box. */
  datatype BoxRecord = BoxRecord(client: string, order: string, code: string, description: string,
                                 box: string, inBox: int, total: nat, capacity: int)

  /** Python's `a // b`: the quotient rounded towards minus infinity. */
  function FloorDiv(a: int, b: int): (q: int)
    requires b != 0
    ensures b > 0 ==> b * q <= a < b * q + b
    ensures b < 0 ==> b * q + b < a <= b * q
  {
    if b > 0 then a / b else (-a) / (-b)
  }

  /** Python's `a % b`: the remainder takes the sign of `b`. */
  function FloorMod(a: int, b: int): (r: int)
    requires b != 0
    ensures a == b * FloorDiv(a, b) + r
    ensures b > 0 ==> 0 <= r < b
    ensures b < 0 ==> b < r <= 0
  {
    a - b * FloorDiv(a, b)
  }

  /** `capacidade_dict.get(codigo, DEFAULT_BOX_CAPACITY)`. */
  function Capacity(table: map<string, int>, code: string): int {
    if code in table then table[code] else DefaultCapacity
  }

  /** The box label `f"{i}/{n}"`. */
  function Label(i: nat, n: nat): string {
    Decimal(i) + "/" + Decimal(n)
  }

  /** Reads a label back: two digit runs around a slash. */
  function ParseLabel(s: string): Option<(nat, nat)> {
    var a := RunEnd(s, 0, Digit);
    if 0 < a && a + 1 < |s| && s[a] == '/' && All(Digit, s[a + 1..]) then
      Some((Value(s[..a]), Value(s[a + 1..])))
    else None
  }

  /** `caixas_cheias + (1 if resto > 0 else 0)`: how many boxes the loop numbers. */
  function BoxCount(qty: nat, cap: int): int
    requires cap != 0
  {
    FloorDiv(qty, cap) + (if FloorMod(qty, cap) > 0 then 1 else 0)
  }

  /** The records `for i in range(1, total_caixas + 1)` appends for one product. */
  function ProductBoxes(p: Product, cap: int, client: string, order: string): (bs: seq<BoxRecord>)
    requires cap != 0
  {
    var full := FloorDiv(p.quantity, cap);
    var rest := FloorMod(p.quantity, cap);
    var n := BoxCount(p.quantity, cap);
    if n <= 0 then []
    else
      seq(n, i requires 0 <= i < n =>
        BoxRecord(client, order, p.code, p.description, Label(i + 1, n),
                  if i + 1 <= full then cap else rest, p.quantity, cap))
  }

  /**
   * The outcome of the whole expansion: the records of every product in
   * input order, or the code of the first product whose capacity is 0.
   */
  function Packages(products: seq<Product>, table: map<string, int>, client: string, order: string)
    : Result<seq<BoxRecord>, string>
    decreases |products|
  {
    if products == [] then Success([])
    else
      var p := products[|products| - 1];
      match Packages(products[..|products| - 1], table, client, order)
      case Failure(e) => Failure(e)
      case Success(rs) =>
        var cap := Capacity(table, p.code);
        if cap == 0 then Failure(p.code) else Success(rs + ProductBoxes(p, cap, client, order))
  }

  /** Sum of the box quantities. */
  function SumInBox(bs: seq<BoxRecord>): int
    decreases |bs|
  {
    if bs == [] then 0 else SumInBox(bs[..|bs| - 1]) + bs[|bs| - 1].inBox
  }

  /** Sum of the product quantities. */
  function SumQuantity(ps: seq<Product>): nat
    decreases |ps|
  {
    if ps == [] then 0 else SumQuantity(ps[..|ps| - 1]) + ps[|ps| - 1].quantity
  }

  /**
   * The gerar_pacotes loops: for every product, look up the capacity and
   * append one record per box.
   */
  method GeneratePackages(products: seq<Product>, table: map<string, int>, client: string, order: string)
    returns (r: Result<seq<BoxRecord>, string>)
    ensures r == Packages(products, table, client, order)
  {
    var packages: seq<BoxRecord> := [];
    var k := 0;
    while k < |products|
      invariant k <= |products|
      invariant Packages(products[..k], table, client, order) == Success(packages)
    {
      var p := products[k];
      var cap := Capacity(table, p.code);
      PackagesNext(products, table, client, order, k, packages);
      if cap == 0 {
        PackagesFailureStays(products, table, client, order, k + 1);
        return Failure(p.code);
      }
      packages := AppendBoxes(packages, p, cap, client, order);
      k := k + 1;
    }
    assert products[..k] == products;
    return Success(packages);
  }

  /** The inner loop of gerar_pacotes: append the records of one product's boxes. */
  method AppendBoxes(packages: seq<BoxRecord>, p: Product, cap: int, client: string, order: string)
    returns (r: seq<BoxRecord>)
    requires cap != 0
    ensures r == packages + ProductBoxes(p, cap, client, order)
  {
    r := packages;
    var full := FloorDiv(p.quantity, cap);
    var rest := FloorMod(p.quantity, cap);
    var total := full + (if rest > 0 then 1 else 0);
    ghost var boxes := ProductBoxes(p, cap, client, order);
    var i := 1;
    while i <= total
      invariant 1 <= i <= (if total > 0 then total + 1 else 1)
      invariant r == packages + boxes[..i - 1]
    {
      var inBox := if i <= full then cap else rest;
      ProductBoxAt(p, cap, client, order, i);
      r := r + [BoxRecord(client, order, p.code, p.description, Label(i, total), inBox, p.quantity, cap)];
      assert boxes[..i] == boxes[..i - 1] + [boxes[i - 1]];
      i := i + 1;
    }
    assert boxes[..i - 1] == boxes;
  }

  /** One more product: its boxes are appended, or a capacity of 0 fails. */
  lemma PackagesNext(products: seq<Product>, table: map<string, int>, client: string, order: string,
                     k: nat, rs: seq<BoxRecord>)
    requires k < |products| && Packages(products[..k], table, client, order) == Success(rs)
    ensures var cap := Capacity(table, products[k].code);
      Packages(products[..k + 1], table, client, order) ==
      if cap == 0 then Failure(products[k].code) else Success(rs + ProductBoxes(products[k], cap, client, order))
  {
    assert products[..k + 1][..k] == products[..k];
  }

  /** Box `i` of a product, as the inner loop builds it. */
  lemma ProductBoxAt(p: Product, cap: int, client: string, order: string, i: nat)
    requires cap != 0 && 1 <= i <= BoxCount(p.quantity, cap)
    ensures |ProductBoxes(p, cap, client, order)| == BoxCount(p.quantity, cap)
    ensures ProductBoxes(p, cap, client, order)[i - 1] ==
            BoxRecord(client, order, p.code, p.description, Label(i, BoxCount(p.quantity, cap)),
                      if i <= FloorDiv(p.quantity, cap) then cap else FloorMod(p.quantity, cap), p.quantity, cap)
  {
  }

  // ---------------------------------------------------------------- one product

  /** The number of boxes is the ceiling of quantity over capacity. */
  lemma BoxCountIsCeiling(qty: nat, cap: int)
    requires cap > 0
    ensures BoxCount(qty, cap) >= 0
    ensures cap * (BoxCount(qty, cap) - 1) < qty <= cap * BoxCount(qty, cap)
  {
  }

  /**
   * Boxes `1..qtd // cap` hold the capacity and a last one holds a non-zero
   * remainder; every box holds between 1 and the capacity; totals and
   * capacity repeat in every record.
   */
  lemma ProductBoxesShape(p: Product, cap: int, client: string, order: string)
    requires cap > 0
    ensures var bs := ProductBoxes(p, cap, client, order);
      |bs| == BoxCount(p.quantity, cap) &&
      forall k :: 0 <= k < |bs| ==>
        0 < bs[k].inBox <= cap && (k < |bs| - 1 ==> bs[k].inBox == cap) &&
        bs[k].code == p.code && bs[k].description == p.description &&
        bs[k].total == p.quantity && bs[k].capacity == cap &&
        bs[k].client == client && bs[k].order == order
  {
  }

  /** A quantity of 0 gives no box, and so does a negative capacity. */
  lemma NoBoxes(p: Product, cap: int, client: string, order: string)
    requires cap != 0
    ensures ProductBoxes(p, cap, client, order) == [] <==> p.quantity == 0 || cap < 0
  {
    if cap > 0 && p.quantity > 0 {
      assert BoxCount(p.quantity, cap) > 0;
    }
  }

  lemma {:induction false} SumOfFull(bs: seq<BoxRecord>, k: nat, cap: int)
    requires k <= |bs| && forall j :: 0 <= j < k ==> bs[j].inBox == cap
    ensures SumInBox(bs[..k]) == k * cap
  {
    if k > 0 {
      assert bs[..k][..k - 1] == bs[..k - 1];
      SumOfFull(bs, k - 1, cap);
    }
  }

  /** The boxes of a product hold its whole quantity. */
  lemma ProductBoxesSum(p: Product, cap: int, client: string, order: string)
    requires cap > 0
    ensures SumInBox(ProductBoxes(p, cap, client, order)) == p.quantity
  {
    var bs := ProductBoxes(p, cap, client, order);
    var full := FloorDiv(p.quantity, cap);
    SumOfFull(bs, full, cap);
    if FloorMod(p.quantity, cap) > 0 {
      assert bs[..full + 1] == bs;
      assert bs[..full + 1][..full] == bs[..full];
    } else {
      assert bs[..full] == bs;
    }
  }

  /** Every label reads back as its box number and the box count. */
  lemma LabelRoundTrip(i: nat, n: nat)
    ensures ParseLabel(Label(i, n)) == Some((i, n))
  {
    var s := Label(i, n);
    var a := |Decimal(i)|;
    assert s[..a] == Decimal(i) && s[a + 1..] == Decimal(n);
    assert Within(Digit, s, 0, a);
    RunEndIs(s, 0, a, Digit);
  }

  /** The labels of a product count `1/N`, `2/N`, … `N/N`. */
  lemma ProductBoxesLabels(p: Product, cap: int, client: string, order: string, k: nat)
    requires cap != 0 && k < |ProductBoxes(p, cap, client, order)|
    ensures var bs := ProductBoxes(p, cap, client, order);
      ParseLabel(bs[k].box) == Some((k + 1, |bs|))
  {
    LabelRoundTrip(k + 1, BoxCount(p.quantity, cap));
  }

  // ---------------------------------------------------------------- all products

  lemma {:induction false} PackagesFailureStays(products: seq<Product>, table: map<string, int>,
                                                client: string, order: string, k: nat)
    requires k <= |products| && Packages(products[..k], table, client, order).Failure?
    ensures Packages(products, table, client, order) == Packages(products[..k], table, client, order)
    decreases |products| - k
  {
    if k < |products| {
      assert products[..k + 1][..k] == products[..k];
      PackagesFailureStays(products, table, client, order, k + 1);
    } else {
      assert products[..k] == products;
    }
  }

  /** The expansion fails exactly when some product's capacity is 0. */
  lemma {:induction false} PackagesSucceedIff(products: seq<Product>, table: map<string, int>,
                                              client: string, order: string)
    ensures Packages(products, table, client, order).Success? <==>
            forall k :: 0 <= k < |products| ==> Capacity(table, products[k].code) != 0
    decreases |products|
  {
    if products != [] {
      var init := products[..|products| - 1];
      PackagesSucceedIff(init, table, client, order);
      assert forall k :: 0 <= k < |init| ==> init[k] == products[k];
    }
  }

  /** A failure names the first product whose capacity is 0. */
  lemma PackagesFailure(products: seq<Product>, table: map<string, int>, client: string, order: string, k: nat)
    requires k < |products| && Capacity(table, products[k].code) == 0
    requires forall j :: 0 <= j < k ==> Capacity(table, products[j].code) != 0
    ensures Packages(products, table, client, order) == Failure(products[k].code)
  {
    var init := products[..k];
    PackagesSucceedIff(init, table, client, order);
    assert products[..k + 1][..k] == init;
    PackagesFailureStays(products, table, client, order, k + 1);
  }

  /** Expanding two runs of products is expanding each, in order. */
  lemma {:induction false} PackagesAppend(ps: seq<Product>, qs: seq<Product>, table: map<string, int>,
                                          client: string, order: string)
    ensures Packages(ps + qs, table, client, order) ==
            match Packages(ps, table, client, order)
            case Failure(e) => Failure(e)
            case Success(a) =>
              match Packages(qs, table, client, order)
              case Failure(e) => Failure(e)
              case Success(b) => Success(a + b)
    decreases |qs|
  {
    if qs == [] {
      assert ps + qs == ps;
      match Packages(ps, table, client, order)
      case Failure(e) =>
      case Success(a) => assert a + [] == a;
    } else {
      var init := qs[..|qs| - 1];
      var p := qs[|qs| - 1];
      assert (ps + qs)[..|ps + qs| - 1] == ps + init;
      assert (ps + qs)[|ps + qs| - 1] == p;
      PackagesAppend(ps, init, table, client, order);
      var cap := Capacity(table, p.code);
      match Packages(ps, table, client, order)
      case Failure(e) =>
      case Success(a) =>
        match Packages(init, table, client, order)
        case Failure(e) =>
        case Success(b) =>
          if cap != 0 {
            assert a + b + ProductBoxes(p, cap, client, order) == a + (b + ProductBoxes(p, cap, client, order));
          }
    }
  }

  lemma {:induction false} SumAppend(a: seq<BoxRecord>, b: seq<BoxRecord>)
    ensures SumInBox(a + b) == SumInBox(a) + SumInBox(b)
    decreases |b|
  {
    if b != [] {
      var init := b[..|b| - 1];
      assert (a + b)[..|a + b| - 1] == a + init;
      assert (a + b)[|a + b| - 1] == b[|b| - 1];
      SumAppend(a, init);
      assert SumInBox(a + b) == SumInBox(a + init) + b[|b| - 1].inBox;
      assert SumInBox(b) == SumInBox(init) + b[|b| - 1].inBox;
    } else {
      assert a + b == a;
    }
  }

  /** With positive capacities the records hold, together, every product's quantity. */
  lemma {:induction false} PackagesSum(products: seq<Product>, table: map<string, int>, client: string, order: string)
    requires forall k :: 0 <= k < |products| ==> Capacity(table, products[k].code) > 0
    ensures Packages(products, table, client, order).Success?
    ensures SumInBox(Packages(products, table, client, order).value) == SumQuantity(products)
    decreases |products|
  {
    if products != [] {
      var init := products[..|products| - 1];
      var p := products[|products| - 1];
      assert forall k :: 0 <= k < |init| ==> init[k] == products[k];
      PackagesSum(init, table, client, order);
      var cap := Capacity(table, p.code);
      SumAppend(Packages(init, table, client, order).value, ProductBoxes(p, cap, client, order));
      ProductBoxesSum(p, cap, client, order);
    }
  }

  /** Every record carries the client and order it was generated for. */
  lemma {:induction false} PackagesCarryHeader(products: seq<Product>, table: map<string, int>,
                                               client: string, order: string)
    requires Packages(products, table, client, order).Success?
    ensures forall r :: r in Packages(products, table, client, order).value ==> r.client == client && r.order == order
    decreases |products|
  {
    if products != [] {
      PackagesCarryHeader(products[..|products| - 1], table, client, order);
    }
  }
}
