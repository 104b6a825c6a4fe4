/** The dense month-by-product amount grid: `pivot_table(..., aggfunc='sum',
    fill_value=0).stack()`. */
module Grid {
  import opened Seqs
  import opened Aggregate
  import opened Sales

  /** One cell of the grid: a month and a product. */
  datatype MonthProduct = MonthProduct(month: YearMonth, articulo: string)

  function CellKey(x: Sale): MonthProduct { MonthProduct(SaleMonth(x), x.articulo) }
  function CellArticulo(k: MonthProduct): string { k.articulo }

  /** The months that have sales (the pivot's index). */
  function Months(s: seq<Sale>): seq<YearMonth> { Distinct(Keys(s, SaleMonth)) }

  /** The products that have sales (the pivot's columns). */
  function Products(s: seq<Sale>): seq<string> { Distinct(Keys(s, Articulo)) }

  /** The cells of one month, one per product. */
  function MonthRow(m: YearMonth, ps: seq<string>): (r: seq<MonthProduct>)
    ensures |r| == |ps|
    ensures forall i :: 0 <= i < |r| ==> r[i] == MonthProduct(m, ps[i])
  {
    seq(|ps|, i requires 0 <= i < |ps| => MonthProduct(m, ps[i]))
  }

  /** Every (month, product) pair, month by month: the stacked pivot. */
  function Cells(ms: seq<YearMonth>, ps: seq<string>): (r: seq<MonthProduct>)
    ensures |r| == |ms| * |ps|
    ensures forall m, p :: MonthProduct(m, p) in r <==> m in ms && p in ps
  {
    if ms == [] then []
    else
      var row, rest := MonthRow(ms[0], ps), Cells(ms[1..], ps);
      assert |row + rest| == |ps| + (|ms| - 1) * |ps| == |ms| * |ps| by {
        assert (|ms| - 1) * |ps| == |ms| * |ps| - |ps|;
      }
      assert forall m :: m in ms <==> m == ms[0] || m in ms[1..] by {
        assert ms == [ms[0]] + ms[1..];
      }
      assert forall p :: p in ps ==> MonthProduct(ms[0], p) in row by {
        forall p | p in ps ensures MonthProduct(ms[0], p) in row {
          var i :| 0 <= i < |ps| && ps[i] == p;
          assert row[i] == MonthProduct(ms[0], p);
        }
      }
      row + rest
  }

  /** With no repeated month and no repeated product, no cell is repeated. */
  lemma {:induction false} CellsNoDup(ms: seq<YearMonth>, ps: seq<string>)
    requires NoDup(ms) && NoDup(ps)
    ensures NoDup(Cells(ms, ps))
  {
    if ms != [] {
      var row, rest := MonthRow(ms[0], ps), Cells(ms[1..], ps);
      assert ms == [ms[0]] + ms[1..];
      NoDupCons(ms[0], ms[1..]);
      CellsNoDup(ms[1..], ps);
      forall i, j | 0 <= i < j < |row| ensures row[i] != row[j] {
        assert ps[i] != ps[j];
      }
      forall c | c in row ensures c !in rest {
        var i :| 0 <= i < |row| && row[i] == c;
        assert c.month == ms[0];
      }
      NoDupConcat(row, rest);
    }
  }

  /** `ventas_todos_productos_mensuales`: exactly one cell for every month with
      sales and every product with sales (so `months * products` cells), each
      holding the amount of that product sold that month. */
  function ProductGrid(s: seq<Sale>): (g: seq<Group<MonthProduct>>)
    ensures |g| == |Months(s)| * |Products(s)|
    ensures UniqueKeys(g)
    ensures forall m, p :: MonthProduct(m, p) in GroupKeys(g) <==>
                           m in Keys(s, SaleMonth) && p in Keys(s, Articulo)
    ensures forall i :: 0 <= i < |g| ==> g[i].sum == SumBy(s, CellKey, Importe, g[i].key)
  {
    var ms, ps := Months(s), Products(s);
    CellsNoDup(ms, ps);
    assert forall m :: m in ms <==> m in Keys(s, SaleMonth);
    assert forall p :: p in ps <==> p in Keys(s, Articulo);
    Sums(s, CellKey, Importe, Cells(ms, ps))
  }

  /** A cell for a pair with no sale holds 0 (`fill_value=0`). */
  lemma GridAbsentIsZero(s: seq<Sale>, i: nat)
    requires i < |ProductGrid(s)|
    requires forall j :: 0 <= j < |s| ==> CellKey(s[j]) != ProductGrid(s)[i].key
    ensures ProductGrid(s)[i].sum == 0
  {
    SumByAbsent(s, CellKey, Importe, ProductGrid(s)[i].key);
  }

  /** Each product's cells, over all months, add up to that product's amount. */
  lemma GridProductTotal(s: seq<Sale>, p: string)
    ensures SumGroupsWhere(ProductGrid(s), CellArticulo, p) == SumBy(s, Articulo, Importe, p)
  {
    var ms, ps := Months(s), Products(s);
    CellsNoDup(ms, ps);
    forall i | 0 <= i < |s| && Articulo(s[i]) == p
      ensures CellKey(s[i]) in Cells(ms, ps)
    {
      assert Keys(s, SaleMonth)[i] == SaleMonth(s[i]);
      assert Keys(s, Articulo)[i] == Articulo(s[i]);
    }
    RefinedConservation(s, CellKey, CellArticulo, Articulo, Importe, Cells(ms, ps), p);
  }
}
