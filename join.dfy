/** The tier join onto the sales (`merge(..., how='left')`), the `MES` column,
    and the per-(month, product, tier) quantity sums. */
module Join {
  import opened Wrappers
  import opened Seqs
  import opened Aggregate
  import opened Sales
  import opened Ranking

  /** A sale with the `Categoria_Venta` the left join found for it (missing
      when its product has no row in the tier table). */
  datatype Joined = Joined(sale: Sale, categoria: Option<Tier>)

  /** The tiers of the table rows for product `p`, in table order. */
  function Matches(p: string, t: seq<ProductTier>): (r: seq<Tier>)
    ensures r == [] <==> forall k :: 0 <= k < |t| ==> t[k].articulo != p
    ensures forall i :: 0 <= i < |r| ==> exists k :: 0 <= k < |t| && t[k].articulo == p && t[k].categoria == r[i]
  {
    if t == [] then []
    else (if t[0].articulo == p then [t[0].categoria] else []) + Matches(p, t[1..])
  }

  /** Every table row for `p` gives its tier, and there is one tier per such
      row: as many as the rows a filter on the product keeps. */
  lemma {:induction false} MatchesAll(p: string, t: seq<ProductTier>)
    ensures forall k :: 0 <= k < |t| && t[k].articulo == p ==> t[k].categoria in Matches(p, t)
    ensures |Matches(p, t)| == |Filter(t, (row: ProductTier) => row.articulo == p)|
  {
    if t != [] {
      var u := t[1..];
      MatchesAll(p, u);
      assert forall k :: 1 <= k < |t| ==> t[k] == u[k - 1];
    }
  }

  /** The rows a left join makes from one sale: one per matching table row, or
      the sale alone with no tier. */
  function JoinRow(x: Sale, t: seq<ProductTier>): (r: seq<Joined>)
    ensures |r| == if Matches(x.articulo, t) == [] then 1 else |Matches(x.articulo, t)|
    ensures forall i :: 0 <= i < |r| ==> r[i].sale == x
    ensures forall i :: 0 <= i < |r| ==>
              (r[i].categoria == None <==> forall k :: 0 <= k < |t| ==> t[k].articulo != x.articulo)
    ensures forall i :: 0 <= i < |r| && r[i].categoria.Some? ==>
              exists k :: 0 <= k < |t| && t[k].articulo == x.articulo && t[k].categoria == r[i].categoria.value
  {
    var ms := Matches(x.articulo, t);
    if ms == [] then [Joined(x, None)]
    else seq(|ms|, i requires 0 <= i < |ms| => Joined(x, Some(ms[i])))
  }

  /** `df_filtrado.merge(tiers, on=articulo, how='left')`: the sales in order,
      each repeated once per matching tier row. */
  function Merge(rows: seq<Sale>, t: seq<ProductTier>): (j: seq<Joined>)
    ensures |j| >= |rows|
  {
    if rows == [] then [] else JoinRow(rows[0], t) + Merge(rows[1..], t)
  }

  /** The join keeps every sale: each sale has a row. */
  lemma {:induction false} MergeKeepsSales(rows: seq<Sale>, t: seq<ProductTier>)
    ensures forall i :: 0 <= i < |rows| ==> exists k :: 0 <= k < |Merge(rows, t)| && Merge(rows, t)[k].sale == rows[i]
  {
    if rows != [] {
      var head: seq<Joined>, rest: seq<Joined> := JoinRow(rows[0], t), Merge(rows[1..], t);
      MergeKeepsSales(rows[1..], t);
      assert Merge(rows, t) == head + rest;
      forall i | 0 <= i < |rows| ensures exists k :: 0 <= k < |Merge(rows, t)| && Merge(rows, t)[k].sale == rows[i] {
        if i == 0 {
          assert Merge(rows, t)[0] == head[0];
        } else {
          assert rows[i] == rows[1..][i - 1];
          var k :| 0 <= k < |rest| && rest[k].sale == rows[1..][i - 1];
          assert Merge(rows, t)[|head| + k] == rest[k];
        }
      }
    }
  }

  /** The join invents no sale: each row carries a sale of the input. */
  lemma {:induction false} MergeInventsNone(rows: seq<Sale>, t: seq<ProductTier>)
    ensures forall k :: 0 <= k < |Merge(rows, t)| ==> Merge(rows, t)[k].sale in rows
  {
    if rows != [] {
      var head: seq<Joined>, rest: seq<Joined> := JoinRow(rows[0], t), Merge(rows[1..], t);
      var m := Merge(rows, t);
      MergeInventsNone(rows[1..], t);
      assert m == head + rest;
      forall k | 0 <= k < |m| ensures m[k].sale in rows {
        if k < |head| {
          assert m[k] == head[k];
        } else {
          assert m[k] == rest[k - |head|];
          assert rest[k - |head|].sale in rows[1..];
        }
      }
    }
  }

  /** No product has two rows in the tier table. */
  predicate UniqueArticulos(t: seq<ProductTier>) {
    forall i, j :: 0 <= i < j < |t| ==> t[i].articulo != t[j].articulo
  }

  /** With unique products, a product matches its one row or none. */
  lemma {:induction false} MatchesUnique(p: string, t: seq<ProductTier>)
    requires UniqueArticulos(t)
    ensures forall k :: 0 <= k < |t| && t[k].articulo == p ==> Matches(p, t) == [t[k].categoria]
    ensures (forall k :: 0 <= k < |t| ==> t[k].articulo != p) ==> Matches(p, t) == []
  {
    if t != [] {
      var u := t[1..];
      assert forall k :: 1 <= k < |t| ==> t[k] == u[k - 1];
      assert UniqueArticulos(u);
      MatchesUnique(p, u);
      if t[0].articulo == p {
        assert forall k :: 0 <= k < |u| ==> u[k].articulo != p;
      }
    }
  }

  /** With unique products the join neither adds nor drops rows: row `i` is
      sale `i` with its product's tier, or with none when the product has no
      row in the table. */
  lemma {:induction false} MergeOneToOne(rows: seq<Sale>, t: seq<ProductTier>)
    requires UniqueArticulos(t)
    ensures |Merge(rows, t)| == |rows|
    ensures forall i :: 0 <= i < |rows| ==> Merge(rows, t)[i].sale == rows[i]
    ensures forall i, k :: 0 <= i < |rows| && 0 <= k < |t| && t[k].articulo == rows[i].articulo ==>
              Merge(rows, t)[i].categoria == Some(t[k].categoria)
    ensures forall i :: 0 <= i < |rows| && (forall k :: 0 <= k < |t| ==> t[k].articulo != rows[i].articulo) ==>
              Merge(rows, t)[i].categoria == None
  {
    if rows != [] {
      MatchesUnique(rows[0].articulo, t);
      MergeOneToOne(rows[1..], t);
      var head, rest := JoinRow(rows[0], t), Merge(rows[1..], t);
      assert |head| == 1;
      assert Merge(rows, t) == head + rest;
      assert forall i :: 1 <= i < |rows| ==> rows[i] == rows[1..][i - 1];
    }
  }

  /** A sale after the join and the `MES` column. */
  datatype Tagged = Tagged(sale: Sale, categoria: Option<Tier>, mes: YearMonth)

  /** `df_filtrado['MES'] = ...to_period('M')`: every row gains its month and
      keeps everything else. */
  method AddMonthColumn(j: seq<Joined>) returns (t: seq<Tagged>)
    ensures |t| == |j|
    ensures forall i :: 0 <= i < |t| ==> t[i] == Tagged(j[i].sale, j[i].categoria, SaleMonth(j[i].sale))
  {
    t := [];
    for i := 0 to |j|
      invariant |t| == i
      invariant forall k :: 0 <= k < i ==> t[k] == Tagged(j[k].sale, j[k].categoria, SaleMonth(j[k].sale))
    {
      t := t + [Tagged(j[i].sale, j[i].categoria, SaleMonth(j[i].sale))];
    }
  }

  /** The grouping key of `ventas_detalladas`. */
  datatype DetailKey = DetailKey(mes: YearMonth, articulo: string, categoria: Option<Tier>)

  function DetailKeyOf(x: Tagged): DetailKey { DetailKey(x.mes, x.sale.articulo, x.categoria) }
  function TaggedCantidad(x: Tagged): int { x.sale.cantidad }

  /** `ventas_detalladas`: one group per distinct (month, product, tier)
      present, holding its quantity; the groups add up to the quantity of all
      rows. */
  function DetailSums(t: seq<Tagged>): (g: seq<Group<DetailKey>>)
    ensures UniqueKeys(g)
    ensures forall i :: 0 <= i < |t| ==> DetailKeyOf(t[i]) in GroupKeys(g)
    ensures forall i :: 0 <= i < |g| ==> g[i].key in Keys(t, DetailKeyOf)
    ensures forall i :: 0 <= i < |g| ==> g[i].sum == SumBy(t, DetailKeyOf, TaggedCantidad, g[i].key)
    ensures SumGroups(g) == Total(t, TaggedCantidad)
  {
    GroupSums(t, DetailKeyOf, TaggedCantidad)
  }
}
