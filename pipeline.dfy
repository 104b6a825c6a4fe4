/** The whole report, from the parsed rows of the export to the tables the
    charts are drawn from, with the early stop when the window holds no sale. */
module Pipeline {
  import opened Wrappers
  import opened Seqs
  import opened Aggregate
  import opened Sales
  import opened Cleaning
  import opened Monthly
  import opened Grid
  import opened Ranking
  import opened Join

  /** The tables the report is made of. */
  datatype Report = Report(
    filtered: seq<Sale>,               // df_filtrado before the join
    monthly: seq<Group<YearMonth>>,    // ventas_mensuales
    total: int,                        // total_anual
    labels: seq<string>,               // etiquetas_personalizadas
    grid: seq<Group<MonthProduct>>,    // ventas_todos_productos_mensuales
    tiers: seq<ProductTier>,           // ventas_totales_por_producto with Categoria_Venta
    rows: seq<Tagged>,                 // df_filtrado after the join and MES
    details: seq<Group<DetailKey>>)    // ventas_detalladas

  /** Either the stop for an empty window, or the report. */
  datatype Outcome = NoSalesInRange | Done(report: Report)

  /** The monthly part of the report: the totals per month, the grand total
      they add up to, and one distinct label per month. */
  predicate MonthlyPart(f: seq<Sale>, monthly: seq<Group<YearMonth>>, total: int, labels: seq<string>) {
    && monthly == MonthlyTotals(f)
    && total == Total(f, Importe)
    && SumGroups(monthly) == total
    && |labels| == |monthly|
    && (forall i :: 0 <= i < |labels| ==> labels[i] == MonthLabel(monthly[i].key))
    && NoDup(labels)
  }

  /** The product part of the report: the grid, the tier table (ranked
      products with the tier of their rank), the sales with their tier and
      month, and the detail sums over those. */
  predicate ProductPart(f: seq<Sale>, grid: seq<Group<MonthProduct>>, tiers: seq<ProductTier>,
                        rows: seq<Tagged>, details: seq<Group<DetailKey>>) {
    var ranking := RankProducts(f);
    && grid == ProductGrid(f)
    && |tiers| == |ranking|
    && (forall i :: 0 <= i < |tiers| ==>
          tiers[i] == ProductTier(ranking[i].key, ranking[i].sum, TierForRank(i)))
    && |rows| == |f|
    && (forall i :: 0 <= i < |f| ==>
          && rows[i].sale == f[i]
          && rows[i].mes == SaleMonth(f[i])
          && rows[i].categoria == Some(Categoria(ranking, f[i].articulo)))
    && details == DetailSums(rows)
    && SumGroups(details) == Total(f, Cantidad)
  }

  /** What a report computed from `raw` holds. */
  predicate Describes(raw: seq<RawRow>, r: Report) {
    && r.filtered == WindowFilter(Cleaned(raw))
    && r.filtered != []
    && MonthlyPart(r.filtered, r.monthly, r.total, r.labels)
    && ProductPart(r.filtered, r.grid, r.tiers, r.rows, r.details)
  }

  /** Sections 3 and 4 of lista.py, up to the empty check: copy the rows into
      a table, drop the incomplete ones in place, and keep the window. */
  method CleanAndFilter(raw: seq<RawRow>) returns (filtered: seq<Sale>)
    ensures filtered == WindowFilter(Cleaned(raw))
  {
    var a := new RawRow[|raw|](i requires 0 <= i < |raw| => raw[i]);
    assert a[..] == raw;
    var n := DropIncomplete(a);
    var cleaned := AsSales(a[..n]);
    assert cleaned == Cleaned(raw);
    filtered := WindowFilter(cleaned);
  }

  /** Sections 5 and 6 of lista.py: the monthly totals, the grand total and the labels. */
  method MonthlyReport(f: seq<Sale>) returns (monthly: seq<Group<YearMonth>>, total: int, labels: seq<string>)
    requires forall i :: 0 <= i < |f| ==> InWindow(f[i].fecha)
    ensures MonthlyPart(f, monthly, total, labels)
  {
    monthly := MonthlyTotals(f);
    total := Total(f, Importe);
    labels := MonthLabels(monthly);
    MonthlyLabelsDistinct(f);
  }

  /** The tier table has one row per product, as the ranking has. */
  lemma TierTableUnique(ranking: seq<Group<string>>, tiers: seq<ProductTier>)
    requires UniqueKeys(ranking) && |tiers| == |ranking|
    requires forall i :: 0 <= i < |tiers| ==> tiers[i].articulo == ranking[i].key
    ensures UniqueArticulos(tiers)
  {
    forall i, j | 0 <= i < j < |tiers| ensures tiers[i].articulo != tiers[j].articulo {
      assert GroupKeys(ranking)[i] == tiers[i].articulo;
      assert GroupKeys(ranking)[j] == tiers[j].articulo;
    }
  }

  /** Joining the tier table onto the sales gives every sale its product's tier. */
  lemma JoinGivesTiers(f: seq<Sale>, ranking: seq<Group<string>>, tiers: seq<ProductTier>)
    requires UniqueKeys(ranking) && |tiers| == |ranking|
    requires forall i :: 0 <= i < |f| ==> f[i].articulo in GroupKeys(ranking)
    requires forall i :: 0 <= i < |tiers| ==>
               tiers[i].articulo == ranking[i].key && tiers[i].categoria == Categoria(ranking, ranking[i].key)
    ensures |Merge(f, tiers)| == |f|
    ensures forall i :: 0 <= i < |f| ==>
              Merge(f, tiers)[i].sale == f[i] && Merge(f, tiers)[i].categoria == Some(Categoria(ranking, f[i].articulo))
  {
    TierTableUnique(ranking, tiers);
    MergeOneToOne(f, tiers);
    forall i | 0 <= i < |f|
      ensures Merge(f, tiers)[i].categoria == Some(Categoria(ranking, f[i].articulo))
    {
      var k :| 0 <= k < |ranking| && GroupKeys(ranking)[k] == f[i].articulo;
      assert tiers[k].articulo == f[i].articulo;
    }
  }

  /** Sections 8 to 11 of lista.py: the grid, the ranking and its tiers, the
      join, the `MES` column and the detail sums. */
  method ProductReport(f: seq<Sale>)
    returns (grid: seq<Group<MonthProduct>>, tiers: seq<ProductTier>, rows: seq<Tagged>, details: seq<Group<DetailKey>>)
    ensures ProductPart(f, grid, tiers, rows, details)
  {
    grid := ProductGrid(f);
    var ranking := RankProducts(f);
    tiers := AddTierColumn(ranking);
    JoinGivesTiers(f, ranking, tiers);
    var joined := Merge(f, tiers);
    rows := AddMonthColumn(joined);
    details := DetailSums(rows);
    TotalPointwise(rows, TaggedCantidad, f, Cantidad);
  }

  /** lista.py from section 3 on: clean, filter, stop when nothing is left, and
      otherwise build every table. */
  method Analyze(raw: seq<RawRow>) returns (o: Outcome)
    ensures o.NoSalesInRange? <==>
            forall i :: 0 <= i < |raw| && Complete(raw[i]) ==> !InWindow(raw[i].fecha.value)
    ensures o.Done? ==> Describes(raw, o.report)
  {
    var filtered := CleanAndFilter(raw);
    NothingInWindow(raw);
    if filtered == [] {
      return NoSalesInRange;
    }
    var monthly, total, labels := MonthlyReport(filtered);
    var grid, tiers, rows, details := ProductReport(filtered);
    o := Done(Report(filtered, monthly, total, labels, grid, tiers, rows, details));
  }
}
