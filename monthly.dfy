/** Monthly amount totals (`resample('MS')[...].sum()`), the grand total, and
    the month labels of the trend chart. */
module Monthly {
  import opened Seqs
  import opened Aggregate
  import opened Sales

  /** The index of the earliest month of a sale. */
  function FirstMonth(s: seq<Sale>): (k: int)
    requires |s| > 0
    ensures forall i :: 0 <= i < |s| ==> k <= MonthIndex(SaleMonth(s[i]))
    ensures exists i :: 0 <= i < |s| && k == MonthIndex(SaleMonth(s[i]))
  {
    if |s| == 1 then MonthIndex(SaleMonth(s[0]))
    else
      var k := FirstMonth(s[1..]);
      assert forall i :: 1 <= i < |s| ==> s[i] == s[1..][i - 1];
      if MonthIndex(SaleMonth(s[0])) <= k then MonthIndex(SaleMonth(s[0])) else k
  }

  /** The index of the latest month of a sale. */
  function LastMonth(s: seq<Sale>): (k: int)
    requires |s| > 0
    ensures forall i :: 0 <= i < |s| ==> MonthIndex(SaleMonth(s[i])) <= k
    ensures exists i :: 0 <= i < |s| && k == MonthIndex(SaleMonth(s[i]))
  {
    if |s| == 1 then MonthIndex(SaleMonth(s[0]))
    else
      var k := LastMonth(s[1..]);
      assert forall i :: 1 <= i < |s| ==> s[i] == s[1..][i - 1];
      if MonthIndex(SaleMonth(s[0])) >= k then MonthIndex(SaleMonth(s[0])) else k
  }

  /** The months with indices `lo` ... `hi`, one after the other. */
  function MonthRange(lo: int, hi: int): (r: seq<YearMonth>)
    ensures |r| == if lo <= hi then hi - lo + 1 else 0
    ensures forall i :: 0 <= i < |r| ==> MonthIndex(r[i]) == lo + i
    decreases hi - lo
  {
    if lo > hi then [] else [MonthAt(lo)] + MonthRange(lo + 1, hi)
  }

  /** The bins of `resample('MS')`: every month from the earliest to the latest
      month of a sale, gaps included. */
  function MonthSpan(s: seq<Sale>): (r: seq<YearMonth>)
    ensures NoDup(r)
    ensures forall i :: 0 <= i < |s| ==> SaleMonth(s[i]) in r
    ensures forall i :: 0 <= i < |r| ==> MonthIndex(r[i]) == MonthIndex(r[0]) + i
  {
    if s == [] then []
    else
      var r := MonthRange(FirstMonth(s), LastMonth(s));
      forall i, j | 0 <= i < j < |r| ensures r[i] != r[j] {
        MonthIndexInjective(r[i], r[j]);
      }
      forall i | 0 <= i < |s| ensures SaleMonth(s[i]) in r {
        var k := MonthIndex(SaleMonth(s[i])) - FirstMonth(s);
        MonthIndexInjective(r[k], SaleMonth(s[i]));
      }
      r
  }

  /** `ventas_mensuales`: one entry per month of the span, in calendar order,
      holding the amount sold that month (zero for a month without sales); the
      entries add up to the grand total `total_anual`. */
  function MonthlyTotals(s: seq<Sale>): (g: seq<Group<YearMonth>>)
    ensures s == [] <==> g == []
    ensures forall i :: 0 <= i < |g| ==> MonthIndex(g[i].key) == MonthIndex(g[0].key) + i
    ensures GroupKeys(g) == MonthSpan(s)
    ensures forall i :: 0 <= i < |s| ==> SaleMonth(s[i]) in GroupKeys(g)
    ensures forall i :: 0 <= i < |g| ==> g[i].sum == SumBy(s, SaleMonth, Importe, g[i].key)
    ensures SumGroups(g) == Total(s, Importe)
  {
    var ms := MonthSpan(s);
    Conservation(s, SaleMonth, Importe, ms);
    MonthSpanTight(s);
    assert s == [] <==> ms == [];
    Sums(s, SaleMonth, Importe, ms)
  }

  /** The span starts and ends at months that have sales, so it is the
      shortest run of months holding every sale. */
  lemma MonthSpanTight(s: seq<Sale>)
    ensures s == [] <==> MonthSpan(s) == []
    ensures s != [] ==> exists i :: 0 <= i < |s| && SaleMonth(s[i]) == MonthSpan(s)[0]
    ensures s != [] ==> exists i :: 0 <= i < |s| && SaleMonth(s[i]) == MonthSpan(s)[|MonthSpan(s)| - 1]
  {
    if s != [] {
      var ms := MonthSpan(s);
      var lo, hi := FirstMonth(s), LastMonth(s);
      var a :| 0 <= a < |s| && lo == MonthIndex(SaleMonth(s[a]));
      var b :| 0 <= b < |s| && hi == MonthIndex(SaleMonth(s[b]));
      MonthIndexInjective(ms[0], SaleMonth(s[a]));
      MonthIndexInjective(ms[|ms| - 1], SaleMonth(s[b]));
    }
  }

  /** `nombres_meses`. */
  const MonthNames: seq<string> :=
    ["Enero", "Febrero", "Marzo", "Abril", "Mayo", "Junio",
     "Julio", "Agosto", "Setiembre", "Octubre", "Noviembre", "Diciembre"]

  /** The tick label of a month: its Spanish name, except that the two Julys of
      the window are told apart by their year. */
  function MonthLabel(ym: YearMonth): (name: string)
    ensures name != MonthNames[ym.month - 1] <==>
            ym == YearMonth(2024, 7) || ym == YearMonth(2025, 7)
    ensures ym == YearMonth(2024, 7) ==> name == "julio(2024)"
    ensures ym == YearMonth(2025, 7) ==> name == "julio(2025)"
  {
    if ym.year == 2024 && ym.month == 7 then "julio(2024)"
    else if ym.year == 2025 && ym.month == 7 then "julio(2025)"
    else MonthNames[ym.month - 1]
  }

  /** The months July 2024 ... July 2025. */
  predicate InWindowMonths(ym: YearMonth) {
    MonthIndex(FirstWindowMonth) <= MonthIndex(ym) <= MonthIndex(LastWindowMonth)
  }

  /** Inside the window no two months share a label. */
  lemma LabelsDistinctInWindow(a: YearMonth, b: YearMonth)
    requires InWindowMonths(a) && InWindowMonths(b) && a != b
    ensures MonthLabel(a) != MonthLabel(b)
  {
    var la, lb := MonthLabel(a), MonthLabel(b);
    var ja := a == YearMonth(2024, 7) || a == YearMonth(2025, 7);
    var jb := b == YearMonth(2024, 7) || b == YearMonth(2025, 7);
    if ja && jb {
      // The two Julys of the window: their labels differ in the year.
      assert la[9] != lb[9];
    } else if ja || jb {
      // A July label is longer than every month name.
      MonthNamesShort(if ja then b.month - 1 else a.month - 1);
      assert |la| != |lb|;
    } else {
      // Only July occurs twice in the window, so the months differ.
      assert a.month != b.month;
      if a.month < b.month {
        MonthNamesDistinct(a.month - 1, b.month - 1);
      } else {
        MonthNamesDistinct(b.month - 1, a.month - 1);
      }
    }
  }

  /** No two month names are the same. */
  lemma MonthNamesDistinct(i: nat, j: nat)
    requires i < j < 12
    ensures MonthNames[i] != MonthNames[j]
  {
  }

  /** Every month name is shorter than the July labels. */
  lemma MonthNamesShort(i: nat)
    requires i < 12
    ensures |MonthNames[i]| < |"julio(2024)"|
  {
  }

  /** Sales inside the window span only months of the window. */
  lemma SpanInWindow(s: seq<Sale>)
    requires forall i :: 0 <= i < |s| ==> InWindow(s[i].fecha)
    ensures forall i :: 0 <= i < |MonthSpan(s)| ==> InWindowMonths(MonthSpan(s)[i])
  {
    if s != [] {
      var lo, hi := FirstMonth(s), LastMonth(s);
      var ms := MonthRange(lo, hi);
      assert MonthSpan(s) == ms;
      var a :| 0 <= a < |s| && lo == MonthIndex(SaleMonth(s[a]));
      var b :| 0 <= b < |s| && hi == MonthIndex(SaleMonth(s[b]));
      assert InWindow(s[a].fecha) && InWindow(s[b].fecha);
    }
  }

  /** Sales inside the window give monthly entries inside the window, so the
      labels of the monthly entries are pairwise distinct. */
  lemma MonthlyLabelsDistinct(s: seq<Sale>)
    requires forall i :: 0 <= i < |s| ==> InWindow(s[i].fecha)
    ensures forall i, j :: 0 <= i < j < |MonthlyTotals(s)| ==>
              MonthLabel(MonthlyTotals(s)[i].key) != MonthLabel(MonthlyTotals(s)[j].key)
  {
    var g := MonthlyTotals(s);
    SpanInWindow(s);
    forall i, j | 0 <= i < j < |g| ensures MonthLabel(g[i].key) != MonthLabel(g[j].key) {
      assert g[i].key == MonthSpan(s)[i] && g[j].key == MonthSpan(s)[j];
      assert g[i].key != g[j].key;
      LabelsDistinctInWindow(g[i].key, g[j].key);
    }
  }

  /** `etiquetas_personalizadas`: one label per monthly entry, in order. */
  method MonthLabels(monthly: seq<Group<YearMonth>>) returns (labels: seq<string>)
    ensures |labels| == |monthly|
    ensures forall i :: 0 <= i < |labels| ==> labels[i] == MonthLabel(monthly[i].key)
  {
    labels := [];
    for i := 0 to |monthly|
      invariant |labels| == i
      invariant forall k :: 0 <= k < i ==> labels[k] == MonthLabel(monthly[k].key)
    {
      var fecha := monthly[i].key;
      var nombre := MonthNames[fecha.month - 1];
      if fecha.year == 2024 && fecha.month == 7 {
        labels := labels + ["julio(2024)"];
      } else if fecha.year == 2025 && fecha.month == 7 {
        labels := labels + ["julio(2025)"];
      } else {
        labels := labels + [nombre];
      }
    }
  }

  /** Two sales of one product on 1 July 2024 and 1 August 2024, for 100.00
      and 200.00: July totals 100.00, August 200.00, and the period 300.00. */
  lemma TwoMonthsExample()
    ensures var s := [Sale(Date(2024, 7, 1), "P", 1, 10000), Sale(Date(2024, 8, 1), "P", 1, 20000)];
            && MonthlyTotals(s) == [Group(YearMonth(2024, 7), 10000), Group(YearMonth(2024, 8), 20000)]
            && Total(s, Importe) == 30000
  {
    var s := [Sale(Date(2024, 7, 1), "P", 1, 10000), Sale(Date(2024, 8, 1), "P", 1, 20000)];
    assert FirstMonth(s) == MonthIndex(YearMonth(2024, 7));
    assert LastMonth(s) == MonthIndex(YearMonth(2024, 8));
    var ms := MonthSpan(s);
    assert ms == [YearMonth(2024, 7), YearMonth(2024, 8)] by {
      MonthAtIndex(YearMonth(2024, 7));
      MonthAtIndex(YearMonth(2024, 8));
    }
    assert s[1..][1..] == [];
    assert SumBy(s, SaleMonth, Importe, YearMonth(2024, 7)) == 10000;
    assert SumBy(s, SaleMonth, Importe, YearMonth(2024, 8)) == 20000;
  }
}
