# Sales-detail report pipeline (lista.py), modelled in Dafny

`lista.py` reads a sales-detail export (`Lista_Ventas_Detalle.csv`). It keeps the
rows that have a date (`FECHA`), a product (`ARTICULOS`), a quantity
(`CANTIDAD`) and an amount (`IMPORTE EN SOLES`). It restricts them to the window
1 July 2024 – 31 July 2025 and stops when none are left. Otherwise it builds the
tables its charts are drawn from:

- the monthly amount totals and the grand total of the period, with one tick
  label per month;
- a dense month × product grid of amounts;
- products ranked by quantity sold, split into three tiers by rank
  ('Más Vendido', 'Intermedio', 'Casi Nada');
- the sales joined with their product's tier and month;
- quantity sums per (month, product, tier).

This project models that pipeline over rows that are already parsed. A cell that
is blank or fails to parse is `None`. Amounts are integers (cents). Each step is
a function or method whose contract states what the step computes. Lemmas
relate the steps: partition, conservation of sums, uniqueness, order, and the
join being one-to-one.

Modules, one per stage of the script:

- `Wrappers`: `Option`.
- `Seqs`: order-preserving filter, de-duplication, `NoDup`.
- `Aggregate`: keyed sums (`groupby(...).sum()`), conservation lemmas, and the
  descending sort.
- `Sales`: records, dates, month numbering, and the window.
- `Cleaning`: `dropna` in place on an array, and the window filter.
- `Monthly`: `resample('MS')` totals and the month labels.
- `Grid`: the pivot.
- `Ranking`: the ranking and `asignar_categoria`.
- `Join`: the left merge, the `MES` column and `ventas_detalladas`.
- `Pipeline`: the whole run, with its two outcomes.

Two behaviours of the code shape the model:

- **Tie order in the ranking.** `sort_values(ascending=False)` after `groupby`
  uses pandas' default sort, which is not stable. So the model promises a
  non-increasing ranking with one entry per product, and says nothing about
  the order of products with equal quantities.
- **Gap months.** `resample('MS')` makes one bin for every month from the
  earliest to the latest sale. A month in between with no sales gets a zero
  entry. The model builds exactly that run of months.

## Model

| member | source | states |
|---|---|---|
| Cleaning.DropIncomplete | lista.py:22 | `dropna(inplace=True)` on a table: afterwards the first `n` rows are exactly the complete input rows, in input order |
| Cleaning.CleanedMembers | lista.py:22 | a sale is in the cleaned table if and only if the row it came from is in the input, so every complete row is kept and nothing else is |
| Cleaning.CleanedMultiplicity | lista.py:22 | each sale occurs in the cleaned table exactly as often as its complete row occurs in the input |
| Cleaning.CleanedConcat | lista.py:22 | cleaning distributes over concatenation, so kept rows stay in input order |
| Cleaning.CleanedSingle | lista.py:22 | a single row is kept, as the sale it holds, exactly when none of its four required fields is missing |
| Cleaning.Cleaned | lista.py:22 | the cleaned table is no longer than the input |
| Cleaning.AsSales | lista.py:19-22 | the typed rows are the complete raw rows, one for one |
| Sales.ToSale | lista.py:19-22 | a complete row converts to a sale and back with nothing lost |
| Sales.InWindow | lista.py:25-27 | the inclusive window [2024-07-01, 2025-07-31] holds a date exactly when the date's month is one of July 2024 … July 2025 |
| Cleaning.WindowFilter | lista.py:27 | every kept sale is an input sale inside the window; every input sale inside the window is kept; empty exactly when no input sale is inside |
| Cleaning.WindowFilterConcat | lista.py:27 | the filter keeps input order |
| Cleaning.NothingInWindow | lista.py:27-31 | the filtered table is empty exactly when no complete input row is dated inside the window |
| Pipeline.Analyze | lista.py:19-147 | the stop outcome comes back exactly when no complete row lies in the window; otherwise every table of the report is the one the stages compute, with the facts below |
| Pipeline.CleanAndFilter | lista.py:19-27 | copying the rows into a table, dropping incomplete ones in place and filtering gives the window of the cleaned rows |
| Monthly.MonthSpan | lista.py:34 | the resample bins are distinct, consecutive months and cover the month of every sale |
| Monthly.MonthSpanTight | lista.py:34 | the bins start and end at months that have sales |
| Monthly.MonthlyTotals | lista.py:34-36 | one entry per bin in calendar order, each the amount sold in that month (0 for a gap month); the entries add up to `total_anual` |
| Monthly.TwoMonthsExample | lista.py:34-36 | sales of 100.00 on 1 July 2024 and 200.00 on 1 August 2024 give July 100.00, August 200.00 and a total of 300.00 |
| Monthly.MonthLabel | lista.py:50-56 | July 2024 is labelled 'julio(2024)' and July 2025 'julio(2025)'; every other month is labelled with its name from `nombres_meses`, and only those two months differ from it |
| Monthly.MonthLabels | lista.py:48-56 | one label per monthly entry, in order, each that entry's month label |
| Monthly.LabelsDistinctInWindow | lista.py:45-56 | inside the window no two months share a label: the special labels tell the two Julys apart |
| Monthly.MonthNamesDistinct | lista.py:45-46 | the twelve month names are distinct |
| Monthly.MonthNamesShort | lista.py:45-56 | every month name is shorter than the July labels |
| Monthly.SpanInWindow | lista.py:27-34 | sales in the window produce bins that lie in the window |
| Monthly.MonthlyLabelsDistinct | lista.py:34-56 | for sales in the window, the labels of the monthly entries are pairwise distinct |
| Pipeline.MonthlyReport | lista.py:34-56 | the monthly totals, the grand total they add up to, and one distinct label per entry |
| Grid.Cells | lista.py:66-72 | the stacked pivot has `months × products` cells, and a cell is present exactly for a (month, product) pair of the two lists |
| Grid.CellsNoDup | lista.py:66-72 | no cell is repeated |
| Grid.ProductGrid | lista.py:66-72 | exactly one cell for each pair of a month with sales and a product with sales, each the amount of that product in that month |
| Grid.GridAbsentIsZero | lista.py:71 | a pair with no sales has 0 in its cell (`fill_value=0`) |
| Grid.GridProductTotal | lista.py:66-72 | a product's cells over all months add up to that product's total amount |
| Aggregate.GroupSums | lista.py:85 | `groupby().sum()`: one group per distinct key present, each the sum over its rows; the groups add up to the total |
| Aggregate.Conservation | lista.py:34-36 | sums under distinct keys that cover every row add up to the total over all rows |
| Aggregate.RefinedConservation | lista.py:66-74 | the sums under the fine keys that project to one coarse key add up to the sum under that coarse key |
| Aggregate.SortDesc | lista.py:85 | `sort_values(ascending=False)`: a non-increasing permutation with the same total |
| Aggregate.InsertDescending | lista.py:85 | inserting into a non-increasing sequence keeps it non-increasing |
| Aggregate.InsertPermutes | lista.py:85 | inserting adds exactly one occurrence of the new group |
| Aggregate.SortDescKeys | lista.py:85 | sorting keeps the set of keys and their uniqueness |
| Ranking.RankProducts | lista.py:85 | one entry per product with sales, each its total quantity, non-increasing; the quantities add up to the total quantity |
| Ranking.MasVendidosList | lista.py:91 | `head(10)`: the products of the first min(10, n) ranking entries, in rank order |
| Ranking.IntermedioList | lista.py:92 | `iloc[10:30]`: the products of ranking positions 10 up to min(30, n), in rank order |
| Ranking.Categoria | lista.py:94-100 | 'Más Vendido' exactly when the product is among the first 10 entries; 'Intermedio' exactly when it is not, but is among positions 10 to 29; 'Casi Nada' exactly when it is in none of the first 30 |
| Ranking.CategoriaByRank | lista.py:89-100 | with unique products, the product at rank i gets 'Más Vendido' for i < 10, 'Intermedio' for 10 ≤ i < 30, 'Casi Nada' otherwise |
| Ranking.CategoriaOfUnranked | lista.py:94-100 | a product outside the ranking gets 'Casi Nada' |
| Ranking.AddTierColumn | lista.py:102 | the ranking table keeps its rows and gains each product's tier, the tier of its rank |
| Ranking.TierCounts | lista.py:89-102 | the tiers partition the ranked products: min(10, n) 'Más Vendido', min(30, n) − min(10, n) ≤ 20 'Intermedio', the rest 'Casi Nada' |
| Join.Matches | lista.py:105 | the tiers found for a product: empty exactly when no table row has that product, and each one the tier of such a row |
| Join.MatchesAll | lista.py:105 | every table row with the product contributes its tier, one tier per such row |
| Join.JoinRow | lista.py:105 | one sale gives one row per matching table row, or a single row when none matches; each row carries that sale; a row has no tier exactly when no table row has the product, and otherwise the tier of a matching table row |
| Join.Merge | lista.py:105 | a left join yields at least as many rows as there are sales |
| Join.MergeKeepsSales | lista.py:105 | every sale has a row in the join |
| Join.MergeInventsNone | lista.py:105 | every row of the join carries a sale of the input |
| Join.MatchesUnique | lista.py:105 | with unique products, a product matches its one tier row or none |
| Join.MergeOneToOne | lista.py:105 | with unique products the join keeps the row count and order; row i is sale i with its product's tier, or no tier when the product is absent |
| Pipeline.TierTableUnique | lista.py:102-105 | the tier table has unique products, as the ranking does |
| Pipeline.JoinGivesTiers | lista.py:105 | after the join every sale carries its product's tier, and the sale itself is unchanged |
| Join.AddMonthColumn | lista.py:112 | every row gains its month and keeps its sale and tier |
| Join.DetailSums | lista.py:145-147 | one group per distinct (month, product, tier), each its quantity; the groups add up to the quantity of all rows |
| Pipeline.ProductReport | lista.py:66-147 | the grid, the tier table by rank, the sales with tier and month, and detail sums that add up to the period's quantity |

## Left out

- Loading the file with `read_csv` (latin1, `header=1`), and the exit when the file is missing (lista.py:5-9). This is I/O. The model starts from the parsed rows.
- Stripping the column headers and parsing text with `to_numeric`/`to_datetime` (lista.py:18-21). This is library behaviour. A value that fails to parse arrives as `None`.
- Calendar validity of dates, such as 30 February. `to_datetime` rejects such dates, so the model only bounds day and month.
- Floating-point amounts and quantities. The model uses integers (cents), so there is no rounding.
- Console printing and its `:,.2f` format (lista.py:38-42). All Plotly figures, colours and category orders (lista.py:58-63, 77-82, 107-109, 114-139, 149-183).
- The string forms of months: `strftime('%Y-%m')`, `to_period('M').astype(str)` (lista.py:35, 75, 112). The model keeps a month as a (year, month) value.
- Column renames (lista.py:74, 86). They change headers, not data.
- Cleaning.DropIncomplete: the table is an array whose kept prefix is the cleaned table. The leftover cells after `n`, and pandas' index labels, are not modelled.
- Ranking.RankProducts: says nothing about the order among products with equal quantity. The source's default sort is not stable, and `groupby` orders keys by name first.
- Grid.ProductGrid: months and products appear in order of first appearance, not in the pivot's sorted order. The cells and their values are the same.
- Join.DetailSums: groups appear in order of first appearance, not in `groupby`'s sorted key order. `groupby` would drop rows whose tier is missing. No such row exists, because `Pipeline.JoinGivesTiers` gives every sale a tier.
