/** The sales records of the detail export and the calendar facts the pipeline
    relies on: months as a consecutive index, and the fixed reporting window. */
module Sales {
  import opened Wrappers

  type MonthNumber = m: int | 1 <= m <= 12 witness 1
  type DayNumber = d: int | 1 <= d <= 31 witness 1

  /** A parsed `FECHA` value (the format `%d/%m/%Y` carries no time of day). */
  datatype Date = Date(year: int, month: MonthNumber, day: DayNumber)

  /** A calendar month: a `to_period('M')` value or a `resample('MS')` bin. */
  datatype YearMonth = YearMonth(year: int, month: MonthNumber)

  /** A row as the cleaning step sees it: the four required columns, each
      missing when the cell was blank or did not parse. Amounts are integers
      (cents). */
  datatype RawRow = RawRow(fecha: Option<Date>, articulo: Option<string>,
                           cantidad: Option<int>, importe: Option<int>)

  /** A row that has all four required columns. */
  datatype Sale = Sale(fecha: Date, articulo: string, cantidad: int, importe: int)

  /** None of the four required columns is missing. */
  predicate Complete(r: RawRow) {
    r.fecha.Some? && r.articulo.Some? && r.cantidad.Some? && r.importe.Some?
  }

  /** The raw row a sale was read from. */
  function FromSale(x: Sale): (r: RawRow)
    ensures Complete(r)
  {
    RawRow(Some(x.fecha), Some(x.articulo), Some(x.cantidad), Some(x.importe))
  }

  /** The sale a complete raw row holds; nothing is lost either way. */
  function ToSale(r: RawRow): (x: Sale)
    requires Complete(r)
    ensures FromSale(x) == r
  {
    Sale(r.fecha.value, r.articulo.value, r.cantidad.value, r.importe.value)
  }

  // Column accessors, passed as keys and values to the grouped sums.
  function Articulo(x: Sale): string { x.articulo }
  function Cantidad(x: Sale): int { x.cantidad }
  function Importe(x: Sale): int { x.importe }
  function SaleMonth(x: Sale): YearMonth { YearMonth(x.fecha.year, x.fecha.month) }

  /** Months numbered consecutively: January of year 0 is 0. */
  function MonthIndex(ym: YearMonth): int {
    ym.year * 12 + (ym.month - 1)
  }

  /** The month with a given index. */
  function MonthAt(k: int): (ym: YearMonth)
    ensures MonthIndex(ym) == k
  {
    YearMonth(k / 12, k % 12 + 1)
  }

  /** Distinct months have distinct indices, so `MonthAt` inverts `MonthIndex`. */
  lemma MonthIndexInjective(a: YearMonth, b: YearMonth)
    ensures MonthIndex(a) == MonthIndex(b) <==> a == b
  {
  }

  lemma MonthAtIndex(ym: YearMonth)
    ensures MonthAt(MonthIndex(ym)) == ym
  {
    MonthIndexInjective(MonthAt(MonthIndex(ym)), ym);
  }

  /** `a` is on or before `b`. */
  predicate DateLe(a: Date, b: Date) {
    a.year < b.year
    || (a.year == b.year && (a.month < b.month || (a.month == b.month && a.day <= b.day)))
  }

  const WindowStart: Date := Date(2024, 7, 1)
  const WindowEnd: Date := Date(2025, 7, 31)
  const FirstWindowMonth: YearMonth := YearMonth(2024, 7)
  const LastWindowMonth: YearMonth := YearMonth(2025, 7)

  /** `fecha_inicio <= d <= fecha_fin`, both ends included. The window is made
      of whole months: a date is in it exactly when its month is one of July
      2024 ... July 2025. */
  predicate InWindow(d: Date)
    ensures InWindow(d) <==>
      MonthIndex(FirstWindowMonth) <= MonthIndex(YearMonth(d.year, d.month)) <= MonthIndex(LastWindowMonth)
  {
    DateLe(WindowStart, d) && DateLe(d, WindowEnd)
  }

  predicate SaleInWindow(x: Sale) {
    InWindow(x.fecha)
  }
}
