/** Cleaning (`dropna` over the four required columns, in place) and the
    date-window filter. */
module Cleaning {
  import opened Wrappers
  import opened Seqs
  import opened Sales

  /** `dropna(subset=[...], inplace=True)`: the complete rows are moved to the
      front of the table, in their original order, and `n` says how many there
      are; the rest of the table is left over. */
  method DropIncomplete(a: array<RawRow>) returns (n: nat)
    modifies a
    ensures n <= a.Length
    ensures a[..n] == Filter(old(a[..]), Complete)
  {
    ghost var s := a[..];
    n := 0;
    var i := 0;
    while i < a.Length
      invariant n <= i <= a.Length
      invariant a[..n] == Filter(s[..i], Complete)
      invariant a[i..] == s[i..]
    {
      assert a[i] == s[i];
      if Complete(a[i]) {
        a[n] := a[i];
        n := n + 1;
      }
      assert s[..i + 1] == s[..i] + [s[i]];
      FilterConcat(s[..i], [s[i]], Complete);
      i := i + 1;
    }
    assert s[..a.Length] == s;
  }

  /** The typed view of rows known to be complete. */
  function AsSales(rows: seq<RawRow>): (r: seq<Sale>)
    requires forall i :: 0 <= i < |rows| ==> Complete(rows[i])
    ensures |r| == |rows|
    ensures forall i :: 0 <= i < |r| ==> FromSale(r[i]) == rows[i]
  {
    seq(|rows|, i requires 0 <= i < |rows| => ToSale(rows[i]))
  }

  /** The cleaned table. */
  function Cleaned(raw: seq<RawRow>): (r: seq<Sale>)
    ensures |r| <= |raw|
  {
    AsSales(Filter(raw, Complete))
  }

  /** Cleaning keeps exactly the complete rows: a sale is in the cleaned table
      if and only if the row it was read from is in the input. */
  lemma CleanedMembers(raw: seq<RawRow>, x: Sale)
    ensures x in Cleaned(raw) <==> FromSale(x) in raw
  {
    var kept := Filter(raw, Complete);
    var c := Cleaned(raw);
    if x in c {
      var i :| 0 <= i < |c| && c[i] == x;
      assert kept[i] in raw;
    }
    if FromSale(x) in raw {
      var i :| 0 <= i < |raw| && raw[i] == FromSale(x);
      assert FromSale(x) in kept;
      var j :| 0 <= j < |kept| && kept[j] == FromSale(x);
      assert c[j] == ToSale(kept[j]);
    }
  }

  /** The typed view keeps multiplicities: a sale occurs as often as the row
      it was read from. */
  lemma {:induction false} AsSalesMultiset(rows: seq<RawRow>, x: Sale)
    requires forall i :: 0 <= i < |rows| ==> Complete(rows[i])
    ensures multiset(AsSales(rows))[x] == multiset(rows)[FromSale(x)]
  {
    if rows != [] {
      var tail := rows[1..];
      assert rows == [rows[0]] + tail;
      assert AsSales(rows) == [ToSale(rows[0])] + AsSales(tail);
      AsSalesMultiset(tail, x);
    }
  }

  /** Cleaning drops no copy of a complete row: each sale occurs in the
      cleaned table exactly as often as its row occurs in the input. */
  lemma CleanedMultiplicity(raw: seq<RawRow>, x: Sale)
    ensures multiset(Cleaned(raw))[x] == multiset(raw)[FromSale(x)]
  {
    FilterMultiset(raw, Complete, FromSale(x));
    AsSalesMultiset(Filter(raw, Complete), x);
  }

  /** Cleaning keeps the input order: it distributes over concatenation. */
  lemma CleanedConcat(a: seq<RawRow>, b: seq<RawRow>)
    ensures Cleaned(a + b) == Cleaned(a) + Cleaned(b)
  {
    FilterConcat(a, b, Complete);
  }

  /** A complete row survives cleaning as the sale it holds; an incomplete one
      is dropped. */
  lemma CleanedSingle(r: RawRow)
    ensures Cleaned([r]) == if Complete(r) then [ToSale(r)] else []
  {
    assert [r][1..] == [];
  }

  /** `df_filtrado`: the sales dated inside the window, in their order. */
  function WindowFilter(s: seq<Sale>): (r: seq<Sale>)
    ensures |r| <= |s|
    ensures forall i :: 0 <= i < |r| ==> r[i] in s && InWindow(r[i].fecha)
    ensures forall i :: 0 <= i < |s| && InWindow(s[i].fecha) ==> s[i] in r
    ensures r == [] <==> forall i :: 0 <= i < |s| ==> !InWindow(s[i].fecha)
  {
    var r := Filter(s, SaleInWindow);
    assert r != [] ==> r[0] in r;
    r
  }

  /** The filter keeps the order of what it keeps. */
  lemma WindowFilterConcat(a: seq<Sale>, b: seq<Sale>)
    ensures WindowFilter(a + b) == WindowFilter(a) + WindowFilter(b)
  {
    FilterConcat(a, b, SaleInWindow);
  }

  /** The window is empty after cleaning exactly when no complete input row is
      dated inside it. */
  lemma NothingInWindow(raw: seq<RawRow>)
    ensures WindowFilter(Cleaned(raw)) == [] <==>
            forall i :: 0 <= i < |raw| && Complete(raw[i]) ==> !InWindow(raw[i].fecha.value)
  {
    var c := Cleaned(raw);
    forall i | 0 <= i < |raw| && Complete(raw[i])
      ensures ToSale(raw[i]) in c
    {
      CleanedMembers(raw, ToSale(raw[i]));
    }
    forall j | 0 <= j < |c|
      ensures exists i :: 0 <= i < |raw| && Complete(raw[i]) && raw[i] == FromSale(c[j])
    {
      CleanedMembers(raw, c[j]);
    }
  }
}
