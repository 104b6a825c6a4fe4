/** Product popularity: quantities per product ranked in descending order, and
    the three sales tiers assigned by rank (`asignar_categoria`). */
module Ranking {
  import opened Seqs
  import opened Aggregate
  import opened Sales

  /** `ventas_totales_por_producto`: one entry per product with sales, holding
      its total quantity, in non-increasing order of quantity; the quantities
      add up to the total quantity sold. */
  function RankProducts(s: seq<Sale>): (r: seq<Group<string>>)
    ensures Descending(r)
    ensures UniqueKeys(r)
    ensures forall i :: 0 <= i < |s| ==> s[i].articulo in GroupKeys(r)
    ensures forall i :: 0 <= i < |r| ==> r[i].key in Keys(s, Articulo)
    ensures forall i :: 0 <= i < |r| ==> r[i].sum == SumBy(s, Articulo, Cantidad, r[i].key)
    ensures SumGroups(r) == Total(s, Cantidad)
  {
    var t := GroupSums(s, Articulo, Cantidad);
    SortDescKeys(t);
    SortDescElements(t);
    SortDesc(t)
  }

  datatype Tier = MasVendido | Intermedio | CasiNada

  const NumMasVendidos: nat := 10
  const NumIntermedio: nat := 20

  function Min(a: int, b: int): int { if a <= b then a else b }

  /** The tier the rank thresholds give to position `i` of the ranking. */
  function TierForRank(i: nat): Tier {
    if i < NumMasVendidos then MasVendido
    else if i < NumMasVendidos + NumIntermedio then Intermedio
    else CasiNada
  }

  /** `mas_vendidos_list`: the products of `head(10)`. */
  function MasVendidosList(r: seq<Group<string>>): (l: seq<string>)
    ensures |l| == Min(NumMasVendidos, |r|)
    ensures forall i :: 0 <= i < |l| ==> l[i] == r[i].key
  {
    GroupKeys(r[..Min(NumMasVendidos, |r|)])
  }

  /** `intermedio_list`: the products of `iloc[10:30]`. */
  function IntermedioList(r: seq<Group<string>>): (l: seq<string>)
    ensures |l| == Min(NumMasVendidos + NumIntermedio, |r|) - Min(NumMasVendidos, |r|)
    ensures forall i :: 0 <= i < |l| ==> l[i] == r[Min(NumMasVendidos, |r|) + i].key
  {
    GroupKeys(r[Min(NumMasVendidos, |r|)..Min(NumMasVendidos + NumIntermedio, |r|)])
  }

  /** `asignar_categoria`: looks the product up in the two lists. */
  function Categoria(r: seq<Group<string>>, p: string): (c: Tier)
    ensures c == MasVendido <==> exists i :: 0 <= i < Min(NumMasVendidos, |r|) && r[i].key == p
    ensures c == Intermedio <==>
              (forall i :: 0 <= i < Min(NumMasVendidos, |r|) ==> r[i].key != p) &&
              exists i :: Min(NumMasVendidos, |r|) <= i < Min(NumMasVendidos + NumIntermedio, |r|) && r[i].key == p
    ensures c == CasiNada <==> forall i :: 0 <= i < Min(NumMasVendidos + NumIntermedio, |r|) ==> r[i].key != p
  {
    if p in MasVendidosList(r) then MasVendido
    else if p in IntermedioList(r) then Intermedio
    else
      var a := Min(NumMasVendidos, |r|);
      assert forall i :: a <= i < Min(NumMasVendidos + NumIntermedio, |r|) ==> r[i].key == IntermedioList(r)[i - a];
      CasiNada
  }

  /** With one entry per product, the lookup gives every ranked product the
      tier of its position: the first 10 are 'Más Vendido', the next 20
      'Intermedio', the rest 'Casi Nada'. */
  lemma CategoriaByRank(r: seq<Group<string>>, i: nat)
    requires UniqueKeys(r) && i < |r|
    ensures Categoria(r, r[i].key) == TierForRank(i)
  {
    var a, b := Min(NumMasVendidos, |r|), Min(NumMasVendidos + NumIntermedio, |r|);
    var head, mid := MasVendidosList(r), IntermedioList(r);
    assert GroupKeys(r)[i] == r[i].key;
    if i < a {
      assert head[i] == r[i].key;
    } else {
      forall j | 0 <= j < |head| ensures head[j] != r[i].key {
        assert head[j] == GroupKeys(r)[j];
      }
      if i < b {
        assert mid[i - a] == r[i].key;
      } else {
        forall j | 0 <= j < |mid| ensures mid[j] != r[i].key {
          assert mid[j] == GroupKeys(r)[a + j];
        }
      }
    }
  }

  /** A product without sales would be 'Casi Nada'. */
  lemma CategoriaOfUnranked(r: seq<Group<string>>, p: string)
    requires p !in GroupKeys(r)
    ensures Categoria(r, p) == CasiNada
  {
    var a, b := Min(NumMasVendidos, |r|), Min(NumMasVendidos + NumIntermedio, |r|);
    forall j | 0 <= j < a ensures MasVendidosList(r)[j] != p {
      assert MasVendidosList(r)[j] == GroupKeys(r)[j];
    }
    forall j | 0 <= j < b - a ensures IntermedioList(r)[j] != p {
      assert IntermedioList(r)[j] == GroupKeys(r)[a + j];
    }
  }

  /** A row of the ranking table once `Categoria_Venta` is added (the quantity
      column renamed 'Cantidad Vendida'). */
  datatype ProductTier = ProductTier(articulo: string, vendida: int, categoria: Tier)

  /** `ventas_totales_por_producto['Categoria_Venta'] = ...apply(asignar_categoria)`:
      the table keeps its rows and gains each product's tier, which is the tier
      of its rank when the products are unique. */
  method AddTierColumn(r: seq<Group<string>>) returns (t: seq<ProductTier>)
    ensures |t| == |r|
    ensures forall i :: 0 <= i < |t| ==> t[i] == ProductTier(r[i].key, r[i].sum, Categoria(r, r[i].key))
    ensures UniqueKeys(r) ==> forall i :: 0 <= i < |t| ==> t[i].categoria == TierForRank(i)
  {
    t := [];
    for i := 0 to |r|
      invariant |t| == i
      invariant forall k :: 0 <= k < i ==> t[k] == ProductTier(r[k].key, r[k].sum, Categoria(r, r[k].key))
    {
      t := t + [ProductTier(r[i].key, r[i].sum, Categoria(r, r[i].key))];
    }
    if UniqueKeys(r) {
      forall i | 0 <= i < |t| ensures t[i].categoria == TierForRank(i) {
        CategoriaByRank(r, i);
      }
    }
  }

  /** How many rows of the table carry tier `c`. */
  function CountTier(t: seq<ProductTier>, c: Tier): nat {
    if t == [] then 0
    else CountTier(t[..|t| - 1], c) + (if t[|t| - 1].categoria == c then 1 else 0)
  }

  /** The tiers partition the ranked products by position: min(10, n) are
      'Más Vendido', at most 20 'Intermedio', and all the others 'Casi Nada'. */
  lemma {:induction false} TierCounts(t: seq<ProductTier>)
    requires forall i :: 0 <= i < |t| ==> t[i].categoria == TierForRank(i)
    ensures CountTier(t, MasVendido) == Min(NumMasVendidos, |t|)
    ensures CountTier(t, Intermedio) == Min(NumMasVendidos + NumIntermedio, |t|) - Min(NumMasVendidos, |t|)
    ensures CountTier(t, CasiNada) == |t| - Min(NumMasVendidos + NumIntermedio, |t|)
  {
    if t != [] {
      var u := t[..|t| - 1];
      assert forall i :: 0 <= i < |u| ==> u[i] == t[i];
      TierCounts(u);
    }
  }
}
