/** Stock decrements with automatic disassembly, as inventario_service.go does them. */
module Inventario {
  import opened Aritmetica
  import opened Datos

  /** UpdateStockTx: stock_actual + delta on an existing product. */
  function SumarStock(ps: seq<Producto>, id: nat, delta: int): seq<Producto>
    requires id < |ps|
  {
    ps[id := ps[id].(stock := ps[id].stock + delta)]
  }

  /** FindVinculoByHijoIDTx: the first link of a child product with desarme_auto. */
  function VinculoAuto(vs: seq<Vinculo>, hijo: nat): (r: Option<Vinculo>)
    ensures r.Some? ==> r.value in vs && r.value.hijo == hijo && r.value.desarmeAuto
    ensures r.None? ==> forall v | v in vs :: v.hijo != hijo || !v.desarmeAuto
  {
    if vs == [] then None
    else if vs[0].hijo == hijo && vs[0].desarmeAuto then Some(vs[0])
    else VinculoAuto(vs[1..], hijo)
  }

  /** Ceiling division, as the source writes it. */
  function Techo(n: int, d: Positivo): int {
    (n + d - 1) / d
  }

  /** DescontarStockTx; None is an error, on which the transaction rolls back. */
  function DescontarStock(e: Existencias, vs: seq<Vinculo>, p: nat, cantidad: int): Option<Existencias> {
    if p >= |e.productos| then None
    else
      var simple := Some(e.(productos := SumarStock(e.productos, p, -cantidad)));
      var stock := e.productos[p].stock;
      if stock >= cantidad then simple
      else
        match VinculoAuto(vs, p)
        case None => simple
        case Some(v) =>
          var k := Techo(cantidad - stock, v.unidades);
          if v.padre >= |e.productos| then None
          else if e.productos[v.padre].stock < k then simple
          else Some(e.(productos := TrasDesarme(e.productos, v.padre, p, k, v.unidades, cantidad),
                       desarmes := e.desarmes + [Desarme(v.padre, p, v.unidades, k, |e.movimientos| + 1)]))
  }

  /** The three updates of a disassembly: parents out, units in, sale out. */
  function TrasDesarme(ps: seq<Producto>, padre: nat, hijo: nat, k: int, u: int, cantidad: int): seq<Producto>
    requires padre < |ps| && hijo < |ps|
  {
    SumarStock(SumarStock(SumarStock(ps, padre, -k), hijo, k * u), hijo, -cantidad)
  }

  /** The online pre-flight: can the link's parent cover the deficit? */
  predicate PuedeDesarmar(ps: seq<Producto>, vs: seq<Vinculo>, p: nat, cantidad: int)
    requires p < |ps|
  {
    match VinculoAuto(vs, p)
    case None => false
    case Some(v) => v.padre < |ps| && ps[v.padre].stock >= Techo(cantidad - ps[p].stock, v.unidades)
  }

  /** The pre-flight's verdict on the stock of one line. */
  predicate PreflightAcepta(ps: seq<Producto>, vs: seq<Vinculo>, p: nat, cantidad: int)
    requires p < |ps|
  {
    ps[p].stock >= cantidad || PuedeDesarmar(ps, vs, p, cantidad)
  }

  /** Links join two different existing products. */
  predicate VinculosValidos(vs: seq<Vinculo>, n: nat) {
    forall v | v in vs :: v.padre < n && v.hijo < n && v.padre != v.hijo
  }

  /** Techo(n, d) is the least k with k * d >= n. */
  lemma TechoMinimo(n: int, d: Positivo)
    ensures Techo(n, d) * d >= n > (Techo(n, d) - 1) * d
  {
    var m := n + d - 1;
    assert m == (m / d) * d + m % d;
    assert (Techo(n, d) - 1) * d == Techo(n, d) * d - d;
  }

  lemma TechoUnico(n: int, d: Positivo, k: int)
    requires k * d >= n > (k - 1) * d
    ensures Techo(n, d) == k
  {
    TechoMinimo(n, d);
    var t := Techo(n, d);
    if t < k {
      Crece(t, k - 1, d);
    } else if t > k {
      Crece(k, t - 1, d);
    }
  }

  lemma TechoNoNegativo(n: int, d: Positivo)
    ensures n > 0 ==> Techo(n, d) >= 1
    ensures n <= 0 ==> Techo(n, d) <= 0
  {
    TechoMinimo(n, d);
    if n > 0 && Techo(n, d) <= 0 {
      Crece(Techo(n, d), 0, d);
    }
    if n <= 0 && Techo(n, d) >= 1 {
      Crece(0, Techo(n, d) - 1, d);
    }
  }

  /**
   * The pre-flight accepts a line exactly when executing it leaves the product's stock
   * non-negative, and then a disassembly uses the least sufficient number of parents,
   * leaves less than one parent's worth of child units, and never overdraws the parent.
   */
  lemma PreflightConcuerda(e: Existencias, vs: seq<Vinculo>, p: nat, cantidad: int)
    requires p < |e.productos| && VinculosValidos(vs, |e.productos|)
    ensures var r := DescontarStock(e, vs, p, cantidad);
            r.Some? &&
            (PreflightAcepta(e.productos, vs, p, cantidad) <==> r.value.productos[p].stock >= 0) &&
            (r.value.desarmes != e.desarmes ==>
               var d := r.value.desarmes[|e.desarmes|];
               r.value.desarmes == e.desarmes + [d] && d.hijo == p && d.padre != p && d.padre < |e.productos| &&
               d.padres > 0 && 0 <= r.value.productos[p].stock < d.unidades &&
               r.value.productos[d.padre].stock == e.productos[d.padre].stock - d.padres >= 0 &&
               (forall k: int | k < d.padres :: e.productos[p].stock + k * d.unidades < cantidad))
  {
    var stock := e.productos[p].stock;
    if stock < cantidad && PuedeDesarmar(e.productos, vs, p, cantidad) {
      var v := VinculoAuto(vs, p).value;
      var k := Techo(cantidad - stock, v.unidades);
      TechoMinimo(cantidad - stock, v.unidades);
      assert (k - 1) * v.unidades == k * v.unidades - v.unidades;
      if k <= 0 {
        Crece(k, 0, v.unidades);
      }
      forall j: int | j < k ensures stock + j * v.unidades < cantidad {
        Crece(j, k - 1, v.unidades);
      }
      var d := Desarme(v.padre, p, v.unidades, k, |e.movimientos| + 1);
      var r := DescontarStock(e, vs, p, cantidad).value;
      assert r.desarmes == e.desarmes + [d];
      assert r.desarmes[|e.desarmes|] == d;
    }
  }
}
