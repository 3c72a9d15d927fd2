/**
 * Stock conservation.  For ANY weights w, the weighted stock plus the weight of the live
 * sales, less the weight of the adjustments and of the disassemblies, never changes.
 */
module Conservacion {
  import opened Aritmetica
  import opened Datos
  import opened Inventario
  import opened Ventas
  import opened Corridas
  import opened Integridad
  import opened Sumas

  type Pesos = nat -> int

  // ---- Weights of the tables ----------------------------------------------------------------

  /** The weighted stock. */
  function PesoStock(w: Pesos, ps: seq<Producto>): int {
    if ps == [] then 0 else PesoStock(w, ps[..|ps| - 1]) + w(|ps| - 1) * ps[|ps| - 1].stock
  }

  function PesoLinea(w: Pesos): Linea -> int {
    (l: Linea) => w(l.producto) * l.cantidad
  }

  /** What a sale took out of stock and has not given back. */
  function PesoVenta(w: Pesos): Venta -> int {
    (v: Venta) => if v.anulada then 0 else Suma(PesoLinea(w), v.lineas)
  }

  function PesoMov(w: Pesos): MovStock -> int {
    (m: MovStock) => w(m.producto) * m.cantidad
  }

  function PesoAjuste(w: Pesos): MovStock -> int {
    (m: MovStock) => if m.tipo == AjusteManual then w(m.producto) * m.cantidad else 0
  }

  function PesoDesarme(w: Pesos): Desarme -> int {
    (d: Desarme) => w(d.hijo) * (d.padres * d.unidades) - w(d.padre) * d.padres
  }

  /** Stock less disassemblies less the movement log: what the log explains. */
  function SaldoDelLibro(w: Pesos, e: Existencias): int {
    PesoStock(w, e.productos) - Suma(PesoDesarme(w), e.desarmes) - Suma(PesoMov(w), e.movimientos)
  }

  /** The log less the adjustments, plus the live sales: what the sales explain. */
  function SaldoDeVentas(w: Pesos, s: Estado): int {
    Suma(PesoMov(w), s.ex.movimientos) - Suma(PesoAjuste(w), s.ex.movimientos) + Suma(PesoVenta(w), s.ventas)
  }

  lemma {:induction false} PesoStockSuma(w: Pesos, ps: seq<Producto>, i: nat, p: Producto)
    requires i < |ps|
    ensures PesoStock(w, ps[i := p]) == PesoStock(w, ps) + w(i) * (p.stock - ps[i].stock)
  {
    var n := |ps| - 1;
    if i == n {
      assert ps[i := p][..n] == ps[..n];
      Diferencia(w(i), p.stock, ps[i].stock);
    } else {
      assert ps[i := p][..n] == ps[..n][i := p];
      PesoStockSuma(w, ps[..n], i, p);
    }
  }

  lemma Diferencia(w: int, x: int, y: int)
    ensures w * (x - y) == w * x - w * y
  {
  }

  lemma PesoStockDelta(w: Pesos, ps: seq<Producto>, i: nat, delta: int)
    requires i < |ps|
    ensures PesoStock(w, SumarStock(ps, i, delta)) == PesoStock(w, ps) + w(i) * delta
  {
    PesoStockSuma(w, ps, i, ps[i].(stock := ps[i].stock + delta));
  }

  // ---- Stock operations ---------------------------------------------------------------------

  /** Every branch of DescontarStock, with or without a disassembly. */
  lemma DescontarPesa(w: Pesos, e: Existencias, vs: seq<Vinculo>, p: nat, cantidad: int)
    requires p < |e.productos| && VinculosValidos(vs, |e.productos|)
    ensures var r := DescontarStock(e, vs, p, cantidad);
            r.Some? && SaldoDelLibro(w, r.value) == SaldoDelLibro(w, e) - w(p) * cantidad
  {
    var ps := e.productos;
    var r := DescontarStock(e, vs, p, cantidad).value;
    PesoStockDelta(w, ps, p, -cantidad);
    Opuesto(w(p), cantidad);
    if r.desarmes != e.desarmes {
      var v := VinculoAuto(vs, p).value;
      var k := Techo(cantidad - ps[p].stock, v.unidades);
      DesarmePesa(w, ps, v.padre, p, k, k * v.unidades, cantidad);
      SumaAgrega(PesoDesarme(w), e.desarmes, Desarme(v.padre, p, v.unidades, k, |e.movimientos| + 1));
    }
  }

  lemma DesarmePesa(w: Pesos, ps: seq<Producto>, padre: nat, hijo: nat, k: int, m: int, c: int)
    requires padre < |ps| && hijo < |ps|
    ensures PesoStock(w, SumarStock(SumarStock(SumarStock(ps, padre, -k), hijo, m), hijo, -c)) ==
            PesoStock(w, ps) + (w(hijo) * m - w(padre) * k) - w(hijo) * c
  {
    PesoStockDelta(w, ps, padre, -k);
    PesoStockDelta(w, SumarStock(ps, padre, -k), hijo, m);
    PesoStockDelta(w, SumarStock(SumarStock(ps, padre, -k), hijo, m), hijo, -c);
    Opuesto(w(padre), k);
    Opuesto(w(hijo), c);
  }

  lemma AsentarPesa(w: Pesos, ms: seq<MovStock>, l: Linea, antes: int, venta: nat)
    ensures var m := MovStock(l.producto, VentaStock, -l.cantidad, antes, antes - l.cantidad, Some(venta));
            Suma(PesoMov(w), ms + [m]) == Suma(PesoMov(w), ms) - PesoLinea(w)(l) &&
            Suma(PesoAjuste(w), ms + [m]) == Suma(PesoAjuste(w), ms)
  {
    var m := MovStock(l.producto, VentaStock, -l.cantidad, antes, antes - l.cantidad, Some(venta));
    SumaAgrega(PesoMov(w), ms, m);
    SumaAgrega(PesoAjuste(w), ms, m);
    Opuesto(w(l.producto), l.cantidad);
  }

  lemma DescontarLineaPesa(w: Pesos, e: Existencias, vs: seq<Vinculo>, l: Linea, venta: nat)
    requires l.producto < |e.productos| && VinculosValidos(vs, |e.productos|)
    ensures var r := DescontarLinea(e, vs, l, venta);
            r.Some? && SaldoDelLibro(w, r.value) == SaldoDelLibro(w, e) &&
            Suma(PesoMov(w), r.value.movimientos) == Suma(PesoMov(w), e.movimientos) - PesoLinea(w)(l) &&
            Suma(PesoAjuste(w), r.value.movimientos) == Suma(PesoAjuste(w), e.movimientos)
  {
    DescontarPesa(w, e, vs, l.producto, l.cantidad);
    DescontarMarco(e, vs, l.producto, l.cantidad);
    AsentarPesa(w, e.movimientos, l, StockDe(e.productos, l.producto), venta);
  }

  lemma {:induction false} DescontarLineasPesa(w: Pesos, e: Existencias, vs: seq<Vinculo>, ls: seq<Linea>, venta: nat)
    requires LineasEn(ls, |e.productos|) && VinculosValidos(vs, |e.productos|)
    ensures var r := DescontarLineas(e, vs, ls, venta);
            r.Some? && SaldoDelLibro(w, r.value) == SaldoDelLibro(w, e) &&
            Suma(PesoMov(w), r.value.movimientos) == Suma(PesoMov(w), e.movimientos) - Suma(PesoLinea(w), ls) &&
            Suma(PesoAjuste(w), r.value.movimientos) == Suma(PesoAjuste(w), e.movimientos)
    decreases |ls|
  {
    if ls != [] {
      DescontarLineaPesa(w, e, vs, ls[0], venta);
      DescontarMarco(e, vs, ls[0].producto, ls[0].cantidad);
      DescontarLineasPesa(w, DescontarLinea(e, vs, ls[0], venta).value, vs, ls[1..], venta);
      SumaPrimero(PesoLinea(w), ls);
    }
  }

  lemma {:induction false} RestaurarLineasPesa(w: Pesos, e: Existencias, ls: seq<Linea>, venta: nat)
    requires LineasEn(ls, |e.productos|)
    ensures var r := RestaurarLineas(e, ls, venta);
            r.Some? && SaldoDelLibro(w, r.value) == SaldoDelLibro(w, e) &&
            Suma(PesoMov(w), r.value.movimientos) == Suma(PesoMov(w), e.movimientos) + Suma(PesoLinea(w), ls) &&
            Suma(PesoAjuste(w), r.value.movimientos) == Suma(PesoAjuste(w), e.movimientos)
    decreases |ls|
  {
    if ls != [] {
      var l := ls[0];
      var e1 := RestaurarLinea(e, l, venta).value;
      var m := e1.movimientos[|e.movimientos|];
      PesoStockDelta(w, e.productos, l.producto, l.cantidad);
      SumaAgrega(PesoMov(w), e.movimientos, m);
      SumaAgrega(PesoAjuste(w), e.movimientos, m);
      RestaurarLineasPesa(w, e1, ls[1..], venta);
      SumaPrimero(PesoLinea(w), ls);
    }
  }

  // ---- One operation --------------------------------------------------------------------------

  lemma VentaPesa(w: Pesos, s: Estado, r: Pedido, plan: Plan, s': Estado)
    requires Integro(s) && Acepto(s, r, plan, s')
    ensures SaldoDelLibro(w, s'.ex) == SaldoDelLibro(w, s.ex)
    ensures SaldoDeVentas(w, s') == SaldoDeVentas(w, s)
    ensures Suma(PesoAjuste(w), s'.ex.movimientos) == Suma(PesoAjuste(w), s.ex.movimientos)
  {
    DescontarLineasPesa(w, s.ex, s.vinculos, plan.lineas, |s.ventas|);
    SumaAgrega(PesoVenta(w), s.ventas, VentaDe(r, plan, s.ticket + 1));
  }

  lemma AnularPesa(w: Pesos, s: Estado, id: nat)
    requires Integro(s)
    ensures var s' := Paso(s, Anular(id));
            SaldoDelLibro(w, s'.ex) == SaldoDelLibro(w, s.ex) && SaldoDeVentas(w, s') == SaldoDeVentas(w, s)
  {
    if id < |s.ventas| && !s.ventas[id].anulada {
      var v := s.ventas[id];
      assert VentaIntegra(v, |s.ex.productos|, |s.sesiones|, s.ticket);
      RestaurarLineasPesa(w, s.ex, v.lineas, id);
      SumaReemplaza(PesoVenta(w), s.ventas, id, v.(anulada := true));
    }
  }

  lemma ManualPesa(w: Pesos, s: Estado, i: nat, n: int)
    requires Integro(s) && DesarmarManual(s, i, n).Ok?
    ensures var e' := DesarmarManual(s, i, n).value.ex;
            SaldoDelLibro(w, e') == SaldoDelLibro(w, s.ex)
  {
    var v := s.vinculos[i];
    var ps := s.ex.productos;
    PesoStockDelta(w, ps, v.padre, -n);
    PesoStockDelta(w, SumarStock(ps, v.padre, -n), v.hijo, n * v.unidades);
    SumaAgrega(PesoDesarme(w), s.ex.desarmes, Desarme(v.padre, v.hijo, v.unidades, n, |s.ex.movimientos|));
    Opuesto(w(v.padre), n);
  }

  lemma AjustePesa(w: Pesos, s: Estado, p: nat, delta: int)
    requires Ajustar(s, p, delta).Ok?
    ensures var s' := Ajustar(s, p, delta).value;
            SaldoDelLibro(w, s'.ex) == SaldoDelLibro(w, s.ex) && SaldoDeVentas(w, s') == SaldoDeVentas(w, s)
  {
    var m := Ajustar(s, p, delta).value.ex.movimientos[|s.ex.movimientos|];
    PesoStockDelta(w, s.ex.productos, p, delta);
    SumaAgrega(PesoMov(w), s.ex.movimientos, m);
    SumaAgrega(PesoAjuste(w), s.ex.movimientos, m);
  }

  lemma EditarPesa(w: Pesos, s: Estado, p: nat, precio: int, activo: bool)
    requires p < |s.ex.productos|
    ensures SaldoDelLibro(w, Editar(s, p, precio, activo).value.ex) == SaldoDelLibro(w, s.ex)
  {
    var prod := s.ex.productos[p];
    PesoStockSuma(w, s.ex.productos, p, prod.(precioVenta := precio, activo := activo));
  }

  /** No operation moves either balance, whatever the weights. */
  lemma PasoPesa(w: Pesos, s: Estado, op: Op)
    requires Integro(s)
    ensures SaldoDelLibro(w, Paso(s, op).ex) == SaldoDelLibro(w, s.ex)
    ensures SaldoDeVentas(w, Paso(s, op)) == SaldoDeVentas(w, s)
  {
    match op
    case Vender(r, sync) => VenderPesa(w, s, r, sync);
    case Anular(id) => AnularPesa(w, s, id);
    case DesarmeManual(i, n) => if DesarmarManual(s, i, n).Ok? { ManualPesa(w, s, i, n); }
    case AjustarStock(p, d) => if Ajustar(s, p, d).Ok? { AjustePesa(w, s, p, d); }
    case EditarProducto(p, precio, activo) => if p < |s.ex.productos| { EditarPesa(w, s, p, precio, activo); }
    case _ => SinStock(s, op);
  }

  lemma VenderPesa(w: Pesos, s: Estado, r: Pedido, sync: bool)
    requires Integro(s)
    ensures var s' := RegistrarVenta(s, r, sync).0;
            SaldoDelLibro(w, s'.ex) == SaldoDelLibro(w, s.ex) && SaldoDeVentas(w, s') == SaldoDeVentas(w, s)
  {
    FormaDeVenta(s, r, sync);
    if RegistrarVenta(s, r, sync).1.Aceptada? {
      VentaPesa(w, s, r, Planificar(s, r, sync).value, RegistrarVenta(s, r, sync).0);
    }
  }

  /** Links and the cash register touch neither stock nor sales. */
  lemma SinStock(s: Estado, op: Op)
    requires !op.Vender? && !op.Anular? && !op.DesarmeManual? && !op.AjustarStock? && !op.EditarProducto?
    ensures Paso(s, op).ex == s.ex && Paso(s, op).ventas == s.ventas
  {
  }

  // ---- Whole runs -----------------------------------------------------------------------------

  /** Both balances are constants of every run, for every weighting of the products. */
  lemma {:induction false} CorridaPesa(w: Pesos, s: Estado, ops: seq<Op>)
    requires Integro(s)
    ensures SaldoDelLibro(w, Correr(s, ops).ex) == SaldoDelLibro(w, s.ex)
    ensures SaldoDeVentas(w, Correr(s, ops)) == SaldoDeVentas(w, s)
    decreases |ops|
  {
    if ops != [] {
      PasoPesa(w, s, ops[0]);
      PasoGuarda(s, ops[0]);
      CorridaPesa(w, Paso(s, ops[0]), ops[1..]);
    }
  }

  /** One parent weighs as much as the units it opens into. */
  predicate Respeta(w: Pesos, vs: seq<Vinculo>) {
    forall v | v in vs :: w(v.padre) == v.unidades * w(v.hijo)
  }

  /** The weights respect the links in force before every operation of the run. */
  predicate RespetaSiempre(w: Pesos, s: Estado, ops: seq<Op>)
    decreases |ops|
  {
    ops == [] || (Respeta(w, s.vinculos) && RespetaSiempre(w, Paso(s, ops[0]), ops[1..]))
  }

  lemma DesarmeNulo(w: Pesos, v: Vinculo, n: int, desde: nat)
    requires w(v.padre) == v.unidades * w(v.hijo)
    ensures PesoDesarme(w)(Desarme(v.padre, v.hijo, v.unidades, n, desde)) == 0
  {
    var h, u := w(v.hijo), v.unidades as int;
    assert h * (n * u) == (u * h) * n;
  }

  lemma {:induction false} DescontarLineasRespeta(w: Pesos, e: Existencias, vs: seq<Vinculo>, ls: seq<Linea>, venta: nat)
    requires LineasEn(ls, |e.productos|) && VinculosValidos(vs, |e.productos|) && Respeta(w, vs)
    ensures var r := DescontarLineas(e, vs, ls, venta);
            r.Some? && Suma(PesoDesarme(w), r.value.desarmes) == Suma(PesoDesarme(w), e.desarmes)
    decreases |ls|
  {
    if ls != [] {
      var p := ls[0].producto;
      var e1 := DescontarLinea(e, vs, ls[0], venta).value;
      DescontarMarco(e, vs, p, ls[0].cantidad);
      if e1.desarmes != e.desarmes {
        var v := VinculoAuto(vs, p).value;
        var k := Techo(ls[0].cantidad - e.productos[p].stock, v.unidades);
        DesarmeNulo(w, v, k, |e.movimientos| + 1);
        SumaAgrega(PesoDesarme(w), e.desarmes, Desarme(v.padre, p, v.unidades, k, |e.movimientos| + 1));
      }
      DescontarLineasRespeta(w, e1, vs, ls[1..], venta);
    }
  }

  lemma {:induction false} AnularNoDesarma(s: Estado, id: nat)
    requires Integro(s)
    ensures Paso(s, Anular(id)).ex.desarmes == s.ex.desarmes
  {
    if id < |s.ventas| && !s.ventas[id].anulada {
      assert VentaIntegra(s.ventas[id], |s.ex.productos|, |s.sesiones|, s.ticket);
      RestaurarLineasMarco(s.ex, s.ventas[id].lineas, id);
    }
  }

  lemma PasoRespeta(w: Pesos, s: Estado, op: Op)
    requires Integro(s) && Respeta(w, s.vinculos)
    ensures Suma(PesoDesarme(w), Paso(s, op).ex.desarmes) == Suma(PesoDesarme(w), s.ex.desarmes)
  {
    if op.Vender? {
      FormaDeVenta(s, op.pedido, op.sync);
      if RegistrarVenta(s, op.pedido, op.sync).1.Aceptada? {
        DescontarLineasRespeta(w, s.ex, s.vinculos, Planificar(s, op.pedido, op.sync).value.lineas, |s.ventas|);
      }
    } else if op.DesarmeManual? && DesarmarManual(s, op.vinculo, op.padres).Ok? {
      var v := s.vinculos[op.vinculo];
      DesarmeNulo(w, v, op.padres, |s.ex.movimientos|);
      SumaAgrega(PesoDesarme(w), s.ex.desarmes, Desarme(v.padre, v.hijo, v.unidades, op.padres, |s.ex.movimientos|));
    } else if op.Anular? {
      AnularNoDesarma(s, op.venta);
    }
  }

  lemma {:induction false} CorridaRespeta(w: Pesos, s: Estado, ops: seq<Op>)
    requires Integro(s) && RespetaSiempre(w, s, ops)
    ensures Suma(PesoDesarme(w), Correr(s, ops).ex.desarmes) == Suma(PesoDesarme(w), s.ex.desarmes)
    decreases |ops|
  {
    if ops != [] {
      PasoRespeta(w, s, ops[0]);
      PasoGuarda(s, ops[0]);
      CorridaRespeta(w, Paso(s, ops[0]), ops[1..]);
    }
  }

  /**
   * Weighted conservation: if the weights respect the links, then over any run the weighted
   * stock is what it was, less the live sales, plus the adjustments, and the weighted stock
   * is the weighted total of the movement log up to a constant.
   */
  lemma ConservacionPonderada(w: Pesos, s: Estado, ops: seq<Op>)
    requires Integro(s) && RespetaSiempre(w, s, ops)
    ensures var s' := Correr(s, ops);
            PesoStock(w, s'.ex.productos) - PesoStock(w, s.ex.productos) ==
              (Suma(PesoAjuste(w), s'.ex.movimientos) - Suma(PesoAjuste(w), s.ex.movimientos)) -
              (Suma(PesoVenta(w), s'.ventas) - Suma(PesoVenta(w), s.ventas)) &&
            PesoStock(w, s'.ex.productos) - PesoStock(w, s.ex.productos) ==
              Suma(PesoMov(w), s'.ex.movimientos) - Suma(PesoMov(w), s.ex.movimientos)
  {
    CorridaPesa(w, s, ops);
    CorridaRespeta(w, s, ops);
  }

  // ---- One product --------------------------------------------------------------------------

  /** Weight one on product p, zero elsewhere. */
  function Solo(p: nat): Pesos {
    (i: nat) => if i == p then 1 else 0
  }

  function CantidadDe(p: nat): MovStock -> int {
    (m: MovStock) => if m.producto == p then m.cantidad else 0
  }

  /** The units of p a disassembly makes, less those it consumes. */
  function UnidadesDe(p: nat): Desarme -> int {
    (d: Desarme) => (if d.hijo == p then d.padres * d.unidades else 0) - (if d.padre == p then d.padres else 0)
  }

  lemma {:induction false} PesoSolo(p: nat, ps: seq<Producto>)
    ensures PesoStock(Solo(p), ps) == StockDe(ps, p)
  {
    if ps != [] {
      PesoSolo(p, ps[..|ps| - 1]);
    }
  }

  lemma SoloSuma(p: nat, e: Existencias)
    ensures Suma(PesoMov(Solo(p)), e.movimientos) == Suma(CantidadDe(p), e.movimientos)
    ensures Suma(PesoDesarme(Solo(p)), e.desarmes) == Suma(UnidadesDe(p), e.desarmes)
  {
    SumaIgual(PesoMov(Solo(p)), e.movimientos, CantidadDe(p), e.movimientos);
    SumaIgual(PesoDesarme(Solo(p)), e.desarmes, UnidadesDe(p), e.desarmes);
  }

  /**
   * The log explains each product's stock exactly up to the unlogged disassemblies: the
   * change of stock is the sum of the new movements plus the net disassembled units.
   */
  lemma LibroExacto(p: nat, s: Estado, ops: seq<Op>)
    requires Integro(s)
    ensures var s' := Correr(s, ops);
            StockDe(s'.ex.productos, p) - StockDe(s.ex.productos, p) ==
              (Suma(CantidadDe(p), s'.ex.movimientos) - Suma(CantidadDe(p), s.ex.movimientos)) +
              (Suma(UnidadesDe(p), s'.ex.desarmes) - Suma(UnidadesDe(p), s.ex.desarmes))
  {
    CorridaPesa(Solo(p), s, ops);
    PesoSolo(p, s.ex.productos);
    PesoSolo(p, Correr(s, ops).ex.productos);
    SoloSuma(p, s.ex);
    SoloSuma(p, Correr(s, ops).ex);
  }

  // ---- A sale and its annulment --------------------------------------------------------------

  /**
   * Annulling a sale at once gives every product back its stock, except for the units that
   * the sale disassembled: a parent opened for it is not put together again.
   */
  lemma AnularDevuelveStock(p: nat, s: Estado, r: Pedido, sync: bool)
    requires Integro(s)
    requires RegistrarVenta(s, r, sync).1.Aceptada?
    ensures var s1 := RegistrarVenta(s, r, sync).0;
            var s2 := AnularVenta(s1, |s.ventas|);
            s2.Ok? && s2.value.ventas[|s.ventas|].anulada &&
            StockDe(s2.value.ex.productos, p) - StockDe(s.ex.productos, p) ==
              Suma(UnidadesDe(p), s1.ex.desarmes) - Suma(UnidadesDe(p), s.ex.desarmes)
  {
    var s1 := RegistrarVenta(s, r, sync).0;
    FormaDeVenta(s, r, sync);
    VentaGuarda(s, r, Planificar(s, r, sync).value, s1);
    AnularGuarda(s1, |s.ventas|);
    var s2 := AnularVenta(s1, |s.ventas|).value;
    assert s2 == Paso(s1, Anular(|s.ventas|));
    var w := Solo(p);
    VentaPesa(w, s, r, Planificar(s, r, sync).value, s1);
    AnularPesa(w, s1, |s.ventas|);
    AnularNoDesarma(s1, |s.ventas|);
    PesoSolo(p, s.ex.productos);
    PesoSolo(p, s2.ex.productos);
    SoloSuma(p, s.ex);
    SoloSuma(p, s2.ex);
    SumaAgrega(PesoVenta(w), s.ventas, s1.ventas[|s.ventas|]);
    SumaReemplaza(PesoVenta(w), s1.ventas, |s.ventas|, s2.ventas[|s.ventas|]);
    AnularSinAjuste(w, s1, |s.ventas|);
  }

  lemma AnularSinAjuste(w: Pesos, s: Estado, id: nat)
    requires Integro(s)
    ensures Suma(PesoAjuste(w), Paso(s, Anular(id)).ex.movimientos) == Suma(PesoAjuste(w), s.ex.movimientos)
  {
    if id < |s.ventas| && !s.ventas[id].anulada {
      assert VentaIntegra(s.ventas[id], |s.ex.productos|, |s.sesiones|, s.ticket);
      RestaurarLineasPesa(w, s.ex, s.ventas[id].lineas, id);
    }
  }
}
