/**
 * The movement log, entry by entry: the StockAnterior each movement recorded is the stock its
 * product really had, which the earlier movements and the disassemblies before it explain.
 */
module Bitacora {
  import opened Datos
  import opened Inventario
  import opened Ventas
  import opened Corridas
  import opened Integridad
  import opened Conservacion
  import opened Sumas

  /** A disassembly weighs only on the movements that see it. */
  function PesoHasta(w: Pesos, k: int): Desarme -> int {
    (d: Desarme) => if d.desde <= k then PesoDesarme(w)(d) else 0
  }

  /** The stock of p that the first k movements and the disassemblies seen by then explain. */
  function StockSegun(ini: Pesos, e: Existencias, p: nat, k: nat): int
    requires k <= |e.movimientos|
  {
    ini(p) + Suma(PesoMov(Solo(p)), e.movimientos[..k]) + Suma(PesoHasta(Solo(p), k), e.desarmes)
  }

  /** Every recorded StockAnterior is the explained stock, and so is today's stock. */
  ghost predicate Historico(ini: Pesos, e: Existencias) {
    && (forall p: nat :: SaldoDelLibro(Solo(p), e) == ini(p))
    && (forall i | 0 <= i < |e.desarmes| :: e.desarmes[i].desde <= |e.movimientos|)
    && (forall k | 0 <= k < |e.movimientos| ::
          e.movimientos[k].anterior == StockSegun(ini, e, e.movimientos[k].producto, k))
  }

  lemma {:induction false} TodosVistos(w: Pesos, ds: seq<Desarme>, k: int)
    requires forall i | 0 <= i < |ds| :: ds[i].desde <= k
    ensures Suma(PesoHasta(w, k), ds) == Suma(PesoDesarme(w), ds)
  {
    SumaIgual(PesoHasta(w, k), ds, PesoDesarme(w), ds);
  }

  /** Today's stock is the one the whole log explains. */
  lemma StockDeHoy(ini: Pesos, e: Existencias, p: nat)
    requires Historico(ini, e)
    ensures StockDe(e.productos, p) == StockSegun(ini, e, p, |e.movimientos|)
  {
    assert SaldoDelLibro(Solo(p), e) == ini(p);
    PesoSolo(p, e.productos);
    TodosVistos(Solo(p), e.desarmes, |e.movimientos|);
    assert e.movimientos[..|e.movimientos|] == e.movimientos;
  }

  /** Later movements, and disassemblies they alone see, do not change an earlier reading. */
  lemma LecturaEstable(ini: Pesos, e: Existencias, e': Existencias, p: nat, k: nat)
    requires k <= |e.movimientos| && e.movimientos <= e'.movimientos && e.desarmes <= e'.desarmes
    requires forall i | |e.desarmes| <= i < |e'.desarmes| :: e'.desarmes[i].desde > k
    ensures StockSegun(ini, e', p, k) == StockSegun(ini, e, p, k)
  {
    assert e'.movimientos[..k] == e.movimientos[..k];
    var nuevos := e'.desarmes[|e.desarmes|..];
    assert e'.desarmes == e.desarmes + nuevos;
    SumaNula(PesoHasta(Solo(p), k), nuevos);
    SumaConcatena(PesoHasta(Solo(p), k), e.desarmes, nuevos);
  }

  /** Logging one movement with the real stock, after which its own disassembly is seen. */
  lemma AgregaMovimiento(ini: Pesos, e: Existencias, e': Existencias, m: MovStock)
    requires Historico(ini, e) && forall p: nat :: SaldoDelLibro(Solo(p), e') == SaldoDelLibro(Solo(p), e)
    requires e'.movimientos == e.movimientos + [m] && m.anterior == StockDe(e.productos, m.producto)
    requires e.desarmes <= e'.desarmes
    requires forall i | |e.desarmes| <= i < |e'.desarmes| :: e'.desarmes[i].desde == |e'.movimientos|
    ensures Historico(ini, e')
  {
    StockDeHoy(ini, e, m.producto);
    forall k | 0 <= k < |e'.movimientos|
      ensures e'.movimientos[k].anterior == StockSegun(ini, e', e'.movimientos[k].producto, k)
    {
      LecturaEstable(ini, e, e', e'.movimientos[k].producto, k);
    }
    forall p: nat ensures SaldoDelLibro(Solo(p), e') == ini(p) {
      assert SaldoDelLibro(Solo(p), e) == ini(p);
    }
  }

  /** An unlogged change: the next movement is the first to see its disassembly. */
  lemma SinMovimiento(ini: Pesos, e: Existencias, e': Existencias)
    requires Historico(ini, e) && forall p: nat :: SaldoDelLibro(Solo(p), e') == SaldoDelLibro(Solo(p), e)
    requires e'.movimientos == e.movimientos && e.desarmes <= e'.desarmes
    requires forall i | |e.desarmes| <= i < |e'.desarmes| :: e'.desarmes[i].desde == |e.movimientos|
    ensures Historico(ini, e')
  {
    forall k | 0 <= k < |e'.movimientos|
      ensures e'.movimientos[k].anterior == StockSegun(ini, e', e'.movimientos[k].producto, k)
    {
      LecturaEstable(ini, e, e', e'.movimientos[k].producto, k);
    }
    forall p: nat ensures SaldoDelLibro(Solo(p), e') == ini(p) {
      assert SaldoDelLibro(Solo(p), e) == ini(p);
    }
  }

  lemma {:induction false} DescontarLineasHistorico(ini: Pesos, e: Existencias, vs: seq<Vinculo>, ls: seq<Linea>, venta: nat)
    requires Historico(ini, e) && LineasEn(ls, |e.productos|) && VinculosValidos(vs, |e.productos|)
    ensures var r := DescontarLineas(e, vs, ls, venta);
            r.Some? && Historico(ini, r.value)
    decreases |ls|
  {
    if ls != [] {
      DescontarMarco(e, vs, ls[0].producto, ls[0].cantidad);
      var e1 := DescontarLinea(e, vs, ls[0], venta).value;
      forall p: nat ensures SaldoDelLibro(Solo(p), e1) == SaldoDelLibro(Solo(p), e) {
        DescontarLineaPesa(Solo(p), e, vs, ls[0], venta);
      }
      AgregaMovimiento(ini, e, e1, e1.movimientos[|e.movimientos|]);
      DescontarLineasHistorico(ini, e1, vs, ls[1..], venta);
    }
  }

  lemma RestaurarLineaPesa(w: Pesos, e: Existencias, l: Linea, venta: nat)
    requires l.producto < |e.productos|
    ensures SaldoDelLibro(w, RestaurarLinea(e, l, venta).value) == SaldoDelLibro(w, e)
  {
    RestaurarLineasPesa(w, e, [l], venta);
    assert RestaurarLineas(e, [l], venta) == RestaurarLineas(RestaurarLinea(e, l, venta).value, [], venta);
  }

  lemma {:induction false} RestaurarLineasHistorico(ini: Pesos, e: Existencias, ls: seq<Linea>, venta: nat)
    requires Historico(ini, e) && LineasEn(ls, |e.productos|)
    ensures var r := RestaurarLineas(e, ls, venta);
            r.Some? && Historico(ini, r.value)
    decreases |ls|
  {
    if ls != [] {
      var e1 := RestaurarLinea(e, ls[0], venta).value;
      forall p: nat ensures SaldoDelLibro(Solo(p), e1) == SaldoDelLibro(Solo(p), e) {
        RestaurarLineaPesa(Solo(p), e, ls[0], venta);
      }
      AgregaMovimiento(ini, e, e1, e1.movimientos[|e.movimientos|]);
      RestaurarLineasHistorico(ini, e1, ls[1..], venta);
    }
  }

  lemma SaldosIguales(s: Estado, op: Op)
    requires Integro(s)
    ensures forall p: nat :: SaldoDelLibro(Solo(p), Paso(s, op).ex) == SaldoDelLibro(Solo(p), s.ex)
  {
    forall p: nat ensures SaldoDelLibro(Solo(p), Paso(s, op).ex) == SaldoDelLibro(Solo(p), s.ex) {
      PasoPesa(Solo(p), s, op);
    }
  }

  lemma PasoHistorico(ini: Pesos, s: Estado, op: Op)
    requires Integro(s) && Historico(ini, s.ex)
    ensures Historico(ini, Paso(s, op).ex)
  {
    var e, e' := s.ex, Paso(s, op).ex;
    match op
    case Vender(r, sync) => VenderHistorico(ini, s, r, sync);
    case Anular(id) => AnularHistorico(ini, s, id);
    case AjustarStock(p, d) => if Ajustar(s, p, d).Ok? {
      SaldosIguales(s, op);
      AgregaMovimiento(ini, e, e', e'.movimientos[|e.movimientos|]);
    }
    case _ =>
      SaldosIguales(s, op);
      SoloDesarma(s, op);
      SinMovimiento(ini, e, e');
  }

  /** The other operations log nothing; a manual disassembly is seen by the next movement. */
  lemma SoloDesarma(s: Estado, op: Op)
    requires !op.Vender? && !op.Anular? && !op.AjustarStock?
    ensures var e, e' := s.ex, Paso(s, op).ex;
            e'.movimientos == e.movimientos && e.desarmes <= e'.desarmes &&
            forall i | |e.desarmes| <= i < |e'.desarmes| :: e'.desarmes[i].desde == |e.movimientos|
  {
  }

  lemma VenderHistorico(ini: Pesos, s: Estado, r: Pedido, sync: bool)
    requires Integro(s) && Historico(ini, s.ex)
    ensures Historico(ini, RegistrarVenta(s, r, sync).0.ex)
  {
    FormaDeVenta(s, r, sync);
    if RegistrarVenta(s, r, sync).1.Aceptada? {
      DescontarLineasHistorico(ini, s.ex, s.vinculos, Planificar(s, r, sync).value.lineas, |s.ventas|);
    }
  }

  lemma AnularHistorico(ini: Pesos, s: Estado, id: nat)
    requires Integro(s) && Historico(ini, s.ex)
    ensures Historico(ini, Paso(s, Anular(id)).ex)
  {
    if id < |s.ventas| && !s.ventas[id].anulada {
      assert VentaIntegra(s.ventas[id], |s.ex.productos|, |s.sesiones|, s.ticket);
      RestaurarLineasHistorico(ini, s.ex, s.ventas[id].lineas, id);
    }
  }

  /** From a store with an empty log, every movement of every run recorded the real stock. */
  lemma {:induction false} AnterioresExactos(ini: Pesos, s: Estado, ops: seq<Op>)
    requires Integro(s) && Historico(ini, s.ex)
    ensures Historico(ini, Correr(s, ops).ex)
    decreases |ops|
  {
    if ops != [] {
      PasoHistorico(ini, s, ops[0]);
      PasoGuarda(s, ops[0]);
      AnterioresExactos(ini, Paso(s, ops[0]), ops[1..]);
    }
  }

  /** A new store, with its opening stock and nothing logged, is where such a run begins. */
  lemma NuevoHistorico(ps: seq<Producto>)
    ensures Historico((p: nat) => StockDe(ps, p), Existencias(ps, [], []))
  {
    forall p: nat ensures SaldoDelLibro(Solo(p), Existencias(ps, [], [])) == StockDe(ps, p) {
      PesoSolo(p, ps);
    }
  }
}
