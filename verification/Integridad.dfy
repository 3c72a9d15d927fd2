/** What every operation keeps true of the store's tables. */
module Integridad {
  import opened Datos
  import opened Inventario
  import opened Ventas
  import opened Corridas
  import opened Sumas
  import Caja
  import Desvio

  // ---- The invariant ------------------------------------------------------------------------

  predicate LineasEn(ls: seq<Linea>, n: nat) {
    forall i | 0 <= i < |ls| :: ls[i].producto < n
  }

  predicate VentaIntegra(v: Venta, productos: nat, sesiones: nat, ticket: nat) {
    && LineasEn(v.lineas, productos)
    && v.sesion < sesiones
    && 1 <= v.ticket <= ticket
    && v.total <= Suma(MontoDe, v.pagos)
  }

  predicate VentasIntegras(vs: seq<Venta>, productos: nat, sesiones: nat, ticket: nat) {
    forall i | 0 <= i < |vs| :: VentaIntegra(vs[i], productos, sesiones, ticket)
  }

  /** Tickets are handed out in order, so no two sales share one. */
  predicate TicketsCrecientes(vs: seq<Venta>) {
    forall i, j | 0 <= i < j < |vs| :: vs[i].ticket < vs[j].ticket
  }

  /** Each offline_id owns at most one sale. */
  predicate OfflineUnicos(vs: seq<Venta>) {
    forall i, j | 0 <= i < j < |vs| && vs[i].offlineId.Some? :: vs[i].offlineId != vs[j].offlineId
  }

  /** A session has closing data exactly when it is closed, and is never critical in silence. */
  predicate SesionIntegra(x: Sesion) {
    && (x.abierta <==> x.cierre.None?)
    && (x.cierre.Some? ==>
          && x.cierre.value.desvio == x.cierre.value.declarado.Total() - x.cierre.value.esperado
          && x.cierre.value.porcentaje == Desvio.Porcentaje(x.cierre.value.desvio, x.cierre.value.esperado)
          && x.cierre.value.clase == Desvio.ClasificarDesvio(x.cierre.value.porcentaje)
          && (x.cierre.value.clase == Desvio.Critico ==> !Caja.SinObservaciones(x.cierre.value.observaciones)))
  }

  predicate SesionesIntegras(ss: seq<Sesion>) {
    forall i | 0 <= i < |ss| :: SesionIntegra(ss[i])
  }

  /** At most one open session per point of sale. */
  predicate UnaAbiertaPorPDV(ss: seq<Sesion>) {
    forall i, j | 0 <= i < j < |ss| && ss[i].abierta && ss[j].abierta :: ss[i].puntoDeVenta != ss[j].puntoDeVenta
  }

  predicate MovimientosIntegros(ms: seq<MovStock>) {
    forall i | 0 <= i < |ms| :: ms[i].nuevo == ms[i].anterior + ms[i].cantidad
  }

  predicate Integro(s: Estado) {
    && VinculosValidos(s.vinculos, |s.ex.productos|)
    && VentasIntegras(s.ventas, |s.ex.productos|, |s.sesiones|, s.ticket)
    && TicketsCrecientes(s.ventas)
    && OfflineUnicos(s.ventas)
    && SesionesIntegras(s.sesiones)
    && UnaAbiertaPorPDV(s.sesiones)
    && MovimientosIntegros(s.ex.movimientos)
  }

  // ---- Frames of the stock operations -------------------------------------------------------

  /** Same products at the same prices; only stock may differ. */
  predicate MismosDatos(ps: seq<Producto>, qs: seq<Producto>) {
    |ps| == |qs| && forall i | 0 <= i < |ps| :: ps[i] == qs[i].(stock := ps[i].stock)
  }

  lemma DescontarMarco(e: Existencias, vs: seq<Vinculo>, p: nat, cantidad: int)
    requires p < |e.productos| && VinculosValidos(vs, |e.productos|)
    ensures var r := DescontarStock(e, vs, p, cantidad);
            r.Some? && MismosDatos(r.value.productos, e.productos) && r.value.movimientos == e.movimientos
  {
  }

  lemma {:induction false} DescontarLineasMarco(e: Existencias, vs: seq<Vinculo>, ls: seq<Linea>, venta: nat)
    requires LineasEn(ls, |e.productos|) && VinculosValidos(vs, |e.productos|)
    requires MovimientosIntegros(e.movimientos)
    ensures var r := DescontarLineas(e, vs, ls, venta);
            r.Some? && MismosDatos(r.value.productos, e.productos) && MovimientosIntegros(r.value.movimientos)
    decreases |ls|
  {
    if ls != [] {
      DescontarMarco(e, vs, ls[0].producto, ls[0].cantidad);
      DescontarLineasMarco(DescontarLinea(e, vs, ls[0], venta).value, vs, ls[1..], venta);
    }
  }

  lemma {:induction false} RestaurarLineasMarco(e: Existencias, ls: seq<Linea>, venta: nat)
    requires LineasEn(ls, |e.productos|)
    requires MovimientosIntegros(e.movimientos)
    ensures var r := RestaurarLineas(e, ls, venta);
            r.Some? && MismosDatos(r.value.productos, e.productos) && MovimientosIntegros(r.value.movimientos) &&
            r.value.desarmes == e.desarmes
    decreases |ls|
  {
    if ls != [] {
      RestaurarLineasMarco(RestaurarLinea(e, ls[0], venta).value, ls[1..], venta);
    }
  }

  // ---- The shape of a sale ------------------------------------------------------------------

  /** s' is s after accepting r with this plan. */
  predicate Acepto(s: Estado, r: Pedido, plan: Plan, s': Estado) {
    && r.sesion < |s.sesiones| && s.sesiones[r.sesion].abierta
    && !Registrado(s.ventas, r.offlineId)
    && LineasEn(plan.lineas, |s.ex.productos|)
    && plan.total <= Suma(MontoDe, r.pagos)
    && DescontarLineas(s.ex, s.vinculos, plan.lineas, |s.ventas|) == Some(s'.ex)
    && s' == Estado(s'.ex, s.vinculos, s.ventas + [VentaDe(r, plan, s.ticket + 1)], s.sesiones,
                    s.caja + MovimientosDePago(r.sesion, VentaCaja, 1, r.pagos, |s.ventas|), s.ticket + 1)
  }

  lemma PlanUbicado(s: Estado, r: Pedido, sync: bool)
    ensures var p := Planificar(s, r, sync);
            p.Ok? ==> LineasEn(p.value.lineas, |s.ex.productos|) && |p.value.lineas| == |r.items| &&
                      p.value.total <= Suma(MontoDe, r.pagos) &&
                      forall i | 0 <= i < |r.items| ::
                        r.items[i].producto < |s.ex.productos| && p.value.lineas[i] == LineaDe(s.ex.productos, r.items[i])
  {
    if Planificar(s, r, sync).Ok? {
      assert forall i | 0 <= i < |r.items| :: ErrorDeItem(s.ex.productos, s.vinculos, r.items[i], sync).None?;
    }
  }

  /** A sale is accepted with its plan, or leaves the store untouched. */
  lemma FormaDeVenta(s: Estado, r: Pedido, sync: bool)
    requires Integro(s)
    ensures var (s', resp) := RegistrarVenta(s, r, sync);
            if resp.Aceptada? then
              Planificar(s, r, sync).Ok? && Acepto(s, r, Planificar(s, r, sync).value, s') &&
              resp.id == |s.ventas| && resp.vuelto >= 0
            else s' == s
  {
    PlanUbicado(s, r, sync);
    if Planificar(s, r, sync).Ok? {
      DescontarLineasMarco(s.ex, s.vinculos, Planificar(s, r, sync).value.lineas, |s.ventas|);
    }
  }

  // ---- Preservation -------------------------------------------------------------------------

  lemma VentaAcumula(vs: seq<Venta>, v: Venta, productos: nat, sesiones: nat, ticket: nat)
    requires VentasIntegras(vs, productos, sesiones, ticket) && TicketsCrecientes(vs) && OfflineUnicos(vs)
    requires VentaIntegra(v, productos, sesiones, ticket + 1) && v.ticket == ticket + 1
    requires !Registrado(vs, v.offlineId)
    ensures VentasIntegras(vs + [v], productos, sesiones, ticket + 1)
    ensures TicketsCrecientes(vs + [v]) && OfflineUnicos(vs + [v])
  {
    forall i | 0 <= i < |vs| ensures VentaIntegra((vs + [v])[i], productos, sesiones, ticket + 1) {
      assert VentaIntegra(vs[i], productos, sesiones, ticket);
    }
    forall i, j | 0 <= i < j < |vs + [v]| ensures (vs + [v])[i].ticket < (vs + [v])[j].ticket {
      assert VentaIntegra(vs[i], productos, sesiones, ticket);
    }
    forall i | 0 <= i < |vs| && vs[i].offlineId.Some? ensures vs[i].offlineId != v.offlineId {
      assert vs[i] in vs;
    }
  }

  lemma VentaGuarda(s: Estado, r: Pedido, plan: Plan, s': Estado)
    requires Integro(s) && Acepto(s, r, plan, s')
    ensures Integro(s')
  {
    DescontarLineasMarco(s.ex, s.vinculos, plan.lineas, |s.ventas|);
    VentaAcumula(s.ventas, VentaDe(r, plan, s.ticket + 1), |s.ex.productos|, |s.sesiones|, s.ticket);
  }

  /** The transaction of an annulment keeps the tables, even when run twice. */
  lemma TxAnularGuarda(s: Estado, id: nat)
    requires Integro(s) && id < |s.ventas|
    ensures TxAnular(s, id).Some? && Integro(TxAnular(s, id).value)
  {
    assert VentaIntegra(s.ventas[id], |s.ex.productos|, |s.sesiones|, s.ticket);
    RestaurarLineasMarco(s.ex, s.ventas[id].lineas, id);
    var s' := TxAnular(s, id).value;
    assert forall i | 0 <= i < |s.ventas| :: s'.ventas[i] == s.ventas[i].(anulada := s'.ventas[i].anulada);
    forall i | 0 <= i < |s.ventas| ensures VentaIntegra(s'.ventas[i], |s.ex.productos|, |s.sesiones|, s.ticket) {
      assert VentaIntegra(s.ventas[i], |s.ex.productos|, |s.sesiones|, s.ticket);
    }
  }

  lemma AnularGuarda(s: Estado, id: nat)
    requires Integro(s)
    ensures Integro(Paso(s, Anular(id)))
    ensures id < |s.ventas| && !s.ventas[id].anulada ==> AnularVenta(s, id).Ok?
  {
    if id < |s.ventas| && !s.ventas[id].anulada {
      TxAnularGuarda(s, id);
    }
  }

  lemma AbrirGuarda(s: Estado, pdv: int, usuario: nat, monto: int)
    requires Integro(s)
    ensures Integro(Caja.Abrir(s, pdv, usuario, monto).0)
  {
    var s' := Caja.Abrir(s, pdv, usuario, monto).0;
    forall i | 0 <= i < |s.ventas| ensures VentaIntegra(s.ventas[i], |s.ex.productos|, |s'.sesiones|, s.ticket) {
      assert VentaIntegra(s.ventas[i], |s.ex.productos|, |s.sesiones|, s.ticket);
    }
  }

  lemma ArqueoGuarda(s: Estado, objetivo: Option<nat>, usuario: Option<nat>, declarado: Montos, obs: Option<string>)
    requires Integro(s)
    ensures Integro(Tras(s, Caja.Arqueo(s, objetivo, usuario, declarado, obs)))
  {
    var s' := Tras(s, Caja.Arqueo(s, objetivo, usuario, declarado, obs));
    assert |s'.sesiones| == |s.sesiones|;
    forall i | 0 <= i < |s'.sesiones| ensures SesionIntegra(s'.sesiones[i]) {
      assert SesionIntegra(s.sesiones[i]);
    }
  }

  lemma VinculosGuardan(s: Estado, op: Op)
    requires Integro(s)
    requires op.CrearVinculo? || op.ActualizarVinculo? || op.EliminarVinculo?
    ensures Integro(Paso(s, op))
  {
    var s' := Paso(s, op);
    forall v | v in s'.vinculos
      ensures v.padre < |s.ex.productos| && v.hijo < |s.ex.productos| && v.padre != v.hijo
    {
      if op.ActualizarVinculo? && op.vinculo < |s.vinculos| {
        assert s.vinculos[op.vinculo] in s.vinculos;
      }
    }
  }

  /** Stock may move freely: the other tables rely on the number of products only. */
  lemma StockGuarda(s: Estado, op: Op)
    requires Integro(s)
    requires op.DesarmeManual? || op.AjustarStock? || op.EditarProducto? || op.MovimientoManual?
    ensures Integro(Paso(s, op))
  {
    StockMarco(s, op);
  }

  lemma StockMarco(s: Estado, op: Op)
    requires MovimientosIntegros(s.ex.movimientos)
    requires op.DesarmeManual? || op.AjustarStock? || op.EditarProducto? || op.MovimientoManual?
    ensures var s' := Paso(s, op);
            |s'.ex.productos| == |s.ex.productos| && MovimientosIntegros(s'.ex.movimientos) &&
            s'.vinculos == s.vinculos && s'.ventas == s.ventas && s'.sesiones == s.sesiones && s'.ticket == s.ticket
  {
  }

  /** Every operation keeps the store intact. */
  lemma PasoGuarda(s: Estado, op: Op)
    requires Integro(s)
    ensures Integro(Paso(s, op))
  {
    match op
    case Vender(r, sync) =>
      FormaDeVenta(s, r, sync);
      if RegistrarVenta(s, r, sync).1.Aceptada? {
        VentaGuarda(s, r, Planificar(s, r, sync).value, RegistrarVenta(s, r, sync).0);
      }
    case Anular(id) => AnularGuarda(s, id);
    case AbrirCaja(pdv, usuario, monto) => AbrirGuarda(s, pdv, usuario, monto);
    case ArqueoCaja(i, u, declarado, obs) => ArqueoGuarda(s, i, u, declarado, obs);
    case CrearVinculo(_, _, _, _, _) => VinculosGuardan(s, op);
    case ActualizarVinculo(_, _, _) => VinculosGuardan(s, op);
    case EliminarVinculo(_) => VinculosGuardan(s, op);
    case DesarmeManual(_, _) => StockGuarda(s, op);
    case AjustarStock(_, _) => StockGuarda(s, op);
    case EditarProducto(_, _, _) => StockGuarda(s, op);
    case MovimientoManual(_, _, _, _) => StockGuarda(s, op);
  }

  /** Every run keeps the store intact. */
  lemma {:induction false} CorridaGuarda(s: Estado, ops: seq<Op>)
    requires Integro(s)
    ensures Integro(Correr(s, ops))
    decreases |ops|
  {
    if ops != [] {
      PasoGuarda(s, ops[0]);
      CorridaGuarda(Paso(s, ops[0]), ops[1..]);
    }
  }
}
