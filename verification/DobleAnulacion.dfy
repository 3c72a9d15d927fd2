/**
 * Interleaved annulments.  The check that a sale is not yet annulled is outside the
 * transaction, so two terminals may annul the same sale.
 */
module DobleAnulacion {
  import opened Datos
  import opened Ventas
  import opened Caja
  import opened Integridad
  import opened Conservacion
  import opened LibroDeCaja
  import opened Concurrencia
  import opened Sumas

  // ---- The tables under any interleaving ------------------------------------------------------

  /** What was true of the store when the work was read, and still is. */
  predicate PendienteIntegro(s: Estado, x: Pendiente) {
    match x
    case PVenta(r, plan, sync) =>
      && r.sesion < |s.sesiones| && s.sesiones[r.sesion].abierta
      && LineasEn(plan.lineas, |s.ex.productos|) && plan.total <= Suma(MontoDe, r.pagos)
    case PAnular(id) => id < |s.ventas|
  }

  predicate SistemaIntegro(m: Sistema) {
    Integro(m.s) && forall i | 0 <= i < |m.pendientes| :: PendienteIntegro(m.s, m.pendientes[i])
  }

  /** The sizes and sessions that pending work relies on do not shrink. */
  predicate Sostiene(s: Estado, s': Estado) {
    |s'.ex.productos| == |s.ex.productos| && s'.sesiones == s.sesiones && |s.ventas| <= |s'.ventas|
  }

  /** A commit of a sale is rejected without trace but for the ticket, or accepted with its plan. */
  lemma ConfirmarVentaForma(s: Estado, r: Pedido, plan: Plan, sync: bool)
    requires Integro(s) && PendienteIntegro(s, PVenta(r, plan, sync))
    ensures var (s', resp) := TxVenta(s, r, plan, sync);
            if resp.Aceptada? then Acepto(s, r, plan, s') else s' == s.(ticket := s'.ticket) && s'.ticket <= s.ticket + 1
    ensures TxVenta(s, r, plan, sync).0.ticket >= s.ticket
  {
  }

  lemma TicketGuarda(s: Estado, ticket: nat)
    requires Integro(s) && s.ticket <= ticket
    ensures Integro(s.(ticket := ticket))
  {
    forall i | 0 <= i < |s.ventas| ensures VentaIntegra(s.ventas[i], |s.ex.productos|, |s.sesiones|, ticket) {
      assert VentaIntegra(s.ventas[i], |s.ex.productos|, |s.sesiones|, s.ticket);
    }
  }

  /** The state after committing one piece of work. */
  function TrasConfirmar(s: Estado, x: Pendiente): Estado {
    match x
    case PVenta(r, plan, sync) => TxVenta(s, r, plan, sync).0
    case PAnular(id) =>
      if id >= |s.ventas| then s
      else
        match TxAnular(s, id)
        case None => s
        case Some(s') => s'
  }

  lemma ConfirmarGuarda(s: Estado, x: Pendiente)
    requires Integro(s) && PendienteIntegro(s, x)
    ensures Integro(TrasConfirmar(s, x)) && Sostiene(s, TrasConfirmar(s, x))
  {
    match x
    case PVenta(r, plan, sync) =>
      ConfirmarVentaForma(s, r, plan, sync);
      var (s', resp) := TxVenta(s, r, plan, sync);
      if resp.Aceptada? {
        VentaGuarda(s, r, plan, s');
        DescontarLineasMarco(s.ex, s.vinculos, plan.lineas, |s.ventas|);
      } else {
        TicketGuarda(s, s'.ticket);
      }
    case PAnular(id) =>
      TxAnularGuarda(s, id);
      assert VentaIntegra(s.ventas[id], |s.ex.productos|, |s.sesiones|, s.ticket);
      RestaurarLineasMarco(s.ex, s.ventas[id].lineas, id);
  }

  lemma LeerIntegro(m: Sistema, r: Pedido, sync: bool)
    requires SistemaIntegro(m)
    ensures SistemaIntegro(Suceder(m, Leer(r, sync))) && Suceder(m, Leer(r, sync)).s == m.s
  {
    PlanUbicado(m.s, r, sync);
  }

  lemma ConfirmarIntegro(m: Sistema, i: nat)
    requires SistemaIntegro(m) && i < |m.pendientes|
    ensures SistemaIntegro(Suceder(m, Confirmar(i)))
    ensures Suceder(m, Confirmar(i)).s == TrasConfirmar(m.s, m.pendientes[i])
  {
    assert PendienteIntegro(m.s, m.pendientes[i]);
    ConfirmarGuarda(m.s, m.pendientes[i]);
    var m' := Suceder(m, Confirmar(i));
    forall j | 0 <= j < |m'.pendientes| ensures PendienteIntegro(m'.s, m'.pendientes[j]) {
      assert m'.pendientes[j] in m.pendientes;
    }
  }

  lemma SucederIntegro(m: Sistema, ev: Evento)
    requires SistemaIntegro(m)
    ensures SistemaIntegro(Suceder(m, ev))
  {
    match ev
    case Leer(r, sync) => LeerIntegro(m, r, sync);
    case LeerAnulacion(_) =>
    case Confirmar(i) => if i < |m.pendientes| { ConfirmarIntegro(m, i); }
  }

  /** Every interleaving keeps the tables, double annulments included. */
  lemma {:induction false} SiempreIntegro(m: Sistema, evs: seq<Evento>)
    requires SistemaIntegro(m)
    ensures SistemaIntegro(Ejecutar(m, evs))
    decreases |evs|
  {
    if evs != [] {
      SucederIntegro(m, evs[0]);
      SiempreIntegro(Suceder(m, evs[0]), evs[1..]);
    }
  }

  // ---- What a second annulment adds ----------------------------------------------------------

  /** The sale whose annulment this event commits again, if it does. */
  function Repetida(m: Sistema, ev: Evento): Option<Venta> {
    if ev.Confirmar? && ev.i < |m.pendientes| && m.pendientes[ev.i].PAnular? &&
       m.pendientes[ev.i].venta < |m.s.ventas| && m.s.ventas[m.pendientes[ev.i].venta].anulada
    then Some(m.s.ventas[m.pendientes[ev.i].venta]) else None
  }

  /** The sales annulled again over a run, once for each time. */
  function Repetidas(m: Sistema, evs: seq<Evento>): seq<Venta>
    decreases |evs|
  {
    if evs == [] then []
    else
      (match Repetida(m, evs[0]) case None => [] case Some(v) => [v]) + Repetidas(Suceder(m, evs[0]), evs[1..])
  }

  /** The weight of everything a sale took out of stock. */
  function PesoLineas(w: Pesos): Venta -> int {
    (v: Venta) => Suma(PesoLinea(w), v.lineas)
  }

  /** What a sale was paid with one method, if it is of the session. */
  function PagadoEn(sesion: nat, metodo: Metodo): Venta -> int {
    (v: Venta) => if v.sesion == sesion then Suma(PagoEn(metodo), v.pagos) else 0
  }

  /** An annulment keeps the log exact; a second one gives the stock back once more. */
  lemma TxAnularPesa(w: Pesos, s: Estado, id: nat)
    requires Integro(s) && id < |s.ventas|
    ensures var s' := TrasConfirmar(s, PAnular(id));
            SaldoDelLibro(w, s'.ex) == SaldoDelLibro(w, s.ex) &&
            SaldoDeVentas(w, s') == SaldoDeVentas(w, s) + (if s.ventas[id].anulada then PesoLineas(w)(s.ventas[id]) else 0)
  {
    var v := s.ventas[id];
    assert VentaIntegra(v, |s.ex.productos|, |s.sesiones|, s.ticket);
    RestaurarLineasPesa(w, s.ex, v.lineas, id);
    SumaReemplaza(PesoVenta(w), s.ventas, id, v.(anulada := true));
  }

  /** A second annulment takes the payments out of the cash ledger once more. */
  lemma TxAnularDescuadra(i: nat, m: Metodo, s: Estado, id: nat)
    requires Integro(s) && id < |s.ventas|
    ensures var s' := TrasConfirmar(s, PAnular(id));
            Descuadre(i, m, s') == Descuadre(i, m, s) - (if s.ventas[id].anulada then PagadoEn(i, m)(s.ventas[id]) else 0)
  {
    var v := s.ventas[id];
    TxAnularGuarda(s, id);
    var movs := MovimientosDePago(v.sesion, AnulacionCaja, -1, v.pagos, id);
    SumaDePagos(i, m, v.sesion, AnulacionCaja, -1, v.pagos, id);
    SumaConcatena(MontoEn(i, m), s.caja, movs);
    SumaConcatena(ManualEn(i, m), s.caja, movs);
    SumaReemplaza(VentaEn(i, m), s.ventas, id, v.(anulada := true));
  }

  lemma ConfirmarVentaPesa(w: Pesos, i: nat, metodo: Metodo, s: Estado, r: Pedido, plan: Plan, sync: bool)
    requires Integro(s) && PendienteIntegro(s, PVenta(r, plan, sync))
    ensures var s' := TxVenta(s, r, plan, sync).0;
            SaldoDelLibro(w, s'.ex) == SaldoDelLibro(w, s.ex) && SaldoDeVentas(w, s') == SaldoDeVentas(w, s) &&
            Descuadre(i, metodo, s') == Descuadre(i, metodo, s)
  {
    ConfirmarVentaForma(s, r, plan, sync);
    var (s', resp) := TxVenta(s, r, plan, sync);
    if resp.Aceptada? {
      VentaPesa(w, s, r, plan, s');
      VentaCuadra(i, metodo, s, r, plan, s');
    }
  }

  /** The terms a repeated annulment adds. */
  function Extra(f: Venta -> int, o: Option<Venta>): int {
    match o
    case None => 0
    case Some(v) => f(v)
  }

  lemma SucederPesa(w: Pesos, i: nat, metodo: Metodo, m: Sistema, ev: Evento)
    requires SistemaIntegro(m)
    ensures var s, s', o := m.s, Suceder(m, ev).s, Repetida(m, ev);
            SaldoDelLibro(w, s'.ex) == SaldoDelLibro(w, s.ex) &&
            SaldoDeVentas(w, s') == SaldoDeVentas(w, s) + Extra(PesoLineas(w), o) &&
            Descuadre(i, metodo, s') == Descuadre(i, metodo, s) - Extra(PagadoEn(i, metodo), o)
  {
    match ev
    case Leer(r, sync) => LeerIntegro(m, r, sync);
    case LeerAnulacion(_) =>
    case Confirmar(k) =>
      if k < |m.pendientes| {
        ConfirmarIntegro(m, k);
        assert PendienteIntegro(m.s, m.pendientes[k]);
        match m.pendientes[k]
        case PVenta(r, plan, sync) => ConfirmarVentaPesa(w, i, metodo, m.s, r, plan, sync);
        case PAnular(id) =>
          TxAnularPesa(w, m.s, id);
          TxAnularDescuadra(i, metodo, m.s, id);
      }
  }

  lemma SumaExtra(f: Venta -> int, o: Option<Venta>, vs: seq<Venta>)
    ensures Suma(f, (match o case None => [] case Some(v) => [v]) + vs) == Extra(f, o) + Suma(f, vs)
  {
    match o
    case None => assert [] + vs == vs;
    case Some(v) =>
      SumaConcatena(f, [v], vs);
      SumaAgrega(f, [], v);
      assert [] + [v] == [v];
  }

  /**
   * Over any interleaving of sales and annulments the log explains the stock as ever; the
   * sales are off by exactly the weight of those annulled again, and the cash ledger of each
   * session and method by exactly what they were paid with.
   */
  lemma {:induction false} DescuadreExacto(w: Pesos, i: nat, metodo: Metodo, m: Sistema, evs: seq<Evento>)
    requires SistemaIntegro(m)
    ensures var s, s', vs := m.s, Ejecutar(m, evs).s, Repetidas(m, evs);
            SaldoDelLibro(w, s'.ex) == SaldoDelLibro(w, s.ex) &&
            SaldoDeVentas(w, s') == SaldoDeVentas(w, s) + Suma(PesoLineas(w), vs) &&
            Descuadre(i, metodo, s') == Descuadre(i, metodo, s) - Suma(PagadoEn(i, metodo), vs)
    decreases |evs|
  {
    if evs != [] {
      var m1 := Suceder(m, evs[0]);
      SucederPesa(w, i, metodo, m, evs[0]);
      SucederIntegro(m, evs[0]);
      DescuadreExacto(w, i, metodo, m1, evs[1..]);
      SumaExtra(PesoLineas(w), Repetida(m, evs[0]), Repetidas(m1, evs[1..]));
      SumaExtra(PagadoEn(i, metodo), Repetida(m, evs[0]), Repetidas(m1, evs[1..]));
    }
  }

  // ---- Witness -----------------------------------------------------------------------------------

  /** A store with one product and one sale of two units, paid in cash. */
  function UnaVentaDe2(stock: int, movs: seq<MovStock>, anulada: bool, caja: seq<MovCaja>): Estado {
    Estado(Existencias([Producto(10, stock, true)], movs, []), [],
           [Venta(1, 0, 20, 0, 20, anulada, None, false, [Linea(0, 2, 10, 0, 20)], [Pago(Efectivo, 20)])],
           [Sesion(1, 0, 0, true, None)], caja, 1)
  }

  const INVERSA := MovCaja(0, AnulacionCaja, Efectivo, -20, Some(0))

  /** Committing its annulment gives back two units and posts one inverse row, whatever its state. */
  lemma AnularUnaVez(stock: int, movs: seq<MovStock>, anulada: bool, caja: seq<MovCaja>)
    ensures TxAnular(UnaVentaDe2(stock, movs, anulada, caja), 0) ==
            Some(UnaVentaDe2(stock + 2, movs + [MovStock(0, RestoreAnulacion, 2, stock, stock + 2, Some(0))], true,
                             caja + [INVERSA]))
  {
    var l := Linea(0, 2, 10, 0, 20);
    var e := UnaVentaDe2(stock, movs, anulada, caja).ex;
    var e1 := RestaurarLinea(e, l, 0).value;
    assert e1.productos == [Producto(10, stock + 2, true)];
    assert [l][1..] == [];
    assert RestaurarLineas(e, [l], 0) == RestaurarLineas(e1, [], 0);
    assert MovimientosDePago(0, AnulacionCaja, -1, [Pago(Efectivo, 20)], 0) == [INVERSA];
    var s, s' := UnaVentaDe2(stock, movs, anulada, caja), UnaVentaDe2(stock + 2, e1.movimientos, true, caja + [INVERSA]);
    assert s.ventas[0 := s.ventas[0].(anulada := true)] == s'.ventas;
    assert RestaurarLineas(s.ex, s.ventas[0].lineas, 0) == Some(s'.ex);
  }

  /** Two terminals read the same live sale and both annul it: its units come back twice. */
  lemma DosTerminales(stock: int, caja: seq<MovCaja>)
    ensures var s := UnaVentaDe2(stock, [], false, caja);
            var s' := Ejecutar(Sistema(s, []), [LeerAnulacion(0), LeerAnulacion(0), Confirmar(0), Confirmar(0)]).s;
            s'.ex.productos == [Producto(10, stock + 4, true)] && s'.caja == caja + [INVERSA, INVERSA]
  {
    var x := PAnular(0);
    var m0 := Sistema(UnaVentaDe2(stock, [], false, caja), []);
    var m2 := m0.(pendientes := [x, x]);
    var evs := [LeerAnulacion(0), LeerAnulacion(0), Confirmar(0), Confirmar(0)];
    assert Suceder(Suceder(m0, evs[0]), evs[1]) == m2;
    var mov := MovStock(0, RestoreAnulacion, 2, stock, stock + 2, Some(0));
    AnularUnaVez(stock, [], false, caja);
    AnularUnaVez(stock + 2, [] + [mov], true, caja + [INVERSA]);
    var m3 := Suceder(m2, evs[2]);
    assert m3 == Sistema(UnaVentaDe2(stock + 2, [] + [mov], true, caja + [INVERSA]), [x]);
    var m4 := Suceder(m3, evs[3]);
    assert m4.s.ex.productos == [Producto(10, stock + 4, true)] && m4.s.caja == caja + [INVERSA] + [INVERSA];
    CuatroEventos(m0, evs);
  }

  lemma CuatroEventos(m: Sistema, evs: seq<Evento>)
    requires |evs| == 4
    ensures Ejecutar(m, evs) == Suceder(Suceder(Suceder(Suceder(m, evs[0]), evs[1]), evs[2]), evs[3])
  {
    var m1 := Suceder(m, evs[0]);
    var m2 := Suceder(m1, evs[1]);
    var m3 := Suceder(m2, evs[2]);
    assert evs[1..][1..] == evs[2..] && evs[2..][1..] == evs[3..] && evs[3..][1..] == [];
    assert Ejecutar(m1, evs[1..]) == Ejecutar(m2, evs[2..]);
    assert Ejecutar(m2, evs[2..]) == Ejecutar(m3, evs[3..]);
    assert Ejecutar(m3, evs[3..]) == Ejecutar(Suceder(m3, evs[3]), []);
  }
}
