/** The cash ledger against the sales it comes from, over whole runs. */
module LibroDeCaja {
  import opened Datos
  import opened Ventas
  import opened Caja
  import opened Corridas
  import opened Integridad
  import opened Sumas

  // ---- Totals -----------------------------------------------------------------------------

  function PagoEn(metodo: Metodo): Pago -> int {
    (p: Pago) => if p.metodo == metodo then p.monto else 0
  }

  /** What a live sale of the session was paid with one method. */
  function VentaEn(sesion: nat, metodo: Metodo): Venta -> int {
    (v: Venta) => if v.sesion == sesion && !v.anulada then Suma(PagoEn(metodo), v.pagos) else 0
  }

  predicate EsManual(m: MovCaja) {
    m.tipo == IngresoManual || m.tipo == EgresoManual
  }

  function ManualEn(sesion: nat, metodo: Metodo): MovCaja -> int {
    (m: MovCaja) => if EsManual(m) && m.sesion == sesion && m.metodo == metodo then m.monto else 0
  }

  /** The ledger agrees with the live sales and the manual movements, method by method. */
  ghost predicate CajaCuadra(s: Estado) {
    forall i: nat, m: Metodo ::
      SumaMetodo(s.caja, i, m) == Suma(VentaEn(i, m), s.ventas) + Suma(ManualEn(i, m), s.caja)
  }

  lemma {:induction false} SumaDePagos(i: nat, m: Metodo, sesion: nat, tipo: TipoMovCaja, signo: int, pagos: seq<Pago>, venta: nat)
    requires signo == 1 || signo == -1
    requires tipo == VentaCaja || tipo == AnulacionCaja
    ensures var movs := MovimientosDePago(sesion, tipo, signo, pagos, venta);
            SumaMetodo(movs, i, m) == (if i == sesion then signo * Suma(PagoEn(m), pagos) else 0) &&
            Suma(ManualEn(i, m), movs) == 0
  {
    var movs := MovimientosDePago(sesion, tipo, signo, pagos, venta);
    SumaNula(ManualEn(i, m), movs);
    if pagos != [] {
      var n := |pagos| - 1;
      assert movs[..n] == MovimientosDePago(sesion, tipo, signo, pagos[..n], venta);
      SumaDePagos(i, m, sesion, tipo, signo, pagos[..n], venta);
    }
  }

  // ---- One operation ------------------------------------------------------------------------

  lemma VentaCuadra(i: nat, m: Metodo, s: Estado, r: Pedido, plan: Plan, s': Estado)
    requires Acepto(s, r, plan, s')
    ensures SumaMetodo(s'.caja, i, m) - SumaMetodo(s.caja, i, m) ==
            Suma(VentaEn(i, m), s'.ventas) - Suma(VentaEn(i, m), s.ventas) ==
            (if r.sesion == i then Suma(PagoEn(m), r.pagos) else 0)
    ensures Suma(ManualEn(i, m), s'.caja) == Suma(ManualEn(i, m), s.caja)
  {
    var movs := MovimientosDePago(r.sesion, VentaCaja, 1, r.pagos, |s.ventas|);
    SumaDePagos(i, m, r.sesion, VentaCaja, 1, r.pagos, |s.ventas|);
    SumaConcatena(MontoEn(i, m), s.caja, movs);
    SumaConcatena(ManualEn(i, m), s.caja, movs);
    SumaAgrega(VentaEn(i, m), s.ventas, VentaDe(r, plan, s.ticket + 1));
  }

  lemma AnularCuadra(i: nat, m: Metodo, s: Estado, id: nat)
    requires id < |s.ventas| && !s.ventas[id].anulada && TxAnular(s, id).Some?
    ensures var s' := TxAnular(s, id).value;
            SumaMetodo(s'.caja, i, m) - SumaMetodo(s.caja, i, m) ==
            Suma(VentaEn(i, m), s'.ventas) - Suma(VentaEn(i, m), s.ventas) &&
            Suma(ManualEn(i, m), s'.caja) == Suma(ManualEn(i, m), s.caja)
  {
    var v := s.ventas[id];
    var movs := MovimientosDePago(v.sesion, AnulacionCaja, -1, v.pagos, id);
    SumaDePagos(i, m, v.sesion, AnulacionCaja, -1, v.pagos, id);
    SumaConcatena(MontoEn(i, m), s.caja, movs);
    SumaConcatena(ManualEn(i, m), s.caja, movs);
    SumaReemplaza(VentaEn(i, m), s.ventas, id, v.(anulada := true));
  }

  lemma ManualCuadra(i: nat, m: Metodo, s: Estado, op: Op)
    requires op.MovimientoManual?
    ensures var s' := Paso(s, op);
            SumaMetodo(s'.caja, i, m) - SumaMetodo(s.caja, i, m) ==
            Suma(ManualEn(i, m), s'.caja) - Suma(ManualEn(i, m), s.caja)
  {
    var s' := Paso(s, op);
    if s' != s {
      SumaAgrega(MontoEn(i, m), s.caja, s'.caja[|s.caja|]);
      SumaAgrega(ManualEn(i, m), s.caja, s'.caja[|s.caja|]);
    }
  }

  lemma PasoCuadra(s: Estado, op: Op)
    requires Integro(s) && CajaCuadra(s)
    ensures CajaCuadra(Paso(s, op))
  {
    var s' := Paso(s, op);
    forall i: nat, m: Metodo
      ensures SumaMetodo(s'.caja, i, m) == Suma(VentaEn(i, m), s'.ventas) + Suma(ManualEn(i, m), s'.caja)
    {
      assert SumaMetodo(s.caja, i, m) == Suma(VentaEn(i, m), s.ventas) + Suma(ManualEn(i, m), s.caja);
      PasoCuadraEn(i, m, s, op);
    }
  }

  /** How far the ledger is from its sources, for one session and method. */
  function Descuadre(i: nat, m: Metodo, s: Estado): int {
    SumaMetodo(s.caja, i, m) - Suma(VentaEn(i, m), s.ventas) - Suma(ManualEn(i, m), s.caja)
  }

  lemma PasoCuadraEn(i: nat, m: Metodo, s: Estado, op: Op)
    requires Integro(s)
    ensures Descuadre(i, m, Paso(s, op)) == Descuadre(i, m, s)
  {
    match op
    case Vender(r, sync) => VenderCuadra(i, m, s, r, sync);
    case Anular(id) => AnularVentaCuadra(i, m, s, id);
    case MovimientoManual(_, _, _, _) => ManualCuadra(i, m, s, op);
    case _ => SinCaja(s, op);
  }

  lemma AnularVentaCuadra(i: nat, m: Metodo, s: Estado, id: nat)
    ensures Descuadre(i, m, Tras(s, AnularVenta(s, id))) == Descuadre(i, m, s)
  {
    if id < |s.ventas| && !s.ventas[id].anulada && TxAnular(s, id).Some? {
      AnularCuadra(i, m, s, id);
    }
  }

  lemma VenderCuadra(i: nat, m: Metodo, s: Estado, r: Pedido, sync: bool)
    requires Integro(s)
    ensures Descuadre(i, m, RegistrarVenta(s, r, sync).0) == Descuadre(i, m, s)
  {
    FormaDeVenta(s, r, sync);
    if RegistrarVenta(s, r, sync).1.Aceptada? {
      VentaCuadra(i, m, s, r, Planificar(s, r, sync).value, RegistrarVenta(s, r, sync).0);
    }
  }

  /** The other operations touch neither sales nor the cash ledger. */
  lemma SinCaja(s: Estado, op: Op)
    requires !op.Vender? && !op.Anular? && !op.MovimientoManual?
    ensures Paso(s, op).ventas == s.ventas && Paso(s, op).caja == s.caja
  {
  }

  /** In every reachable state the ledger agrees with its sources, method by method. */
  lemma {:induction false} CorridaCuadra(s: Estado, ops: seq<Op>)
    requires Integro(s) && CajaCuadra(s)
    ensures CajaCuadra(Correr(s, ops))
    decreases |ops|
  {
    if ops != [] {
      PasoCuadra(s, ops[0]);
      PasoGuarda(s, ops[0]);
      CorridaCuadra(Paso(s, ops[0]), ops[1..]);
    }
  }

  // ---- The expected total ------------------------------------------------------------------

  /** The five grouped sums add up to the flat sum of the session's rows. */
  lemma {:induction false} CincoMetodos(caja: seq<MovCaja>, i: nat)
    ensures SumaMetodo(caja, i, Efectivo) + SumaMetodo(caja, i, Debito) + SumaMetodo(caja, i, Credito) +
            SumaMetodo(caja, i, Transferencia) + SumaMetodo(caja, i, QR) == Suma(MontoDeSesion(i), caja)
  {
    if caja != [] {
      CincoMetodos(caja[..|caja| - 1], i);
    }
  }

  lemma {:induction false} CincoPagos(pagos: seq<Pago>)
    ensures Suma(PagoEn(Efectivo), pagos) + Suma(PagoEn(Debito), pagos) + Suma(PagoEn(Credito), pagos) +
            Suma(PagoEn(Transferencia), pagos) + Suma(PagoEn(QR), pagos) == Suma(MontoDe, pagos)
  {
    if pagos != [] {
      CincoPagos(pagos[..|pagos| - 1]);
    }
  }

  /** The change given back: what was paid beyond the total. */
  function Vuelto(v: Venta): int {
    Suma(MontoDe, v.pagos) - v.total
  }

  /** A live sale's total and change, for one session. */
  function CobradoEn(sesion: nat): Venta -> int {
    (v: Venta) => if v.sesion == sesion && !v.anulada then v.total + Vuelto(v) else 0
  }

  function IngresoDe(sesion: nat): MovCaja -> int {
    (m: MovCaja) => if m.sesion == sesion && m.tipo == IngresoManual then m.monto else 0
  }

  /** The amount of a manual expense, as it was entered. */
  function EgresoDe(sesion: nat): MovCaja -> int {
    (m: MovCaja) => if m.sesion == sesion && m.tipo == EgresoManual then -m.monto else 0
  }

  lemma {:induction false} CincoVentas(i: nat, ventas: seq<Venta>)
    ensures Suma(VentaEn(i, Efectivo), ventas) + Suma(VentaEn(i, Debito), ventas) + Suma(VentaEn(i, Credito), ventas) +
            Suma(VentaEn(i, Transferencia), ventas) + Suma(VentaEn(i, QR), ventas) == Suma(CobradoEn(i), ventas)
  {
    if ventas != [] {
      CincoVentas(i, ventas[..|ventas| - 1]);
      CincoPagos(ventas[|ventas| - 1].pagos);
    }
  }

  lemma {:induction false} CincoManuales(i: nat, caja: seq<MovCaja>)
    ensures Suma(ManualEn(i, Efectivo), caja) + Suma(ManualEn(i, Debito), caja) + Suma(ManualEn(i, Credito), caja) +
            Suma(ManualEn(i, Transferencia), caja) + Suma(ManualEn(i, QR), caja) ==
            Suma(IngresoDe(i), caja) - Suma(EgresoDe(i), caja)
  {
    if caja != [] {
      CincoManuales(i, caja[..|caja| - 1]);
    }
  }

  /**
   * The expected total of a session is its opening float, plus total and change of its live
   * sales, plus manual income, less manual expenses.
   */
  lemma EsperadoTotal(s: Estado, i: nat)
    requires CajaCuadra(s) && i < |s.sesiones|
    ensures Esperado(s, i).Total() == s.sesiones[i].montoInicial + Suma(CobradoEn(i), s.ventas)
                                      + Suma(IngresoDe(i), s.caja) - Suma(EgresoDe(i), s.caja)
    ensures Esperado(s, i).Total() == s.sesiones[i].montoInicial + Suma(MontoDeSesion(i), s.caja)
  {
    CincoMetodos(s.caja, i);
    CincoVentas(i, s.ventas);
    CincoManuales(i, s.caja);
    assert forall m: Metodo ::
      SumaMetodo(s.caja, i, m) == Suma(VentaEn(i, m), s.ventas) + Suma(ManualEn(i, m), s.caja);
  }

  /** The expected total of every reachable state, from a store whose ledger agrees. */
  lemma EsperadoAlcanzable(s: Estado, ops: seq<Op>, i: nat)
    requires Integro(s) && CajaCuadra(s) && i < |Correr(s, ops).sesiones|
    ensures var s' := Correr(s, ops);
            Esperado(s', i).Total() == s'.sesiones[i].montoInicial + Suma(CobradoEn(i), s'.ventas)
                                       + Suma(IngresoDe(i), s'.caja) - Suma(EgresoDe(i), s'.caja) &&
            (forall k | 0 <= k < |s'.ventas| :: Vuelto(s'.ventas[k]) >= 0)
  {
    CorridaCuadra(s, ops);
    CorridaGuarda(s, ops);
    EsperadoTotal(Correr(s, ops), i);
    var s' := Correr(s, ops);
    forall k | 0 <= k < |s'.ventas| ensures Vuelto(s'.ventas[k]) >= 0 {
      assert VentaIntegra(s'.ventas[k], |s'.ex.productos|, |s'.sesiones|, s'.ticket);
    }
  }

  // ---- Closed sessions -----------------------------------------------------------------------

  /** A sale keeps everything but its state, and an annulled sale stays annulled. */
  predicate MismaVenta(v: Venta, v': Venta) {
    v' == v.(anulada := v'.anulada) && (v.anulada ==> v'.anulada)
  }

  /** No sale is lost or altered between s and s'. */
  predicate VentasPersisten(s: Estado, s': Estado) {
    |s.ventas| <= |s'.ventas| && forall k | 0 <= k < |s.ventas| :: MismaVenta(s.ventas[k], s'.ventas[k])
  }

  lemma PasoPersiste(s: Estado, op: Op)
    requires Integro(s)
    ensures VentasPersisten(s, Paso(s, op))
  {
    if op.Vender? {
      FormaDeVenta(s, op.pedido, op.sync);
    }
  }

  lemma {:induction false} CorridaPersiste(s: Estado, ops: seq<Op>)
    requires Integro(s)
    ensures VentasPersisten(s, Correr(s, ops))
    decreases |ops|
  {
    if ops != [] {
      var s1 := Paso(s, ops[0]);
      PasoPersiste(s, ops[0]);
      PasoGuarda(s, ops[0]);
      CorridaPersiste(s1, ops[1..]);
      var s' := Correr(s1, ops[1..]);
      forall k | 0 <= k < |s.ventas| ensures MismaVenta(s.ventas[k], s'.ventas[k]) {
        assert MismaVenta(s.ventas[k], s1.ventas[k]) && MismaVenta(s1.ventas[k], s'.ventas[k]);
      }
    }
  }

  /** Nothing but annulments of its own sales posts to a closed session. */
  predicate SoloAnulaciones(s: Estado, s': Estado, i: nat) {
    && i < |s.sesiones| <= |s'.sesiones| && s'.sesiones[i] == s.sesiones[i]
    && s.caja <= s'.caja
    && (forall k | |s.caja| <= k < |s'.caja| && s'.caja[k].sesion == i :: s'.caja[k].tipo == AnulacionCaja)
    && |s.ventas| <= |s'.ventas|
    && (forall k | |s.ventas| <= k < |s'.ventas| :: s'.ventas[k].sesion != i)
  }

  lemma PasoCerrado(s: Estado, op: Op, i: nat)
    requires Integro(s) && i < |s.sesiones| && !s.sesiones[i].abierta
    ensures SoloAnulaciones(s, Paso(s, op), i)
  {
    if op.Vender? {
      FormaDeVenta(s, op.pedido, op.sync);
    }
  }

  lemma {:induction false} CorridaCerrada(s: Estado, ops: seq<Op>, i: nat)
    requires Integro(s) && i < |s.sesiones| && !s.sesiones[i].abierta
    ensures SoloAnulaciones(s, Correr(s, ops), i)
    decreases |ops|
  {
    if ops != [] {
      var s1 := Paso(s, ops[0]);
      PasoCerrado(s, ops[0], i);
      PasoGuarda(s, ops[0]);
      CorridaCerrada(s1, ops[1..], i);
      var s' := Correr(s1, ops[1..]);
      assert s.caja <= s1.caja <= s'.caja;
      forall k | |s.caja| <= k < |s'.caja| && s'.caja[k].sesion == i ensures s'.caja[k].tipo == AnulacionCaja {
        if k < |s1.caja| {
          assert s'.caja[k] == s1.caja[k];
        }
      }
      PasoPersiste(s, ops[0]);
      CorridaPersiste(s1, ops[1..]);
      forall k | |s.ventas| <= k < |s'.ventas| ensures s'.ventas[k].sesion != i {
        if k < |s1.ventas| {
          assert MismaVenta(s1.ventas[k], s'.ventas[k]);
        }
      }
    }
  }

  /** Payments of the session's sales that were live in s and are annulled in s'. */
  function PagosAnulados(s: Estado, s': Estado, i: nat): int
    requires |s.ventas| <= |s'.ventas|
  {
    PagosAnuladosHasta(s.ventas, s'.ventas, i, |s.ventas|)
  }

  function PagosAnuladosHasta(vs: seq<Venta>, vs': seq<Venta>, i: nat, n: nat): int
    requires n <= |vs| && n <= |vs'|
  {
    if n == 0 then 0
    else
      var k := n - 1;
      PagosAnuladosHasta(vs, vs', i, k) +
      (if vs[k].sesion == i && !vs[k].anulada && vs'[k].anulada then Suma(MontoDe, vs[k].pagos) else 0)
  }

  lemma {:induction false} CobradoMenosAnulado(vs: seq<Venta>, vs': seq<Venta>, i: nat, n: nat)
    requires n <= |vs| && n <= |vs'|
    requires forall k | 0 <= k < n :: MismaVenta(vs[k], vs'[k])
    ensures Suma(CobradoEn(i), vs'[..n]) == Suma(CobradoEn(i), vs[..n]) - PagosAnuladosHasta(vs, vs', i, n)
  {
    if n != 0 {
      var k := n - 1;
      assert vs[..n][..k] == vs[..k] && vs'[..n][..k] == vs'[..k];
      assert MismaVenta(vs[k], vs'[k]);
      CobradoMenosAnulado(vs, vs', i, k);
    }
  }

  lemma CobradoTrasCierre(s: Estado, s': Estado, i: nat)
    requires SoloAnulaciones(s, s', i) && VentasPersisten(s, s')
    ensures Suma(CobradoEn(i), s'.ventas) == Suma(CobradoEn(i), s.ventas) - PagosAnulados(s, s', i)
  {
    var n := |s.ventas|;
    CobradoMenosAnulado(s.ventas, s'.ventas, i, n);
    assert s.ventas[..n] == s.ventas;
    var nuevas := s'.ventas[n..];
    assert s'.ventas == s'.ventas[..n] + nuevas;
    SumaNula(CobradoEn(i), nuevas);
    SumaConcatena(CobradoEn(i), s'.ventas[..n], nuevas);
  }

  lemma ManualFijo(s: Estado, s': Estado, i: nat)
    requires SoloAnulaciones(s, s', i)
    ensures Suma(IngresoDe(i), s'.caja) == Suma(IngresoDe(i), s.caja)
    ensures Suma(EgresoDe(i), s'.caja) == Suma(EgresoDe(i), s.caja)
  {
    var nuevos := s'.caja[|s.caja|..];
    assert s'.caja == s.caja + nuevos;
    SumaNula(IngresoDe(i), nuevos);
    SumaNula(EgresoDe(i), nuevos);
    SumaConcatena(IngresoDe(i), s.caja, nuevos);
    SumaConcatena(EgresoDe(i), s.caja, nuevos);
  }

  /**
   * Drift law.  After an arqueo the session stays closed with the data it was closed with,
   * and in every later state its recomputed expected total is the stored one less the
   * payments of exactly those of its sales that were annulled since.
   */
  lemma LeyDeDeriva(s: Estado, ops: seq<Op>, i: nat)
    requires Integro(s) && CajaCuadra(s)
    requires i < |s.sesiones| && !s.sesiones[i].abierta
    ensures var s' := Correr(s, ops);
            SoloAnulaciones(s, s', i) &&
            Esperado(s', i).Total() == Esperado(s, i).Total() - PagosAnulados(s, s', i)
  {
    var s' := Correr(s, ops);
    CorridaCerrada(s, ops, i);
    CorridaPersiste(s, ops);
    CorridaCuadra(s, ops);
    EsperadoTotal(s, i);
    EsperadoTotal(s', i);
    ManualFijo(s, s', i);
    CobradoTrasCierre(s, s', i);
  }

  /** The same, from the arqueo itself: the stored MontoEsperado is where the drift starts. */
  lemma DerivaDesdeArqueo(s: Estado, objetivo: Option<nat>, usuario: Option<nat>, declarado: Montos,
                          obs: Option<string>, ops: seq<Op>)
    requires Integro(s) && CajaCuadra(s)
    requires Arqueo(s, objetivo, usuario, declarado, obs).Ok?
    ensures var i := SesionDelArqueo(s, objetivo, usuario).value;
            var s1 := Arqueo(s, objetivo, usuario, declarado, obs).value;
            var s' := Correr(s1, ops);
            |s1.ventas| <= |s'.ventas| && i < |s'.sesiones| &&
            !s'.sesiones[i].abierta && s'.sesiones[i].cierre.Some? &&
            s'.sesiones[i].cierre.value.esperado == Esperado(s, i).Total() &&
            s'.sesiones[i].cierre.value.declarado == declarado &&
            s'.sesiones[i].cierre.value.observaciones == obs &&
            Esperado(s', i).Total() == s'.sesiones[i].cierre.value.esperado - PagosAnulados(s1, s', i)
  {
    var i := SesionDelArqueo(s, objetivo, usuario).value;
    var op := ArqueoCaja(objetivo, usuario, declarado, obs);
    var s1 := Arqueo(s, objetivo, usuario, declarado, obs).value;
    assert s1 == Paso(s, op);
    PasoGuarda(s, op);
    PasoCuadra(s, op);
    LeyDeDeriva(s1, ops, i);
  }
}
