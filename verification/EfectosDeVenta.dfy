/** What registering and annulling a sale answer and leave, in every case. */
module EfectosDeVenta {
  import opened Aritmetica
  import opened Datos
  import opened Inventario
  import opened Ventas
  import opened Integridad
  import opened Aceptacion
  import opened Concurrencia
  import opened Efectos
  import opened Sumas

  // ---- The checks of one item ----------------------------------------------------------------

  /** The stock, or the parents of the first link that opens by itself, hold the quantity. */
  predicate Disponible(ps: seq<Producto>, vs: seq<Vinculo>, p: nat, cantidad: int)
    requires p < |ps| && VinculosValidos(vs, |ps|)
  {
    ps[p].stock >= cantidad ||
    exists i | 0 <= i < |vs| && EsPrimerVinculo(vs, p, i) :: ps[vs[i].padre].stock * vs[i].unidades >= cantidad - ps[p].stock
  }

  lemma PreflightDisponible(ps: seq<Producto>, vs: seq<Vinculo>, p: nat, cantidad: int)
    requires p < |ps| && VinculosValidos(vs, |ps|)
    ensures PreflightAcepta(ps, vs, p, cantidad) <==> Disponible(ps, vs, p, cantidad)
  {
    if ps[p].stock < cantidad {
      if VinculoAuto(vs, p).Some? {
        var i := HayPrimero(vs, p);
        CubreDeficit(cantidad - ps[p].stock, vs[i].unidades, ps[vs[i].padre].stock);
      }
      forall i: nat | EsPrimerVinculo(vs, p, i) ensures VinculoAuto(vs, p) == Some(vs[i]) {
        VinculoAutoPrimero(vs, p, i);
      }
    }
  }

  /** k parents are enough for n units exactly when they hold them. */
  lemma CubreDeficit(n: int, u: Positivo, k: int)
    ensures k >= Techo(n, u) <==> k * u >= n
  {
    TechoMinimo(n, u);
    if k >= Techo(n, u) {
      Crece(Techo(n, u), k, u);
    } else {
      Crece(k, Techo(n, u) - 1, u);
    }
  }

  /** An item passes: it is for sale, and online its units are to be had. */
  predicate Pasa(s: Estado, it: Item, sync: bool)
    requires VinculosValidos(s.vinculos, |s.ex.productos|)
  {
    Vendible(s.ex.productos, it) && (sync || Disponible(s.ex.productos, s.vinculos, it.producto, it.cantidad))
  }

  /** An item fails for this reason, and for none that is looked at before. */
  predicate Falla(s: Estado, it: Item, sync: bool, e: Error)
    requires VinculosValidos(s.vinculos, |s.ex.productos|)
  {
    var ps, n := s.ex.productos, |s.ex.productos|;
    match e
    case ProductoNoEncontrado => it.producto >= n
    case ProductoInactivo => it.producto < n && !ps[it.producto].activo
    case StockInsuficiente =>
      it.producto < n && ps[it.producto].activo && !sync && !Disponible(ps, s.vinculos, it.producto, it.cantidad)
    case DescuentoExcesivo =>
      && it.producto < n && ps[it.producto].activo
      && (sync || Disponible(ps, s.vinculos, it.producto, it.cantidad))
      && 2 * it.descuento > ps[it.producto].precioVenta * it.cantidad
    case _ => false
  }

  lemma ItemExacto(s: Estado, it: Item, sync: bool)
    requires VinculosValidos(s.vinculos, |s.ex.productos|)
    ensures var o := ErrorDeItem(s.ex.productos, s.vinculos, it, sync);
            (o.None? <==> Pasa(s, it, sync)) && (forall e: Error :: o == Some(e) <==> Falla(s, it, sync, e))
  {
    if it.producto < |s.ex.productos| {
      PreflightDisponible(s.ex.productos, s.vinculos, it.producto, it.cantidad);
    }
  }

  /** Item i is the first not to pass, and this is why. */
  predicate PrimeraFalla(s: Estado, items: seq<Item>, sync: bool, i: nat, e: Error)
    requires VinculosValidos(s.vinculos, |s.ex.productos|)
  {
    i < |items| && Falla(s, items[i], sync, e) && forall j | 0 <= j < i :: Pasa(s, items[j], sync)
  }

  lemma {:induction false} PrimerErrorExacto(s: Estado, items: seq<Item>, sync: bool, i: nat, e: Error)
    requires VinculosValidos(s.vinculos, |s.ex.productos|) && PrimeraFalla(s, items, sync, i, e)
    ensures PrimerError(s.ex.productos, s.vinculos, items, sync) == Some(e)
    decreases i
  {
    ItemExacto(s, items[0], sync);
    if i > 0 {
      assert PrimeraFalla(s, items[1..], sync, i - 1, e);
      PrimerErrorExacto(s, items[1..], sync, i - 1, e);
    }
  }

  lemma {:induction false} FallaOPasan(s: Estado, items: seq<Item>, sync: bool) returns (i: nat, e: Error)
    requires VinculosValidos(s.vinculos, |s.ex.productos|)
    ensures PrimeraFalla(s, items, sync, i, e) || forall j | 0 <= j < |items| :: Pasa(s, items[j], sync)
  {
    i, e := 0, ProductoNoEncontrado;
    if items != [] {
      ItemExacto(s, items[0], sync);
      var o := ErrorDeItem(s.ex.productos, s.vinculos, items[0], sync);
      if o.Some? {
        e := o.value;
      } else {
        var k;
        k, e := FallaOPasan(s, items[1..], sync);
        i := k + 1;
        assert forall j | 1 <= j < |items| :: items[1..][j - 1] == items[j];
        if PrimeraFalla(s, items[1..], sync, k, e) {
          forall j | 0 <= j < i ensures Pasa(s, items[j], sync) {
            assert j > 0 ==> items[1..][j - 1] == items[j];
          }
        }
      }
    }
  }

  // ---- The answer ------------------------------------------------------------------------------

  /** A sale already registered is answered with the very sale that has its offline_id. */
  lemma VentaRepetida(s: Estado, r: Pedido, sync: bool, k: nat)
    requires r.sesion < |s.sesiones| && s.sesiones[r.sesion].abierta
    requires r.offlineId.Some? && k < |s.ventas| && s.ventas[k].offlineId == r.offlineId
    ensures var (s', resp) := RegistrarVenta(s, r, sync);
            s' == s && resp.Duplicada? && resp.id < |s.ventas| && s.ventas[resp.id].offlineId == r.offlineId &&
            (OfflineUnicos(s.ventas) ==> resp.id == k)
  {
    assert s.ventas[k] in s.ventas;
    var resp := RegistrarVenta(s, r, sync).1;
    if OfflineUnicos(s.ventas) {
      UnSoloDueno(s.ventas, resp.id, k);
    }
  }

  lemma UnSoloDueno(vs: seq<Venta>, i: nat, k: nat)
    requires OfflineUnicos(vs) && i < |vs| && k < |vs|
    requires vs[i].offlineId.Some? && vs[i].offlineId == vs[k].offlineId
    ensures i == k
  {
  }

  /** The request reaches the items: its session is open and it is not registered yet. */
  predicate Llega(s: Estado, r: Pedido) {
    && r.sesion < |s.sesiones| && s.sesiones[r.sesion].abierta
    && (r.offlineId.Some? ==> forall k | 0 <= k < |s.ventas| :: s.ventas[k].offlineId != r.offlineId)
  }

  lemma LlegaSinRegistro(s: Estado, r: Pedido)
    requires Llega(s, r)
    ensures !Registrado(s.ventas, r.offlineId)
  {
  }

  /** The first item not to pass decides the error. */
  lemma RechazoPorItem(s: Estado, r: Pedido, sync: bool, i: nat, e: Error)
    requires VinculosValidos(s.vinculos, |s.ex.productos|) && Llega(s, r) && PrimeraFalla(s, r.items, sync, i, e)
    ensures RegistrarVenta(s, r, sync) == (s, Rechazada(e))
  {
    LlegaSinRegistro(s, r);
    PrimerErrorExacto(s, r.items, sync, i, e);
  }

  /** What the request pays, and what its items cost. */
  predicate Paga(s: Estado, r: Pedido) {
    Suma(MontoDe, r.pagos) >= Suma(Bruto(s.ex.productos), r.items) - Suma(Descontado, r.items)
  }

  /** With every item in order: too little payment first, then the stock as it stands. */
  lemma RechazoPorPagoOStock(s: Estado, r: Pedido, sync: bool)
    requires Integro(s) && Llega(s, r) && forall i | 0 <= i < |r.items| :: Pasa(s, r.items[i], sync)
    ensures var (s', resp) := RegistrarVenta(s, r, sync);
            if !Paga(s, r) then s' == s && resp == Rechazada(PagoInsuficiente)
            else if !sync && !Alcanza(s.ex.productos, r.items) then s' == s && resp == Rechazada(StockInsuficiente)
            else resp.Aceptada?
  {
    LlegaSinRegistro(s, r);
    PlanDeVendibles(s, r, sync);
    AceptaSiSoloSi(s, r, sync);
    FormaDeVenta(s, r, sync);
    if Planificar(s, r, sync).Ok? {
      PlanificarExige(s, r, sync);
    }
  }

  lemma PlanDeVendibles(s: Estado, r: Pedido, sync: bool)
    requires VinculosValidos(s.vinculos, |s.ex.productos|) && forall i | 0 <= i < |r.items| :: Pasa(s, r.items[i], sync)
    ensures Vendibles(s.ex.productos, r.items)
    ensures if Paga(s, r) then Planificar(s, r, sync).Ok? else Planificar(s, r, sync) == Err(PagoInsuficiente)
  {
    var ps := s.ex.productos;
    forall i | 0 <= i < |r.items| ensures ErrorDeItem(ps, s.vinculos, r.items[i], sync).None? && r.items[i].producto < |ps| {
      ItemExacto(s, r.items[i], sync);
      assert Pasa(s, r.items[i], sync);
    }
    TotalDeLineas(ps, r.items);
  }

  /** Every request gets an answer, and this is which. */
  lemma RespuestaExacta(s: Estado, r: Pedido, sync: bool)
    requires Integro(s)
    ensures var (s', resp) := RegistrarVenta(s, r, sync);
            if r.sesion >= |s.sesiones| then s' == s && resp == Rechazada(SesionNoEncontrada)
            else if !s.sesiones[r.sesion].abierta then s' == s && resp == Rechazada(SesionCerrada)
            else if !Llega(s, r) then
              s' == s && resp.Duplicada? && resp.id < |s.ventas| && s.ventas[resp.id].offlineId == r.offlineId
            else if exists i, e :: PrimeraFalla(s, r.items, sync, i, e) then
              s' == s && exists i, e :: PrimeraFalla(s, r.items, sync, i, e) && resp == Rechazada(e)
            else if !Paga(s, r) then s' == s && resp == Rechazada(PagoInsuficiente)
            else if !sync && !Alcanza(s.ex.productos, r.items) then s' == s && resp == Rechazada(StockInsuficiente)
            else resp.Aceptada? && resp.id == |s.ventas|
  {
    FormaDeVenta(s, r, sync);
    if r.sesion < |s.sesiones| && s.sesiones[r.sesion].abierta {
      if !Llega(s, r) {
        var k :| 0 <= k < |s.ventas| && s.ventas[k].offlineId == r.offlineId;
        VentaRepetida(s, r, sync, k);
      } else {
        var i, e := FallaOPasan(s, r.items, sync);
        if PrimeraFalla(s, r.items, sync, i, e) {
          RechazoPorItem(s, r, sync, i, e);
        } else {
          NingunaFalla(s, r.items, sync);
          RechazoPorPagoOStock(s, r, sync);
        }
      }
    }
  }

  lemma NingunaFalla(s: Estado, items: seq<Item>, sync: bool)
    requires VinculosValidos(s.vinculos, |s.ex.productos|) && forall j | 0 <= j < |items| :: Pasa(s, items[j], sync)
    ensures forall i: nat, e: Error :: !PrimeraFalla(s, items, sync, i, e)
  {
    forall i: nat, e: Error ensures !PrimeraFalla(s, items, sync, i, e) {
      if i < |items| {
        ItemExacto(s, items[i], sync);
        assert Pasa(s, items[i], sync);
      }
    }
  }

  /** A batch is answered sale by sale, in order, each as of the store the earlier ones left. */
  lemma {:induction false} RespuestasExactas(s: Estado, rs: seq<Pedido>, i: nat)
    requires i < |rs|
    ensures |RespuestasSync(s, rs)| == |rs|
    ensures RespuestasSync(s, rs)[i] == RegistrarVenta(SyncBatch(s, rs[..i]), rs[i], true).1
    decreases |rs|
  {
    var s1 := RegistrarVenta(s, rs[0], true).0;
    assert RespuestasSync(s, rs)[1..] == RespuestasSync(s1, rs[1..]);
    if i > 0 {
      assert rs[..i][1..] == rs[1..][..i - 1];
      RespuestasExactas(s1, rs[1..], i - 1);
    } else {
      if |rs| > 1 {
        RespuestasExactas(s1, rs[1..], 0);
      }
    }
  }

  // ---- The rows a sale writes --------------------------------------------------------------------

  /** The log grew by one row per line, of this kind, sign and sale, with the stock it left. */
  predicate AsientaLineas(ms: seq<MovStock>, ms': seq<MovStock>, ls: seq<Linea>, tipo: TipoMovStock, signo: int, venta: nat) {
    && |ms'| == |ms| + |ls| && ms'[..|ms|] == ms
    && forall k | 0 <= k < |ls| ::
         var m := ms'[|ms| + k];
         m.producto == ls[k].producto && m.tipo == tipo && m.cantidad == signo * ls[k].cantidad &&
         m.nuevo == m.anterior + m.cantidad && m.referencia == Some(venta)
  }

  lemma SigueAsentando(ms: seq<MovStock>, m1: seq<MovStock>, ms': seq<MovStock>, ls: seq<Linea>, tipo: TipoMovStock, signo: int, venta: nat)
    requires ls != [] && AsientaLineas(ms, m1, [ls[0]], tipo, signo, venta) && AsientaLineas(m1, ms', ls[1..], tipo, signo, venta)
    ensures AsientaLineas(ms, ms', ls, tipo, signo, venta)
  {
    assert ms'[..|m1|] == m1 && ms'[..|ms|] == m1[..|ms|];
    forall k | 0 <= k < |ls|
      ensures ms'[|ms| + k].producto == ls[k].producto && ms'[|ms| + k].tipo == tipo &&
              ms'[|ms| + k].cantidad == signo * ls[k].cantidad &&
              ms'[|ms| + k].nuevo == ms'[|ms| + k].anterior + ms'[|ms| + k].cantidad &&
              ms'[|ms| + k].referencia == Some(venta)
    {
      if k == 0 {
        assert ms'[|ms|] == m1[|ms|];
        assert m1[|ms| + 0].producto == [ls[0]][0].producto;
      } else {
        assert ms'[|ms| + k] == ms'[|m1| + (k - 1)] && ls[1..][k - 1] == ls[k];
      }
    }
  }

  lemma {:induction false} DescontarAsienta(e: Existencias, vs: seq<Vinculo>, ls: seq<Linea>, venta: nat)
    requires LineasEn(ls, |e.productos|) && VinculosValidos(vs, |e.productos|)
    ensures var r := DescontarLineas(e, vs, ls, venta);
            r.Some? && AsientaLineas(e.movimientos, r.value.movimientos, ls, VentaStock, -1, venta)
    decreases |ls|
  {
    if ls != [] {
      DescontarMarco(e, vs, ls[0].producto, ls[0].cantidad);
      var e1 := DescontarLinea(e, vs, ls[0], venta).value;
      DescontarAsienta(e1, vs, ls[1..], venta);
      SigueAsentando(e.movimientos, e1.movimientos, DescontarLineas(e1, vs, ls[1..], venta).value.movimientos, ls, VentaStock, -1, venta);
    }
  }

  /** The ledger grew by one row per payment, of this kind, sign, session and sale. */
  predicate AsientaPagos(caja: seq<MovCaja>, caja': seq<MovCaja>, pagos: seq<Pago>, sesion: nat, tipo: TipoMovCaja, signo: int, venta: nat) {
    && |caja'| == |caja| + |pagos| && caja'[..|caja|] == caja
    && forall k | 0 <= k < |pagos| ::
         caja'[|caja| + k] == MovCaja(sesion, tipo, pagos[k].metodo, signo * pagos[k].monto, Some(venta))
  }

  /** The rows an accepted sale writes: one movement per item, one ledger row per payment. */
  lemma VentaAsienta(s: Estado, r: Pedido, sync: bool)
    requires Integro(s) && RegistrarVenta(s, r, sync).1.Aceptada?
    ensures var s' := RegistrarVenta(s, r, sync).0;
            var id := |s.ventas|;
            |s'.ventas| == id + 1 && s'.ventas[..id] == s.ventas &&
            s'.vinculos == s.vinculos && s'.sesiones == s.sesiones && MismosDatos(s'.ex.productos, s.ex.productos) &&
            AsientaLineas(s.ex.movimientos, s'.ex.movimientos, s'.ventas[id].lineas, VentaStock, -1, id) &&
            AsientaPagos(s.caja, s'.caja, r.pagos, r.sesion, VentaCaja, 1, id)
  {
    FormaDeVenta(s, r, sync);
    var ls := Planificar(s, r, sync).value.lineas;
    DescontarAsienta(s.ex, s.vinculos, ls, |s.ventas|);
    DescontarLineasMarco(s.ex, s.vinculos, ls, |s.ventas|);
  }

  // ---- Annulment -----------------------------------------------------------------------------------

  lemma {:induction false} RestaurarAsienta(e: Existencias, ls: seq<Linea>, venta: nat)
    requires LineasEn(ls, |e.productos|)
    ensures var r := RestaurarLineas(e, ls, venta);
            r.Some? && AsientaLineas(e.movimientos, r.value.movimientos, ls, RestoreAnulacion, 1, venta) &&
            |r.value.productos| == |e.productos| &&
            forall p | 0 <= p < |e.productos| ::
              r.value.productos[p] == e.productos[p].(stock := e.productos[p].stock + Pedidas(ls, p))
    decreases |ls|
  {
    if ls != [] {
      var e1 := RestaurarLinea(e, ls[0], venta).value;
      RestaurarAsienta(e1, ls[1..], venta);
      SigueAsentando(e.movimientos, e1.movimientos, RestaurarLineas(e1, ls[1..], venta).value.movimientos, ls, RestoreAnulacion, 1, venta);
    }
  }

  /** Annulment: what it refuses, and every row it changes or writes. */
  lemma AnulacionExacta(s: Estado, id: nat)
    requires Integro(s)
    ensures var r := AnularVenta(s, id);
            if id >= |s.ventas| then r == Err(VentaNoEncontrada)
            else if s.ventas[id].anulada then r == Err(VentaYaAnulada)
            else
              r.Ok? &&
              var v, s' := s.ventas[id], r.value;
              s' == s.(ex := s'.ex, ventas := s'.ventas, caja := s'.caja) &&
              |s'.ventas| == |s.ventas| && s'.ventas[id] == v.(anulada := true) &&
              (forall j | 0 <= j < |s.ventas| && j != id :: s'.ventas[j] == s.ventas[j]) &&
              |s'.ex.productos| == |s.ex.productos| && s'.ex.desarmes == s.ex.desarmes &&
              (forall p | 0 <= p < |s.ex.productos| ::
                 s'.ex.productos[p] == s.ex.productos[p].(stock := s.ex.productos[p].stock + Pedidas(v.lineas, p))) &&
              AsientaLineas(s.ex.movimientos, s'.ex.movimientos, v.lineas, RestoreAnulacion, 1, id) &&
              AsientaPagos(s.caja, s'.caja, v.pagos, v.sesion, AnulacionCaja, -1, id)
  {
    if id < |s.ventas| && !s.ventas[id].anulada {
      assert VentaIntegra(s.ventas[id], |s.ex.productos|, |s.sesiones|, s.ticket);
      RestaurarAsienta(s.ex, s.ventas[id].lineas, id);
      RestaurarLineasMarco(s.ex, s.ventas[id].lineas, id);
    }
  }

  // ---- Reading before a commit -----------------------------------------------------------------

  /** What a terminal reads becomes pending work exactly when it would pass as of then. */
  lemma LecturaExacta(m: Sistema, r: Pedido, sync: bool)
    requires Integro(m.s)
    ensures var m' := Suceder(m, Leer(r, sync));
            m'.s == m.s &&
            if Llega(m.s, r) && Paga(m.s, r) && forall i | 0 <= i < |r.items| :: Pasa(m.s, r.items[i], sync)
            then |m'.pendientes| == |m.pendientes| + 1 && m'.pendientes[..|m.pendientes|] == m.pendientes &&
                 m'.pendientes[|m.pendientes|].PVenta? && m'.pendientes[|m.pendientes|].pedido == r &&
                 m'.pendientes[|m.pendientes|].sync == sync
            else m' == m
  {
    if Llega(m.s, r) {
      LlegaSinRegistro(m.s, r);
      var i, e := FallaOPasan(m.s, r.items, sync);
      if PrimeraFalla(m.s, r.items, sync, i, e) {
        PrimerErrorExacto(m.s, r.items, sync, i, e);
        NingunaFallaOFalla(m.s, r.items, sync, i, e);
      } else {
        PlanDeVendibles(m.s, r, sync);
      }
    } else if r.offlineId.Some? && exists k | 0 <= k < |m.s.ventas| :: m.s.ventas[k].offlineId == r.offlineId {
      var k :| 0 <= k < |m.s.ventas| && m.s.ventas[k].offlineId == r.offlineId;
      assert m.s.ventas[k] in m.s.ventas;
    }
  }

  lemma NingunaFallaOFalla(s: Estado, items: seq<Item>, sync: bool, i: nat, e: Error)
    requires VinculosValidos(s.vinculos, |s.ex.productos|) && PrimeraFalla(s, items, sync, i, e)
    ensures !Pasa(s, items[i], sync)
  {
    ItemExacto(s, items[i], sync);
  }

  lemma LecturaDeAnulacion(m: Sistema, id: nat)
    ensures Suceder(m, LeerAnulacion(id)) ==
            if id < |m.s.ventas| && !m.s.ventas[id].anulada then Sistema(m.s, m.pendientes + [PAnular(id)]) else m
  {
  }

  /**
   * A commit, however stale its plan: online the stock must still cover each line; then a
   * ticket is drawn, and lost if the offline_id was taken meanwhile; else the plan is done.
   */
  lemma ConfirmacionExacta(s: Estado, r: Pedido, plan: Plan, sync: bool)
    requires Integro(s) && r.sesion < |s.sesiones| && s.sesiones[r.sesion].abierta
    requires LineasEn(plan.lineas, |s.ex.productos|) && plan.total <= Suma(MontoDe, r.pagos)
    ensures var (s', resp) := TxVenta(s, r, plan, sync);
            if !sync && exists k | 0 <= k < |plan.lineas| ::
                          s.ex.productos[plan.lineas[k].producto].stock < plan.lineas[k].cantidad
            then s' == s && resp == Rechazada(StockInsuficiente)
            else if !Llega(s, r) then s' == s.(ticket := s.ticket + 1) && resp == Rechazada(OfflineDuplicado)
            else Acepto(s, r, plan, s') && resp == Aceptada(|s.ventas|, Suma(MontoDe, r.pagos) - plan.total)
  {
    if Llega(s, r) {
      LlegaSinRegistro(s, r);
    } else {
      var k :| 0 <= k < |s.ventas| && s.ventas[k].offlineId == r.offlineId;
      assert s.ventas[k] in s.ventas;
    }
    DescontarAsienta(s.ex, s.vinculos, plan.lineas, |s.ventas|);
  }
}
