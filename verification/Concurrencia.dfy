/**
 * Sales, online and synced, and annulments from many terminals at once.  Each reads first, outside any
 * transaction, and commits later against whatever the store has become; a commit is atomic
 * because it locks the stock rows it touches.
 */
module Concurrencia {
  import opened Datos
  import opened Inventario
  import opened Ventas
  import opened Integridad

  // ---- The locked re-check, line by line ---------------------------------------------------

  /** Units of p asked for by the lines. */
  function Pedidas(ls: seq<Linea>, p: nat): int {
    if ls == [] then 0 else (if ls[0].producto == p then ls[0].cantidad else 0) + Pedidas(ls[1..], p)
  }

  /** Every line finds its stock when its turn comes, so none reaches the disassembly branch. */
  predicate SinDeficit(ps: seq<Producto>, ls: seq<Linea>)
    requires LineasEn(ls, |ps|)
    decreases |ls|
  {
    ls == [] ||
    (ps[ls[0].producto].stock >= ls[0].cantidad &&
     SinDeficit(SumarStock(ps, ls[0].producto, -ls[0].cantidad), ls[1..]))
  }

  predicate CantidadesPositivas(ls: seq<Linea>) {
    forall i | 0 <= i < |ls| :: ls[i].cantidad >= 1
  }

  predicate ProductosDistintos(ls: seq<Linea>) {
    forall i, j | 0 <= i < j < |ls| :: ls[i].producto != ls[j].producto
  }

  predicate StockNoNegativo(ps: seq<Producto>) {
    forall i | 0 <= i < |ps| :: ps[i].stock >= 0
  }

  lemma {:induction false} PedidasNoNegativas(ls: seq<Linea>, p: nat)
    requires CantidadesPositivas(ls)
    ensures Pedidas(ls, p) >= 0
  {
    if ls != [] {
      PedidasNoNegativas(ls[1..], p);
    }
  }

  /** Exactly when no line runs short: when no product is asked for beyond its stock. */
  lemma {:induction false} SinDeficitSiSoloSi(ps: seq<Producto>, ls: seq<Linea>)
    requires LineasEn(ls, |ps|) && CantidadesPositivas(ls) && StockNoNegativo(ps)
    ensures SinDeficit(ps, ls) <==> forall p | 0 <= p < |ps| :: Pedidas(ls, p) <= ps[p].stock
    decreases |ls|
  {
    if ls != [] {
      var l := ls[0];
      PedidasNoNegativas(ls[1..], l.producto);
      if ps[l.producto].stock >= l.cantidad {
        var ps1 := SumarStock(ps, l.producto, -l.cantidad);
        SinDeficitSiSoloSi(ps1, ls[1..]);
        forall p | 0 <= p < |ps|
          ensures Pedidas(ls[1..], p) <= ps1[p].stock <==> Pedidas(ls, p) <= ps[p].stock
        {
        }
        assert (forall p | 0 <= p < |ps1| :: Pedidas(ls[1..], p) <= ps1[p].stock) <==>
               (forall p | 0 <= p < |ps| :: Pedidas(ls, p) <= ps[p].stock);
      } else {
        assert Pedidas(ls, l.producto) > ps[l.producto].stock;
      }
    }
  }

  /** Without a deficit the lines are simple decrements: no disassembly, nothing negative. */
  lemma {:induction false} SinDeficitSimple(e: Existencias, vs: seq<Vinculo>, ls: seq<Linea>, venta: nat)
    requires LineasEn(ls, |e.productos|) && CantidadesPositivas(ls) && StockNoNegativo(e.productos)
    requires SinDeficit(e.productos, ls)
    ensures var r := DescontarLineas(e, vs, ls, venta);
            r.Some? && r.value.desarmes == e.desarmes && |r.value.productos| == |e.productos| &&
            (forall p | 0 <= p < |e.productos| :: r.value.productos[p].stock == e.productos[p].stock - Pedidas(ls, p) >= 0)
    decreases |ls|
  {
    if ls != [] {
      var e1 := DescontarLinea(e, vs, ls[0], venta).value;
      SinDeficitSimple(e1, vs, ls[1..], venta);
    }
  }

  /** With distinct products the locked re-check is enough. */
  lemma {:induction false} RevisionBasta(ps: seq<Producto>, ls: seq<Linea>)
    requires StockSuficiente(ps, ls) && ProductosDistintos(ls)
    ensures LineasEn(ls, |ps|) && SinDeficit(ps, ls)
    decreases |ls|
  {
    if ls != [] {
      var ps1 := SumarStock(ps, ls[0].producto, -ls[0].cantidad);
      forall i | 0 <= i < |ls[1..]|
        ensures ls[1..][i].producto < |ps1| && ps1[ls[1..][i].producto].stock >= ls[1..][i].cantidad
      {
        assert ls[1..][i] == ls[i + 1];
        assert ls[0].producto != ls[i + 1].producto;
      }
      RevisionBasta(ps1, ls[1..]);
    }
  }

  lemma {:induction false} DesarmesCrecen(e: Existencias, vs: seq<Vinculo>, ls: seq<Linea>, venta: nat)
    requires DescontarLineas(e, vs, ls, venta).Some?
    ensures |e.desarmes| <= |DescontarLineas(e, vs, ls, venta).value.desarmes|
    decreases |ls|
  {
    if ls != [] {
      DesarmesCrecen(DescontarLinea(e, vs, ls[0], venta).value, vs, ls[1..], venta);
    }
  }

  /** When nothing is disassembled, each product loses exactly what was asked of it. */
  lemma {:induction false} SinDesarmeSimple(e: Existencias, vs: seq<Vinculo>, ls: seq<Linea>, venta: nat)
    requires LineasEn(ls, |e.productos|) && VinculosValidos(vs, |e.productos|)
    requires DescontarLineas(e, vs, ls, venta).Some?
    requires DescontarLineas(e, vs, ls, venta).value.desarmes == e.desarmes
    ensures var r := DescontarLineas(e, vs, ls, venta).value;
            |r.productos| == |e.productos| &&
            forall p | 0 <= p < |e.productos| :: r.productos[p].stock == e.productos[p].stock - Pedidas(ls, p)
    decreases |ls|
  {
    if ls != [] {
      var e1 := DescontarLinea(e, vs, ls[0], venta).value;
      DesarmesCrecen(e1, vs, ls[1..], venta);
      DescontarMarco(e, vs, ls[0].producto, ls[0].cantidad);
      assert e1.desarmes == e.desarmes;
      SinDesarmeSimple(e1, vs, ls[1..], venta);
    }
  }

  /**
   * Exactly when the lines of a sale neither disassemble nor oversell, repeated products
   * included: when no product is asked for, in all, beyond its stock.
   */
  lemma NoSobrevendeSiSoloSi(e: Existencias, vs: seq<Vinculo>, ls: seq<Linea>, venta: nat)
    requires LineasEn(ls, |e.productos|) && VinculosValidos(vs, |e.productos|)
    requires CantidadesPositivas(ls) && StockNoNegativo(e.productos) && MovimientosIntegros(e.movimientos)
    ensures var r := DescontarLineas(e, vs, ls, venta);
            r.Some? &&
            (r.value.desarmes == e.desarmes && StockNoNegativo(r.value.productos) <==>
             forall p | 0 <= p < |e.productos| :: Pedidas(ls, p) <= e.productos[p].stock)
  {
    DescontarLineasMarco(e, vs, ls, venta);
    var r := DescontarLineas(e, vs, ls, venta).value;
    SinDeficitSiSoloSi(e.productos, ls);
    if SinDeficit(e.productos, ls) {
      SinDeficitSimple(e, vs, ls, venta);
    }
    if r.desarmes == e.desarmes {
      SinDesarmeSimple(e, vs, ls, venta);
      forall p | 0 <= p < |e.productos| && r.productos[p].stock >= 0
        ensures Pedidas(ls, p) <= e.productos[p].stock
      {
      }
    }
  }

  /**
   * An online sale that repeats a product can oversell: the re-check compares each line with
   * the whole stock.  Two lines of 4 pass it against a stock of 5 and leave -3.
   */
  lemma RepetidoSobrevende()
    ensures var ps := [Producto(10, 5, true)];
            var ls := [Linea(0, 4, 10, 0, 40), Linea(0, 4, 10, 0, 40)];
            var r := DescontarLineas(Existencias(ps, [], []), [], ls, 0);
            StockSuficiente(ps, ls) && !ProductosDistintos(ls) && !SinDeficit(ps, ls) &&
            r.Some? && |r.value.productos| == 1 && r.value.productos[0].stock == -3
  {
    var ps := [Producto(10, 5, true)];
    var l := Linea(0, 4, 10, 0, 40);
    var ls := [l, l];
    var e := Existencias(ps, [], []);
    assert ls[1..] == [l] && [l][1..] == [];
    var e1 := DescontarLinea(e, [], l, 0).value;
    assert e1.productos == [Producto(10, 1, true)];
    var e2 := DescontarLinea(e1, [], l, 0).value;
    assert e2.productos == [Producto(10, -3, true)];
    assert DescontarLineas(e1, [], [l], 0) == DescontarLineas(e2, [], [], 0);
    assert SumarStock(ps, 0, -4) == [Producto(10, 1, true)];
    assert ls[0].producto == ls[1].producto;
  }

  // ---- Interleavings ---------------------------------------------------------------------------

  /** Work read but not yet committed. */
  datatype Pendiente = PVenta(pedido: Pedido, plan: Plan, sync: bool) | PAnular(venta: nat)

  datatype Sistema = Sistema(s: Estado, pendientes: seq<Pendiente>)

  datatype Evento = Leer(pedido: Pedido, sync: bool) | LeerAnulacion(venta: nat) | Confirmar(i: nat)

  function Quitar(xs: seq<Pendiente>, i: nat): seq<Pendiente>
    requires i < |xs|
  {
    xs[..i] + xs[i + 1..]
  }

  /** The pre-flight of RegistrarVenta, against the store as it is now. */
  function LeerPedido(s: Estado, r: Pedido, sync: bool): Option<Plan> {
    if r.sesion >= |s.sesiones| || !s.sesiones[r.sesion].abierta || Registrado(s.ventas, r.offlineId) then None
    else
      match Planificar(s, r, sync)
      case Err(_) => None
      case Ok(plan) => Some(plan)
  }

  function Suceder(m: Sistema, ev: Evento): Sistema {
    match ev
    case Leer(r, sync) =>
      (match LeerPedido(m.s, r, sync)
       case None => m
       case Some(plan) => m.(pendientes := m.pendientes + [PVenta(r, plan, sync)]))
    case LeerAnulacion(id) =>
      if id >= |m.s.ventas| || m.s.ventas[id].anulada then m
      else m.(pendientes := m.pendientes + [PAnular(id)])
    case Confirmar(i) =>
      if i >= |m.pendientes| then m
      else
        match m.pendientes[i]
        case PVenta(r, plan, sync) => Sistema(TxVenta(m.s, r, plan, sync).0, Quitar(m.pendientes, i))
        case PAnular(id) =>
          if id >= |m.s.ventas| then m
          else
            match TxAnular(m.s, id)
            case None => m.(pendientes := Quitar(m.pendientes, i))
            case Some(s') => Sistema(s', Quitar(m.pendientes, i))
  }

  function Ejecutar(m: Sistema, evs: seq<Evento>): Sistema
    decreases |evs|
  {
    if evs == [] then m else Ejecutar(Suceder(m, evs[0]), evs[1..])
  }

  /** What a request's validation and its client guarantee: positive quantities, distinct products. */
  predicate PedidoSano(r: Pedido) {
    && (forall i | 0 <= i < |r.items| :: r.items[i].cantidad >= 1)
    && (forall i, j | 0 <= i < j < |r.items| :: r.items[i].producto != r.items[j].producto)
  }

  /** Online sales only, each of distinct products. */
  predicate EventosSanos(evs: seq<Evento>) {
    forall i | 0 <= i < |evs| && evs[i].Leer? :: !evs[i].sync && PedidoSano(evs[i].pedido)
  }

  predicate LineasSanas(ls: seq<Linea>) {
    CantidadesPositivas(ls) && ProductosDistintos(ls)
  }

  predicate Seguro(m: Sistema) {
    && StockNoNegativo(m.s.ex.productos)
    && (forall i | 0 <= i < |m.s.ventas| :: CantidadesPositivas(m.s.ventas[i].lineas))
    && (forall i | 0 <= i < |m.pendientes| && m.pendientes[i].PVenta? ::
          !m.pendientes[i].sync && LineasSanas(m.pendientes[i].plan.lineas))
  }

  lemma LeerSeguro(m: Sistema, r: Pedido)
    requires Seguro(m) && PedidoSano(r)
    ensures Seguro(Suceder(m, Leer(r, false))) && Suceder(m, Leer(r, false)).s == m.s
  {
    if LeerPedido(m.s, r, false).Some? {
      PlanUbicado(m.s, r, false);
      var plan := LeerPedido(m.s, r, false).value;
      assert forall i | 0 <= i < |r.items| :: plan.lineas[i] == LineaDe(m.s.ex.productos, r.items[i]);
    }
  }

  /** A committed sale, however stale its reading, only decrements stock that is there. */
  lemma ConfirmarVentaSeguro(s: Estado, r: Pedido, plan: Plan)
    requires StockNoNegativo(s.ex.productos) && LineasSanas(plan.lineas)
    ensures var (s', resp) := TxVenta(s, r, plan, false);
            StockNoNegativo(s'.ex.productos) && s'.ex.desarmes == s.ex.desarmes &&
            (resp.Aceptada? <==> StockSuficiente(s.ex.productos, plan.lineas) && !Registrado(s.ventas, r.offlineId)) &&
            s'.ventas == (if resp.Aceptada? then s.ventas + [VentaDe(r, plan, s.ticket + 1)] else s.ventas)
  {
    if StockSuficiente(s.ex.productos, plan.lineas) {
      RevisionBasta(s.ex.productos, plan.lineas);
      SinDeficitSimple(s.ex, s.vinculos, plan.lineas, |s.ventas|);
    }
  }

  lemma {:induction false} RestaurarSube(e: Existencias, ls: seq<Linea>, venta: nat)
    requires CantidadesPositivas(ls) && StockNoNegativo(e.productos)
    ensures var r := RestaurarLineas(e, ls, venta);
            r.Some? ==> StockNoNegativo(r.value.productos) && r.value.desarmes == e.desarmes
    decreases |ls|
  {
    if ls != [] && ls[0].producto < |e.productos| {
      RestaurarSube(RestaurarLinea(e, ls[0], venta).value, ls[1..], venta);
    }
  }

  lemma ConfirmarSeguro(m: Sistema, i: nat)
    requires Seguro(m) && i < |m.pendientes|
    ensures Seguro(Suceder(m, Confirmar(i)))
    ensures Suceder(m, Confirmar(i)).s.ex.desarmes == m.s.ex.desarmes
  {
    match m.pendientes[i]
    case PVenta(r, plan, _) => ConfirmarVentaSeguro(m.s, r, plan);
    case PAnular(id) =>
      if id < |m.s.ventas| {
        RestaurarSube(m.s.ex, m.s.ventas[id].lineas, id);
      }
  }

  /**
   * No overselling: over any interleaving of online sales with distinct products and of
   * annulments, from non-negative stock, no stock ever goes negative and no disassembly is
   * ever done.
   */
  lemma {:induction false} NuncaSobrevende(m: Sistema, evs: seq<Evento>)
    requires Seguro(m) && EventosSanos(evs)
    ensures StockNoNegativo(Ejecutar(m, evs).s.ex.productos)
    ensures Ejecutar(m, evs).s.ex.desarmes == m.s.ex.desarmes
    decreases |evs|
  {
    if evs != [] {
      match evs[0] {
        case Leer(r, _) => LeerSeguro(m, r);
        case LeerAnulacion(_) =>
        case Confirmar(i) => if i < |m.pendientes| { ConfirmarSeguro(m, i); }
      }
      NuncaSobrevende(Suceder(m, evs[0]), evs[1..]);
    }
  }
}
