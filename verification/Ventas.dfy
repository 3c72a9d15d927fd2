/** What venta_service.go does to the store, as functions from state to state. */
module Ventas {
  import opened Datos
  import opened Inventario
  import opened Sumas

  // ---- Pre-flight ------------------------------------------------------------------------

  /** The first check that fails for one requested item, in the source's order. */
  function ErrorDeItem(ps: seq<Producto>, vs: seq<Vinculo>, it: Item, sync: bool): Option<Error> {
    if it.producto >= |ps| then Some(ProductoNoEncontrado)
    else
      var p := ps[it.producto];
      if !p.activo then Some(ProductoInactivo)
      else if !sync && !PreflightAcepta(ps, vs, it.producto, it.cantidad) then Some(StockInsuficiente)
      else if 2 * it.descuento > p.precioVenta * it.cantidad then Some(DescuentoExcesivo)
      else None
  }

  function PrimerError(ps: seq<Producto>, vs: seq<Vinculo>, items: seq<Item>, sync: bool): (r: Option<Error>)
    ensures r.None? <==> forall i | 0 <= i < |items| :: ErrorDeItem(ps, vs, items[i], sync).None?
  {
    if items == [] then None
    else
      var e := ErrorDeItem(ps, vs, items[0], sync);
      if e.Some? then e else PrimerError(ps, vs, items[1..], sync)
  }

  function LineaDe(ps: seq<Producto>, it: Item): Linea
    requires it.producto < |ps|
  {
    var precio := ps[it.producto].precioVenta;
    Linea(it.producto, it.cantidad, precio, it.descuento, precio * it.cantidad - it.descuento)
  }

  function Lineas(ps: seq<Producto>, items: seq<Item>): (ls: seq<Linea>)
    requires forall i | 0 <= i < |items| :: items[i].producto < |ps|
    ensures |ls| == |items| && forall i | 0 <= i < |items| :: ls[i] == LineaDe(ps, items[i])
  {
    seq(|items|, i requires 0 <= i < |items| => LineaDe(ps, items[i]))
  }

  /** Some item asks for more than the stock read by the pre-flight. */
  predicate HayConflicto(ps: seq<Producto>, items: seq<Item>)
    requires forall i | 0 <= i < |items| :: items[i].producto < |ps|
  {
    exists i | 0 <= i < |items| :: ps[items[i].producto].stock < items[i].cantidad
  }

  function SubtotalDe(l: Linea): int { l.subtotal }
  function DescuentoDe(l: Linea): int { l.descuento }
  function MontoDe(p: Pago): int { p.monto }

  /** The lines, totals and flag computed before the transaction. */
  datatype Plan = Plan(lineas: seq<Linea>, total: int, descuento: int, conflicto: bool)

  predicate Ubicados(ps: seq<Producto>, items: seq<Item>) {
    forall i | 0 <= i < |items| :: items[i].producto < |ps|
  }

  function PlanDe(ps: seq<Producto>, items: seq<Item>): Plan
    requires Ubicados(ps, items)
  {
    var ls := Lineas(ps, items);
    Plan(ls, Suma(SubtotalDe, ls), Suma(DescuentoDe, ls), HayConflicto(ps, items))
  }

  /** One more item adds its line, its amounts and its conflict. */
  lemma PlanAgrega(ps: seq<Producto>, items: seq<Item>, it: Item)
    requires Ubicados(ps, items) && it.producto < |ps|
    ensures var p, l := PlanDe(ps, items), LineaDe(ps, it);
            PlanDe(ps, items + [it]) ==
            Plan(p.lineas + [l], p.total + l.subtotal, p.descuento + l.descuento,
                 p.conflicto || ps[it.producto].stock < it.cantidad)
  {
    var ls, l := Lineas(ps, items), LineaDe(ps, it);
    assert Lineas(ps, items + [it]) == ls + [l];
    SumaAgrega(SubtotalDe, ls, l);
    SumaAgrega(DescuentoDe, ls, l);
    assert HayConflicto(ps, items + [it]) <==> HayConflicto(ps, items) || ps[it.producto].stock < it.cantidad by {
      var n := |items|;
      assert (items + [it])[n] == it;
      assert forall i | 0 <= i < n :: (items + [it])[i] == items[i];
    }
  }

  function Planificar(s: Estado, r: Pedido, sync: bool): Result<Plan, Error> {
    var ps := s.ex.productos;
    match PrimerError(ps, s.vinculos, r.items, sync)
    case Some(e) => Err(e)
    case None =>
      assert forall i | 0 <= i < |r.items| :: ErrorDeItem(ps, s.vinculos, r.items[i], sync).None?;
      var plan := PlanDe(ps, r.items);
      if Suma(MontoDe, r.pagos) < plan.total then Err(PagoInsuficiente) else Ok(plan)
  }

  // ---- Inside the transaction --------------------------------------------------------------

  function StockDe(ps: seq<Producto>, p: nat): int {
    if p < |ps| then ps[p].stock else 0
  }

  /** Decrement one line and log it.  The log takes no account of a disassembly. */
  function DescontarLinea(e: Existencias, vs: seq<Vinculo>, l: Linea, venta: nat): Option<Existencias> {
    var antes := StockDe(e.productos, l.producto);
    match DescontarStock(e, vs, l.producto, l.cantidad)
    case None => None
    case Some(e') =>
      Some(e'.(movimientos := e'.movimientos +
               [MovStock(l.producto, VentaStock, -l.cantidad, antes, antes - l.cantidad, Some(venta))]))
  }

  function DescontarLineas(e: Existencias, vs: seq<Vinculo>, ls: seq<Linea>, venta: nat): Option<Existencias>
    decreases |ls|
  {
    if ls == [] then Some(e)
    else
      match DescontarLinea(e, vs, ls[0], venta)
      case None => None
      case Some(e') => DescontarLineas(e', vs, ls[1..], venta)
  }

  /** The locked re-check of an online sale: every line fits the stock, line by line. */
  predicate StockSuficiente(ps: seq<Producto>, ls: seq<Linea>) {
    forall i | 0 <= i < |ls| :: ls[i].producto < |ps| && ps[ls[i].producto].stock >= ls[i].cantidad
  }

  /** FindByOfflineID. */
  function BuscarOffline(ventas: seq<Venta>, oid: string): (r: Option<nat>)
    ensures r.Some? ==> r.value < |ventas| && ventas[r.value].offlineId == Some(oid)
    ensures r.None? ==> forall v | v in ventas :: v.offlineId != Some(oid)
  {
    if ventas == [] then None
    else
      var n := |ventas| - 1;
      match BuscarOffline(ventas[..n], oid)
      case Some(i) => Some(i)
      case None => if ventas[n].offlineId == Some(oid) then Some(n) else None
  }

  predicate Registrado(ventas: seq<Venta>, oid: Option<string>) {
    oid.Some? && BuscarOffline(ventas, oid.value).Some?
  }

  function MovimientosDePago(sesion: nat, tipo: TipoMovCaja, signo: int, pagos: seq<Pago>, venta: nat): seq<MovCaja> {
    seq(|pagos|, i requires 0 <= i < |pagos| =>
      MovCaja(sesion, tipo, pagos[i].metodo, signo * pagos[i].monto, Some(venta)))
  }

  function VentaDe(r: Pedido, plan: Plan, ticket: nat): Venta {
    Venta(ticket, r.sesion, plan.total, plan.descuento, plan.total, false, r.offlineId, plan.conflicto,
          plan.lineas, r.pagos)
  }

  /**
   * The transaction of a sale.  A failure rolls back everything except the ticket
   * sequence, whose nextval is not transactional.
   */
  function TxVenta(s: Estado, r: Pedido, plan: Plan, sync: bool): (Estado, Respuesta) {
    if !sync && !StockSuficiente(s.ex.productos, plan.lineas) then (s, Rechazada(StockInsuficiente))
    else
      var ticket := s.ticket + 1;
      var id := |s.ventas|;
      if Registrado(s.ventas, r.offlineId) then (s.(ticket := ticket), Rechazada(OfflineDuplicado))
      else
        match DescontarLineas(s.ex, s.vinculos, plan.lineas, id)
        case None => (s.(ticket := ticket), Rechazada(PadreNoEncontrado))
        case Some(ex) =>
          (Estado(ex, s.vinculos, s.ventas + [VentaDe(r, plan, ticket)], s.sesiones,
                  s.caja + MovimientosDePago(r.sesion, VentaCaja, 1, r.pagos, id), ticket),
           Aceptada(id, Suma(MontoDe, r.pagos) - plan.total))
  }

  /** registrarVentaInternal. */
  function RegistrarVenta(s: Estado, r: Pedido, sync: bool): (Estado, Respuesta) {
    if r.sesion >= |s.sesiones| then (s, Rechazada(SesionNoEncontrada))
    else if !s.sesiones[r.sesion].abierta then (s, Rechazada(SesionCerrada))
    else if Registrado(s.ventas, r.offlineId) then (s, Duplicada(BuscarOffline(s.ventas, r.offlineId.value).value))
    else
      match Planificar(s, r, sync)
      case Err(e) => (s, Rechazada(e))
      case Ok(plan) => TxVenta(s, r, plan, sync)
  }

  /** SyncBatch: every sale in turn; a rejected one does not stop the batch. */
  function SyncBatch(s: Estado, rs: seq<Pedido>): Estado
    decreases |rs|
  {
    if rs == [] then s else SyncBatch(RegistrarVenta(s, rs[0], true).0, rs[1..])
  }

  function RespuestasSync(s: Estado, rs: seq<Pedido>): seq<Respuesta>
    decreases |rs|
  {
    if rs == [] then []
    else
      var (s', resp) := RegistrarVenta(s, rs[0], true);
      [resp] + RespuestasSync(s', rs[1..])
  }

  // ---- Annulment -----------------------------------------------------------------------------

  function RestaurarLinea(e: Existencias, l: Linea, venta: nat): Option<Existencias> {
    if l.producto >= |e.productos| then None
    else
      var antes := e.productos[l.producto].stock;
      Some(e.(productos := SumarStock(e.productos, l.producto, l.cantidad),
              movimientos := e.movimientos +
              [MovStock(l.producto, RestoreAnulacion, l.cantidad, antes, antes + l.cantidad, Some(venta))]))
  }

  function RestaurarLineas(e: Existencias, ls: seq<Linea>, venta: nat): Option<Existencias>
    decreases |ls|
  {
    if ls == [] then Some(e)
    else
      match RestaurarLinea(e, ls[0], venta)
      case None => None
      case Some(e') => RestaurarLineas(e', ls[1..], venta)
  }

  function TxAnular(s: Estado, id: nat): Option<Estado>
    requires id < |s.ventas|
  {
    var v := s.ventas[id];
    match RestaurarLineas(s.ex, v.lineas, id)
    case None => None
    case Some(ex) =>
      Some(s.(ex := ex, ventas := s.ventas[id := v.(anulada := true)],
              caja := s.caja + MovimientosDePago(v.sesion, AnulacionCaja, -1, v.pagos, id)))
  }

  /** AnularVenta.  It does not ask whether the sale's session is still open. */
  function AnularVenta(s: Estado, id: nat): Result<Estado, Error> {
    if id >= |s.ventas| then Err(VentaNoEncontrada)
    else if s.ventas[id].anulada then Err(VentaYaAnulada)
    else
      match TxAnular(s, id)
      case None => Err(ProductoNoEncontrado)
      case Some(s') => Ok(s')
  }
}
