/**
 * The services over the database, as they change it row by row.  Each method is proved
 * against the function of the same operation.
 */
module Servicios {
  import opened Aritmetica
  import opened Datos
  import opened Desvio
  import opened Inventario
  import opened Sumas
  import opened Integridad
  import V = Ventas
  import C = Caja
  import R = Corridas
  import opened DesdeCero
  import opened Efectos

  class Tienda {
    var productos: seq<Producto>
    var vinculos: seq<Vinculo>
    var ventas: seq<Venta>
    var movimientosStock: seq<MovStock>
    var sesiones: seq<Sesion>
    var movimientosCaja: seq<MovCaja>
    var ticketSeq: nat
    ghost var desarmes: seq<Desarme>

    ghost function Ex(): Existencias
      reads this
    {
      Existencias(productos, movimientosStock, desarmes)
    }

    ghost function Abs(): Estado
      reads this
    {
      Estado(Ex(), vinculos, ventas, sesiones, movimientosCaja, ticketSeq)
    }

    /** The tables are intact; every operation of the services keeps them so. */
    ghost predicate Valid()
      reads this
    {
      Integro(Abs())
    }

    constructor (productos: seq<Producto>)
      ensures Valid() && Abs() == TiendaNueva(productos)
    {
      this.productos := productos;
      vinculos, ventas, movimientosStock, sesiones, movimientosCaja, ticketSeq := [], [], [], [], [], 0;
      desarmes := [];
      new;
      NuevaEnOrden(productos);
    }

    static lemma Guarda(s: Estado, op: R.Op)
      ensures Integro(s) ==> Integro(R.Paso(s, op))
    {
      if Integro(s) {
        PasoGuarda(s, op);
      }
    }

    // ---- inventario_service.go -------------------------------------------------------------

    method UpdateStockTx(id: nat, delta: int) returns (ok: bool)
      modifies this`productos
      ensures ok <==> id < |old(productos)|
      ensures productos == if ok then SumarStock(old(productos), id, delta) else old(productos)
    {
      ok := id < |productos|;
      if ok {
        productos := productos[id := productos[id].(stock := productos[id].stock + delta)];
      }
    }

    method DescontarStockTx(p: nat, cantidad: int) returns (ok: bool)
      modifies this`productos, this`desarmes
      ensures var r := DescontarStock(old(Ex()), vinculos, p, cantidad);
              ok == r.Some? && Ex() == if ok then r.value else old(Ex())
    {
      if p >= |productos| {
        return false;
      }
      var stock := productos[p].stock;
      if stock >= cantidad {
        ok := UpdateStockTx(p, -cantidad);
        return;
      }
      var vinculo := VinculoAuto(vinculos, p);
      if vinculo.None? {
        ok := UpdateStockTx(p, -cantidad);
        return;
      }
      var v := vinculo.value;
      var deficit := cantidad - stock;
      var padresNecesarios := (deficit + v.unidades - 1) / v.unidades;
      if v.padre >= |productos| {
        return false;
      }
      if productos[v.padre].stock < padresNecesarios {
        ok := UpdateStockTx(p, -cantidad);
        return;
      }
      var unidadesGeneradas := padresNecesarios * v.unidades;
      ok := UpdateStockTx(v.padre, -padresNecesarios);
      ok := UpdateStockTx(p, unidadesGeneradas);
      ok := UpdateStockTx(p, -cantidad);
      desarmes := desarmes + [Desarme(v.padre, p, v.unidades, padresNecesarios, |movimientosStock| + 1)];
    }

    method DesarmeManual(i: nat, padres: int) returns (r: Result<int, Error>)
      modifies this`productos, this`desarmes
      ensures Abs() == R.Tras(old(Abs()), R.DesarmarManual(old(Abs()), i, padres))
      ensures R.MismoFallo(r, R.DesarmarManual(old(Abs()), i, padres))
      ensures r.Ok? ==> i < |vinculos| && r.value == padres * vinculos[i].unidades
      ensures Abs() == R.Paso(old(Abs()), R.DesarmeManual(i, padres))
      ensures old(Valid()) ==> Valid()
    {
      Guarda(Abs(), R.DesarmeManual(i, padres));
      if i >= |vinculos| {
        return Err(VinculoNoEncontrado);
      }
      var v := vinculos[i];
      if v.padre >= |productos| {
        return Err(PadreNoEncontrado);
      }
      if productos[v.padre].stock < padres {
        return Err(StockInsuficiente);
      }
      var unidadesGeneradas := padres * v.unidades;
      var antes := productos;
      var ok := UpdateStockTx(v.padre, -padres);
      ok := UpdateStockTx(v.hijo, unidadesGeneradas);
      if !ok {
        productos := antes;
        return Err(ProductoNoEncontrado);
      }
      desarmes := desarmes + [Desarme(v.padre, v.hijo, v.unidades, padres, |movimientosStock|)];
      return Ok(unidadesGeneradas);
    }

    method CrearVinculo(pos: nat, v: Vinculo) returns (r: Result<(), Error>)
      modifies this`vinculos
      ensures Abs() == R.Tras(old(Abs()), R.Vincular(old(Abs()), pos, v))
      ensures R.MismoFallo(r, R.Vincular(old(Abs()), pos, v))
      ensures r.Ok? ==> multiset(vinculos) == multiset(old(vinculos)) + multiset{v}
      ensures Abs() == R.Paso(old(Abs()), R.CrearVinculo(pos, v.padre, v.hijo, v.unidades, v.desarmeAuto))
      ensures old(Valid()) ==> Valid()
    {
      Guarda(Abs(), R.CrearVinculo(pos, v.padre, v.hijo, v.unidades, v.desarmeAuto));
      if v.padre == v.hijo {
        return Err(HijoDeSiMismo);
      }
      if v.padre >= |productos| {
        return Err(PadreNoEncontrado);
      }
      if v.hijo >= |productos| {
        return Err(ProductoNoEncontrado);
      }
      if exists x | x in vinculos :: x.padre == v.padre && x.hijo == v.hijo {
        return Err(VinculoDuplicado);
      }
      var k := if pos <= |vinculos| then pos else |vinculos|;
      InsertarUno(vinculos, k, v);
      vinculos := vinculos[..k] + [v] + vinculos[k..];
      return Ok(());
    }

    static lemma InsertarUno<T>(xs: seq<T>, k: nat, x: T)
      requires k <= |xs|
      ensures multiset(xs[..k] + [x] + xs[k..]) == multiset(xs) + multiset{x}
    {
      assert xs == xs[..k] + xs[k..];
    }

    method ActualizarVinculo(i: nat, unidades: Positivo, auto: bool) returns (r: Result<(), Error>)
      modifies this`vinculos
      ensures Abs() == R.Tras(old(Abs()), R.CambiarVinculo(old(Abs()), i, unidades, auto))
      ensures R.MismoFallo(r, R.CambiarVinculo(old(Abs()), i, unidades, auto))
      ensures Abs() == R.Paso(old(Abs()), R.ActualizarVinculo(i, unidades, auto))
      ensures old(Valid()) ==> Valid()
    {
      Guarda(Abs(), R.ActualizarVinculo(i, unidades, auto));
      if i >= |vinculos| {
        return Err(VinculoNoEncontrado);
      }
      vinculos := vinculos[i := vinculos[i].(unidades := unidades, desarmeAuto := auto)];
      return Ok(());
    }

    method EliminarVinculo(i: nat) returns (r: Result<(), Error>)
      modifies this`vinculos
      ensures Abs() == R.Tras(old(Abs()), R.Desvincular(old(Abs()), i))
      ensures R.MismoFallo(r, R.Desvincular(old(Abs()), i))
      ensures r.Ok? ==> multiset(old(vinculos)) == multiset(vinculos) + multiset{old(vinculos)[i]}
      ensures Abs() == R.Paso(old(Abs()), R.EliminarVinculo(i))
      ensures old(Valid()) ==> Valid()
    {
      Guarda(Abs(), R.EliminarVinculo(i));
      if i >= |vinculos| {
        return Err(VinculoNoEncontrado);
      }
      QuitarUno(vinculos, i);
      vinculos := vinculos[..i] + vinculos[i + 1..];
      return Ok(());
    }

    static lemma QuitarUno<T>(xs: seq<T>, i: nat)
      requires i < |xs|
      ensures multiset(xs) == multiset(xs[..i] + xs[i + 1..]) + multiset{xs[i]}
    {
      assert xs == xs[..i] + [xs[i]] + xs[i + 1..];
    }

    // ---- producto_service.go ---------------------------------------------------------------

    method AjustarStock(p: nat, delta: int) returns (r: Result<int, Error>)
      modifies this`productos, this`movimientosStock
      ensures Abs() == R.Tras(old(Abs()), R.Ajustar(old(Abs()), p, delta))
      ensures R.MismoFallo(r, R.Ajustar(old(Abs()), p, delta))
      ensures r.Ok? ==> p < |productos| == |old(productos)| &&
                        r.value == productos[p].stock == old(productos)[p].stock + delta >= 0
      ensures Abs() == R.Paso(old(Abs()), R.AjustarStock(p, delta))
      ensures old(Valid()) ==> Valid()
    {
      Guarda(Abs(), R.AjustarStock(p, delta));
      if p >= |productos| {
        return Err(ProductoNoEncontrado);
      }
      if !productos[p].activo {
        return Err(ProductoInactivo);
      }
      var nuevoStock := productos[p].stock + delta;
      if nuevoStock < 0 {
        return Err(StockInsuficiente);
      }
      var stockAntes := productos[p].stock;
      var ok := UpdateStockTx(p, delta);
      movimientosStock := movimientosStock + [MovStock(p, AjusteManual, delta, stockAntes, nuevoStock, None)];
      return Ok(productos[p].stock);
    }

    // ---- venta_service.go ------------------------------------------------------------------

    /** The checks of one item, in order. */
    method ResolverItem(it: Item, sync: bool) returns (r: Result<Linea, Error>)
      ensures var e := V.ErrorDeItem(productos, vinculos, it, sync);
              if e.Some? then r == Err(e.value)
              else it.producto < |productos| && r == Ok(V.LineaDe(productos, it))
    {
      if it.producto >= |productos| {
        return Err(ProductoNoEncontrado);
      }
      var p := productos[it.producto];
      if !p.activo {
        return Err(ProductoInactivo);
      }
      if p.stock < it.cantidad && !sync {
        var canDesarme := false;
        var vinculo := VinculoAuto(vinculos, it.producto);
        if vinculo.Some? {
          var deficit := it.cantidad - p.stock;
          var padresNecesarios := (deficit + vinculo.value.unidades - 1) / vinculo.value.unidades;
          if vinculo.value.padre < |productos| {
            canDesarme := productos[vinculo.value.padre].stock >= padresNecesarios;
          }
        }
        if !canDesarme {
          return Err(StockInsuficiente);
        }
      }
      var lineTotal := p.precioVenta * it.cantidad;
      if 2 * it.descuento > lineTotal {
        return Err(DescuentoExcesivo);
      }
      return Ok(Linea(it.producto, it.cantidad, p.precioVenta, it.descuento, lineTotal - it.descuento));
    }

    /** The pre-flight loop: lines, totals and the conflict flag. */
    method ResolverItems(items: seq<Item>, sync: bool) returns (r: Result<V.Plan, Error>)
      ensures var e := V.PrimerError(productos, vinculos, items, sync);
              if e.Some? then r == Err(e.value)
              else V.Ubicados(productos, items) && r == Ok(V.PlanDe(productos, items))
    {
      var resueltos: seq<Linea> := [];
      var subtotal, descuentoTotal, conflicto := 0, 0, false;
      for i := 0 to |items|
        invariant forall j | 0 <= j < i :: V.ErrorDeItem(productos, vinculos, items[j], sync).None?
        invariant V.Ubicados(productos, items[..i])
        invariant V.Plan(resueltos, subtotal, descuentoTotal, conflicto) == V.PlanDe(productos, items[..i])
      {
        var resuelto := ResolverItem(items[i], sync);
        if resuelto.Err? {
          ErrorEn(items, sync, i);
          return Err(resuelto.error);
        }
        var linea := resuelto.value;
        V.PlanAgrega(productos, items[..i], items[i]);
        assert items[..i + 1] == items[..i] + [items[i]];
        conflicto := conflicto || productos[linea.producto].stock < linea.cantidad;
        subtotal := subtotal + linea.subtotal;
        descuentoTotal := descuentoTotal + linea.descuento;
        resueltos := resueltos + [linea];
      }
      assert items[..|items|] == items;
      return Ok(V.Plan(resueltos, subtotal, descuentoTotal, conflicto));
    }

    lemma ErrorEn(items: seq<Item>, sync: bool, i: nat)
      requires i < |items| && V.ErrorDeItem(productos, vinculos, items[i], sync).Some?
      requires forall j | 0 <= j < i :: V.ErrorDeItem(productos, vinculos, items[j], sync).None?
      ensures V.PrimerError(productos, vinculos, items, sync) == V.ErrorDeItem(productos, vinculos, items[i], sync)
    {
      if i > 0 {
        forall j | 0 <= j < i - 1 ensures V.ErrorDeItem(productos, vinculos, items[1..][j], sync).None? {
          assert items[1..][j] == items[j + 1];
        }
        ErrorEn(items[1..], sync, i - 1);
      }
    }

    method SumarPagos(pagos: seq<Pago>) returns (total: int)
      ensures total == Suma(V.MontoDe, pagos)
    {
      total := 0;
      for k := 0 to |pagos|
        invariant total == Suma(V.MontoDe, pagos[..k])
      {
        assert pagos[..k + 1] == pagos[..k] + [pagos[k]];
        SumaAgrega(V.MontoDe, pagos[..k], pagos[k]);
        total := total + pagos[k].monto;
      }
      assert pagos[..|pagos|] == pagos;
    }

    /** The locked re-check, row by row. */
    method RevisarStock(lineas: seq<Linea>) returns (ok: bool)
      ensures ok == V.StockSuficiente(productos, lineas)
    {
      for i := 0 to |lineas|
        invariant V.StockSuficiente(productos, lineas[..i])
      {
        if lineas[i].producto >= |productos| || productos[lineas[i].producto].stock < lineas[i].cantidad {
          return false;
        }
      }
      assert lineas[..|lineas|] == lineas;
      return true;
    }

    /** Decrements and logs every line; false is an error in the middle. */
    method DescontarVenta(lineas: seq<Linea>, id: nat) returns (ok: bool)
      modifies this`productos, this`movimientosStock, this`desarmes
      ensures var r := V.DescontarLineas(old(Ex()), vinculos, lineas, id);
              ok == r.Some? && (ok ==> Ex() == r.value)
    {
      for i := 0 to |lineas|
        invariant V.DescontarLineas(Ex(), vinculos, lineas[i..], id) == V.DescontarLineas(old(Ex()), vinculos, lineas, id)
      {
        var l := lineas[i];
        assert lineas[i..][0] == l && lineas[i..][1..] == lineas[i + 1..];
        var stockAntes := if l.producto < |productos| then productos[l.producto].stock else 0;
        var descontado := DescontarStockTx(l.producto, l.cantidad);
        if !descontado {
          return false;
        }
        movimientosStock := movimientosStock +
          [MovStock(l.producto, VentaStock, -l.cantidad, stockAntes, stockAntes - l.cantidad, Some(id))];
      }
      return true;
    }

    method AsentarPagos(sesion: nat, tipo: TipoMovCaja, signo: int, pagos: seq<Pago>, id: nat)
      modifies this`movimientosCaja
      ensures movimientosCaja == old(movimientosCaja) + V.MovimientosDePago(sesion, tipo, signo, pagos, id)
    {
      for k := 0 to |pagos|
        invariant movimientosCaja == old(movimientosCaja) + V.MovimientosDePago(sesion, tipo, signo, pagos, id)[..k]
      {
        movimientosCaja := movimientosCaja + [MovCaja(sesion, tipo, pagos[k].metodo, signo * pagos[k].monto, Some(id))];
      }
    }

    /** The sale's transaction, with its rollback. */
    method TransaccionVenta(pedido: Pedido, plan: V.Plan, sync: bool) returns (r: Respuesta)
      modifies this
      ensures (Abs(), r) == V.TxVenta(old(Abs()), pedido, plan, sync)
    {
      if !sync {
        var alcanza := RevisarStock(plan.lineas);
        if !alcanza {
          return Rechazada(StockInsuficiente);
        }
      }
      ticketSeq := ticketSeq + 1;
      if pedido.offlineId.Some? {
        var existente := V.BuscarOffline(ventas, pedido.offlineId.value);
        if existente.Some? {
          return Rechazada(OfflineDuplicado);
        }
      }
      var id := |ventas|;
      var productosAntes, movimientosAntes := productos, movimientosStock;
      ghost var desarmesAntes := desarmes;
      var ok := DescontarVenta(plan.lineas, id);
      if !ok {
        productos, movimientosStock := productosAntes, movimientosAntes;
        desarmes := desarmesAntes;
        return Rechazada(PadreNoEncontrado);
      }
      GuardarVenta(pedido, plan, id);
      var totalPagos := SumarPagos(pedido.pagos);
      return Aceptada(id, totalPagos - plan.total);
    }

    /** The sale's row and its ledger rows. */
    method GuardarVenta(pedido: Pedido, plan: V.Plan, id: nat)
      modifies this`ventas, this`movimientosCaja
      ensures ventas == old(ventas) + [V.VentaDe(pedido, plan, ticketSeq)]
      ensures movimientosCaja == old(movimientosCaja) + V.MovimientosDePago(pedido.sesion, VentaCaja, 1, pedido.pagos, id)
    {
      ventas := ventas + [Venta(ticketSeq, pedido.sesion, plan.total, plan.descuento, plan.total, false,
                                pedido.offlineId, plan.conflicto, plan.lineas, pedido.pagos)];
      AsentarPagos(pedido.sesion, VentaCaja, 1, pedido.pagos, id);
    }

    /** registrarVentaInternal. */
    method RegistrarVenta(pedido: Pedido, sync: bool) returns (r: Respuesta)
      modifies this
      ensures (Abs(), r) == V.RegistrarVenta(old(Abs()), pedido, sync)
      ensures r.Duplicada? ==> Abs() == old(Abs()) && r.id < |ventas| && ventas[r.id].offlineId == pedido.offlineId
      ensures Abs() == R.Paso(old(Abs()), R.Vender(pedido, sync))
      ensures old(Valid()) ==> Valid()
    {
      Guarda(Abs(), R.Vender(pedido, sync));
      if pedido.sesion >= |sesiones| {
        return Rechazada(SesionNoEncontrada);
      }
      if !sesiones[pedido.sesion].abierta {
        return Rechazada(SesionCerrada);
      }
      if pedido.offlineId.Some? {
        var existente := V.BuscarOffline(ventas, pedido.offlineId.value);
        if existente.Some? {
          return Duplicada(existente.value);
        }
      }
      var resueltos := ResolverItems(pedido.items, sync);
      if resueltos.Err? {
        return Rechazada(resueltos.error);
      }
      var plan := resueltos.value;
      var totalPagos := SumarPagos(pedido.pagos);
      if totalPagos < plan.total {
        return Rechazada(PagoInsuficiente);
      }
      r := TransaccionVenta(pedido, plan, sync);
    }

    static lemma SyncDesde(s: Estado, pedidos: seq<Pedido>, i: nat)
      requires i < |pedidos|
      ensures var (s', r) := V.RegistrarVenta(s, pedidos[i], true);
              V.SyncBatch(s, pedidos[i..]) == V.SyncBatch(s', pedidos[i + 1..]) &&
              V.RespuestasSync(s, pedidos[i..]) == [r] + V.RespuestasSync(s', pedidos[i + 1..])
    {
      assert pedidos[i..][0] == pedidos[i] && pedidos[i..][1..] == pedidos[i + 1..];
    }

    method SyncBatch(pedidos: seq<Pedido>) returns (rs: seq<Respuesta>)
      modifies this
      ensures Abs() == V.SyncBatch(old(Abs()), pedidos)
      ensures rs == V.RespuestasSync(old(Abs()), pedidos)
      ensures old(Valid()) ==> Valid()
    {
      rs := [];
      for i := 0 to |pedidos|
        invariant V.SyncBatch(Abs(), pedidos[i..]) == V.SyncBatch(old(Abs()), pedidos)
        invariant rs + V.RespuestasSync(Abs(), pedidos[i..]) == V.RespuestasSync(old(Abs()), pedidos)
        invariant old(Valid()) ==> Valid()
      {
        SyncDesde(Abs(), pedidos, i);
        var r := RegistrarVenta(pedidos[i], true);
        rs := rs + [r];
      }
    }

    method RestaurarVenta(lineas: seq<Linea>, id: nat) returns (ok: bool)
      modifies this`productos, this`movimientosStock
      ensures var r := V.RestaurarLineas(old(Ex()), lineas, id);
              ok == r.Some? && (ok ==> Ex() == r.value)
    {
      for i := 0 to |lineas|
        invariant V.RestaurarLineas(Ex(), lineas[i..], id) == V.RestaurarLineas(old(Ex()), lineas, id)
      {
        var l := lineas[i];
        assert lineas[i..][0] == l && lineas[i..][1..] == lineas[i + 1..];
        var stockAntes := if l.producto < |productos| then productos[l.producto].stock else 0;
        var sumado := UpdateStockTx(l.producto, l.cantidad);
        if !sumado {
          return false;
        }
        movimientosStock := movimientosStock +
          [MovStock(l.producto, RestoreAnulacion, l.cantidad, stockAntes, stockAntes + l.cantidad, Some(id))];
      }
      return true;
    }

    method AnularVenta(id: nat) returns (r: Result<(), Error>)
      modifies this
      ensures Abs() == R.Tras(old(Abs()), V.AnularVenta(old(Abs()), id))
      ensures R.MismoFallo(r, V.AnularVenta(old(Abs()), id))
      ensures Abs() == R.Paso(old(Abs()), R.Anular(id))
      ensures old(Valid()) ==> Valid()
    {
      Guarda(Abs(), R.Anular(id));
      if id >= |ventas| {
        return Err(VentaNoEncontrada);
      }
      var venta := ventas[id];
      if venta.anulada {
        return Err(VentaYaAnulada);
      }
      var productosAntes, movimientosAntes := productos, movimientosStock;
      var ok := RestaurarVenta(venta.lineas, id);
      if !ok {
        productos, movimientosStock := productosAntes, movimientosAntes;
        return Err(ProductoNoEncontrado);
      }
      AsentarPagos(venta.sesion, AnulacionCaja, -1, venta.pagos, id);
      ventas := ventas[id := venta.(anulada := true)];
      return Ok(());
    }

    // ---- caja_service.go ---------------------------------------------------------------------

    /** SumMovimientosByMetodo: the grouped rows, folded into a map of the five methods. */
    method SumMovimientosByMetodo(sesion: nat) returns (sumas: map<Metodo, int>)
      ensures forall m: Metodo :: m in sumas && sumas[m] == C.SumaMetodo(movimientosCaja, sesion, m)
    {
      var filas := C.Agrupar(movimientosCaja, sesion, C.METODOS);
      sumas := map[Efectivo := 0, Debito := 0, Credito := 0, Transferencia := 0, QR := 0];
      forall m: Metodo ensures m in sumas {
        TodosLosMetodos(m);
      }
      for i := 0 to |filas|
        invariant forall m: Metodo :: m in sumas && sumas[m] == Suma(C.FilaEn(m), filas[..i])
      {
        UnaFilaMas(filas, i);
        sumas := sumas[filas[i].metodo := sumas[filas[i].metodo] + filas[i].total];
      }
      assert filas[..|filas|] == filas;
      forall m: Metodo ensures sumas[m] == C.SumaMetodo(movimientosCaja, sesion, m) {
        TodosLosMetodos(m);
        C.AgruparExacto(movimientosCaja, sesion, C.METODOS, m);
      }
    }

    static lemma UnaFilaMas(filas: seq<C.Fila>, i: nat)
      requires i < |filas|
      ensures forall m: Metodo :: Suma(C.FilaEn(m), filas[..i + 1]) ==
                                  Suma(C.FilaEn(m), filas[..i]) + (if filas[i].metodo == m then filas[i].total else 0)
    {
      assert filas[..i + 1] == filas[..i] + [filas[i]];
      forall m: Metodo {
        SumaAgrega(C.FilaEn(m), filas[..i], filas[i]);
      }
    }

    static lemma TodosLosMetodos(m: Metodo)
      ensures m in C.METODOS
    {
      match m
      case Efectivo => assert C.METODOS[0] == m;
      case Debito => assert C.METODOS[1] == m;
      case Credito => assert C.METODOS[2] == m;
      case Transferencia => assert C.METODOS[3] == m;
      case QR => assert C.METODOS[4] == m;
    }

    method CalcularEsperado(sesion: nat) returns (esperado: Montos)
      requires sesion < |sesiones|
      ensures esperado == C.Esperado(Abs(), sesion)
    {
      var sumas := SumMovimientosByMetodo(sesion);
      esperado := Montos(sesiones[sesion].montoInicial + sumas[Efectivo], sumas[Debito], sumas[Credito],
                         sumas[Transferencia], sumas[QR]);
    }

    method Abrir(pdv: int, usuario: nat, montoInicial: int) returns (id: nat)
      modifies this`sesiones
      ensures (Abs(), id) == C.Abrir(old(Abs()), pdv, usuario, montoInicial)
      ensures Abs() == R.Paso(old(Abs()), R.AbrirCaja(pdv, usuario, montoInicial))
      ensures old(Valid()) ==> Valid()
    {
      Guarda(Abs(), R.AbrirCaja(pdv, usuario, montoInicial));
      var existente := C.AbiertaPorPDV(sesiones, pdv);
      if existente.Some? {
        return existente.value;
      }
      id := |sesiones|;
      sesiones := sesiones + [Sesion(pdv, usuario, montoInicial, true, None)];
    }

    method RegistrarMovimiento(sesion: nat, egreso: bool, metodo: Metodo, monto: int) returns (r: Result<(), Error>)
      modifies this`movimientosCaja
      ensures Abs() == R.Tras(old(Abs()), C.RegistrarMovimiento(old(Abs()), sesion, egreso, metodo, monto))
      ensures R.MismoFallo(r, C.RegistrarMovimiento(old(Abs()), sesion, egreso, metodo, monto))
      ensures r.Ok? ==> movimientosCaja == old(movimientosCaja) +
                        [MovCaja(sesion, if egreso then EgresoManual else IngresoManual, metodo, if egreso then -monto else monto, None)]
      ensures Abs() == R.Paso(old(Abs()), R.MovimientoManual(sesion, egreso, metodo, monto))
      ensures old(Valid()) ==> Valid()
    {
      Guarda(Abs(), R.MovimientoManual(sesion, egreso, metodo, monto));
      if sesion >= |sesiones| {
        return Err(SesionNoEncontrada);
      }
      if !sesiones[sesion].abierta {
        return Err(SesionCerrada);
      }
      var importe := monto;
      if egreso {
        importe := -monto;
      }
      var tipo := if egreso then EgresoManual else IngresoManual;
      movimientosCaja := movimientosCaja + [MovCaja(sesion, tipo, metodo, importe, None)];
      return Ok(());
    }

    method CalcularPorcentaje(desvio: int, esperado: int) returns (pct: int)
      ensures pct == Porcentaje(desvio, esperado)
    {
      pct := 0;
      if esperado != 0 {
        var cociente := Redondear(desvio * DIEZ_16, esperado);
        pct := Redondear(cociente * 100, DIEZ_14);
      }
    }

    method Arqueo(sesion: Option<nat>, usuario: Option<nat>, declarado: Montos, obs: Option<string>)
      returns (r: Result<Clase, Error>)
      modifies this`sesiones
      ensures Abs() == R.Tras(old(Abs()), C.Arqueo(old(Abs()), sesion, usuario, declarado, obs))
      ensures R.MismoFallo(r, C.Arqueo(old(Abs()), sesion, usuario, declarado, obs))
      ensures sesion.Some? && sesion.value < |old(sesiones)| && old(sesiones)[sesion.value].abierta ==>
                (r.Ok? <==> (obs != None && obs != Some("")) || DesvioTolerable(declarado, C.Esperado(old(Abs()), sesion.value)))
      ensures r.Ok? ==> var i := C.SesionDelArqueo(old(Abs()), sesion, usuario);
                        i.Some? && i.value < |sesiones| && sesiones[i.value].cierre.Some? &&
                        r.value == sesiones[i.value].cierre.value.clase
      ensures Abs() == R.Paso(old(Abs()), R.ArqueoCaja(sesion, usuario, declarado, obs))
      ensures old(Valid()) ==> Valid()
    {
      if sesion.Some? {
        ArqueoNombrado(Abs(), sesion.value, usuario, declarado, obs);
      }
      Guarda(Abs(), R.ArqueoCaja(sesion, usuario, declarado, obs));
      var objetivo := sesion;
      if sesion.None? {
        if usuario.None? {
          return Err(SesionNoEncontrada);
        }
        objetivo := C.AbiertaPorUsuario(sesiones, usuario.value);
        if objetivo.None? {
          return Err(SesionNoEncontrada);
        }
      }
      var i := objetivo.value;
      if i >= |sesiones| {
        return Err(SesionNoEncontrada);
      }
      if !sesiones[i].abierta {
        return Err(SesionCerrada);
      }
      var esperado := CalcularEsperado(i);
      var desvio := declarado.Total() - esperado.Total();
      var pct := CalcularPorcentaje(desvio, esperado.Total());
      var clase := ClasificarDesvio(pct);
      if clase == Critico && (obs.None? || obs.value == "") {
        return Err(ObservacionesRequeridas);
      }
      sesiones := sesiones[i := sesiones[i].(abierta := false,
                                             cierre := Some(Cierre(esperado.Total(), declarado, desvio, pct, clase, obs)))];
      return Ok(clase);
    }
  }
}
