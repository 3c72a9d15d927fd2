/** Runs of the store: any sequence of its operations, one after another. */
module Corridas {
  import opened Aritmetica
  import opened Datos
  import opened Inventario
  import Ventas
  import Caja

  datatype Op =
    | Vender(pedido: Pedido, sync: bool)
    | Anular(venta: nat)
    | DesarmeManual(vinculo: nat, padres: int)
    | AjustarStock(producto: nat, delta: int)
    | EditarProducto(producto: nat, precio: int, activo: bool)
    | CrearVinculo(pos: nat, padre: nat, hijo: nat, unidades: Positivo, auto: bool)
    | ActualizarVinculo(vinculo: nat, unidades: Positivo, auto: bool)
    | EliminarVinculo(vinculo: nat)
    | AbrirCaja(pdv: int, usuario: nat, montoInicial: int)
    | MovimientoManual(sesion: nat, egreso: bool, metodo: Metodo, monto: int)
    | ArqueoCaja(objetivo: Option<nat>, usuarioArqueo: Option<nat>, declarado: Montos, obs: Option<string>)

  /** DesarmeManual: the check reads the parent's stock, then both rows are updated. */
  function DesarmarManual(s: Estado, i: nat, padres: int): Result<Estado, Error> {
    if i >= |s.vinculos| then Err(VinculoNoEncontrado)
    else
      var v := s.vinculos[i];
      var ps := s.ex.productos;
      if v.padre >= |ps| then Err(PadreNoEncontrado)
      else if ps[v.padre].stock < padres then Err(StockInsuficiente)
      else if v.hijo >= |ps| then Err(ProductoNoEncontrado)
      else Ok(s.(ex := s.ex.(productos := SumarStock(SumarStock(ps, v.padre, -padres), v.hijo, padres * v.unidades),
                             desarmes := s.ex.desarmes + [Desarme(v.padre, v.hijo, v.unidades, padres, |s.ex.movimientos|)])))
  }

  /** AjustarStock: never below zero, always logged. */
  function Ajustar(s: Estado, p: nat, delta: int): Result<Estado, Error> {
    if p >= |s.ex.productos| then Err(ProductoNoEncontrado)
    else
      var prod := s.ex.productos[p];
      if !prod.activo then Err(ProductoInactivo)
      else if prod.stock + delta < 0 then Err(StockInsuficiente)
      else Ok(s.(ex := s.ex.(productos := SumarStock(s.ex.productos, p, delta),
                             movimientos := s.ex.movimientos +
                             [MovStock(p, AjusteManual, delta, prod.stock, prod.stock + delta, None)])))
  }

  /** Price and activation changes leave stock alone. */
  function Editar(s: Estado, p: nat, precio: int, activo: bool): Result<Estado, Error> {
    if p >= |s.ex.productos| then Err(ProductoNoEncontrado)
    else
      var prod := s.ex.productos[p];
      Ok(s.(ex := s.ex.(productos := s.ex.productos[p := prod.(precioVenta := precio, activo := activo)])))
  }

  /**
   * CrearVinculo.  `pos` is where the new row's generated key falls among the others.
   * A second link between the same two products breaks idx_padre_hijo.
   */
  function Vincular(s: Estado, pos: nat, v: Vinculo): Result<Estado, Error> {
    if v.padre == v.hijo then Err(HijoDeSiMismo)
    else if v.padre >= |s.ex.productos| then Err(PadreNoEncontrado)
    else if v.hijo >= |s.ex.productos| then Err(ProductoNoEncontrado)
    else if exists x | x in s.vinculos :: x.padre == v.padre && x.hijo == v.hijo then Err(VinculoDuplicado)
    else
      var k := if pos <= |s.vinculos| then pos else |s.vinculos|;
      Ok(s.(vinculos := s.vinculos[..k] + [v] + s.vinculos[k..]))
  }

  function CambiarVinculo(s: Estado, i: nat, u: Positivo, auto: bool): Result<Estado, Error> {
    if i >= |s.vinculos| then Err(VinculoNoEncontrado)
    else Ok(s.(vinculos := s.vinculos[i := s.vinculos[i].(unidades := u, desarmeAuto := auto)]))
  }

  function Desvincular(s: Estado, i: nat): Result<Estado, Error> {
    if i >= |s.vinculos| then Err(VinculoNoEncontrado)
    else Ok(s.(vinculos := s.vinculos[..i] + s.vinculos[i + 1..]))
  }

  function Tras(s: Estado, r: Result<Estado, Error>): Estado {
    if r.Ok? then r.value else s
  }

  /** The answer of a service is an error exactly when its function's is, and the same one. */
  predicate MismoFallo<T>(r: Result<T, Error>, de: Result<Estado, Error>) {
    match de
    case Ok(_) => r.Ok?
    case Err(e) => r == Err(e)
  }

  function Paso(s: Estado, op: Op): Estado {
    match op
    case Vender(r, sync) => Ventas.RegistrarVenta(s, r, sync).0
    case Anular(id) => Tras(s, Ventas.AnularVenta(s, id))
    case DesarmeManual(i, n) => Tras(s, DesarmarManual(s, i, n))
    case AjustarStock(p, d) => Tras(s, Ajustar(s, p, d))
    case EditarProducto(p, precio, activo) => Tras(s, Editar(s, p, precio, activo))
    case CrearVinculo(pos, padre, hijo, u, auto) => Tras(s, Vincular(s, pos, Vinculo(padre, hijo, u, auto)))
    case ActualizarVinculo(i, u, auto) => Tras(s, CambiarVinculo(s, i, u, auto))
    case EliminarVinculo(i) => Tras(s, Desvincular(s, i))
    case AbrirCaja(pdv, usuario, monto) => Caja.Abrir(s, pdv, usuario, monto).0
    case MovimientoManual(i, egreso, metodo, monto) => Tras(s, Caja.RegistrarMovimiento(s, i, egreso, metodo, monto))
    case ArqueoCaja(i, u, declarado, obs) => Tras(s, Caja.Arqueo(s, i, u, declarado, obs))
  }

  /** The state after a run. */
  function Correr(s: Estado, ops: seq<Op>): Estado
    decreases |ops|
  {
    if ops == [] then s else Correr(Paso(s, ops[0]), ops[1..])
  }

  function VentasSync(rs: seq<Pedido>): seq<Op> {
    seq(|rs|, i requires 0 <= i < |rs| => Vender(rs[i], true))
  }

  /** A batch is a run of one sale after another, so every law of runs holds of it. */
  lemma {:induction false} SyncEsCorrida(s: Estado, rs: seq<Pedido>)
    ensures Ventas.SyncBatch(s, rs) == Correr(s, VentasSync(rs))
    decreases |rs|
  {
    if rs != [] {
      assert VentasSync(rs)[1..] == VentasSync(rs[1..]);
      SyncEsCorrida(Ventas.RegistrarVenta(s, rs[0], true).0, rs[1..]);
    }
  }
}
