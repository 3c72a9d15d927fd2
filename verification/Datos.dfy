/**
 * The rows of the store's database.  A row is named by its position in its table; money
 * is an integer number of a common decimal unit (centavos for the stored columns).
 */
module Datos {
  import opened Aritmetica
  import opened Desvio

  datatype Option<+T> = None | Some(value: T)
  datatype Result<+T, +E> = Ok(value: T) | Err(error: E)

  datatype Metodo = Efectivo | Debito | Credito | Transferencia | QR

  datatype Producto = Producto(precioVenta: int, stock: int, activo: bool)

  /** One unit of padre breaks into `unidades` units of hijo. */
  datatype Vinculo = Vinculo(padre: nat, hijo: nat, unidades: Positivo, desarmeAuto: bool)

  datatype Item = Item(producto: nat, cantidad: int, descuento: int)
  datatype Pago = Pago(metodo: Metodo, monto: int)
  datatype Pedido = Pedido(sesion: nat, items: seq<Item>, pagos: seq<Pago>, offlineId: Option<string>)

  datatype Linea = Linea(producto: nat, cantidad: int, precio: int, descuento: int, subtotal: int)
  datatype Venta = Venta(ticket: nat, sesion: nat, subtotal: int, descuentoTotal: int, total: int,
                         anulada: bool, offlineId: Option<string>, conflictoStock: bool,
                         lineas: seq<Linea>, pagos: seq<Pago>)

  datatype TipoMovStock = VentaStock | AjusteManual | RestoreAnulacion
  datatype MovStock = MovStock(producto: nat, tipo: TipoMovStock, cantidad: int, anterior: int, nuevo: int,
                               referencia: Option<nat>)

  datatype TipoMovCaja = VentaCaja | IngresoManual | EgresoManual | AnulacionCaja
  datatype MovCaja = MovCaja(sesion: nat, tipo: TipoMovCaja, metodo: Metodo, monto: int, referencia: Option<nat>)

  datatype Montos = Montos(efectivo: int, debito: int, credito: int, transferencia: int, qr: int) {
    function Total(): int {
      efectivo + debito + credito + transferencia + qr
    }
  }

  datatype Cierre = Cierre(esperado: int, declarado: Montos, desvio: int, porcentaje: int, clase: Clase,
                           observaciones: Option<string>)
  datatype Sesion = Sesion(puntoDeVenta: int, usuario: nat, montoInicial: int, abierta: bool, cierre: Option<Cierre>)

  /**
   * One disassembly: `padres` units of padre became padres * unidades units of hijo.  The
   * first movement to see it is the one at position `desde` of the log.
   */
  datatype Desarme = Desarme(padre: nat, hijo: nat, unidades: Positivo, padres: int, desde: nat)

  /**
   * Stock, its movement log, and the disassemblies done.  The source keeps no record of a
   * disassembly: `desarmes` is a history variable that no operation reads.
   */
  datatype Existencias = Existencias(productos: seq<Producto>, movimientos: seq<MovStock>, desarmes: seq<Desarme>)

  /** The whole store.  `ticket` is the last value of ventas_numero_ticket_seq. */
  datatype Estado = Estado(ex: Existencias, vinculos: seq<Vinculo>, ventas: seq<Venta>, sesiones: seq<Sesion>,
                           caja: seq<MovCaja>, ticket: nat)

  datatype Error =
    | SesionNoEncontrada | SesionCerrada
    | ProductoNoEncontrado | ProductoInactivo | StockInsuficiente | DescuentoExcesivo
    | PagoInsuficiente | OfflineDuplicado | PadreNoEncontrado
    | VentaNoEncontrada | VentaYaAnulada
    | VinculoNoEncontrado | HijoDeSiMismo | VinculoDuplicado
    | ObservacionesRequeridas

  /** What registering a sale answers. */
  datatype Respuesta = Aceptada(id: nat, vuelto: int) | Duplicada(id: nat) | Rechazada(error: Error)
}
