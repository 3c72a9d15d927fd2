/** What every store reachable from a new one keeps, all together. */
module DesdeCero {
  import opened Datos
  import opened Ventas
  import opened Corridas
  import opened Integridad
  import opened Conservacion
  import opened LibroDeCaja
  import opened Bitacora
  import opened Sumas

  /** A store with its products and nothing done yet. */
  function TiendaNueva(ps: seq<Producto>): Estado {
    Estado(Existencias(ps, [], []), [], [], [], [], 0)
  }

  lemma NuevaEnOrden(ps: seq<Producto>)
    ensures var s := TiendaNueva(ps);
            Integro(s) && CajaCuadra(s) && Historico((p: nat) => StockDe(ps, p), s.ex)
  {
    NuevoHistorico(ps);
  }

  /**
   * Whatever is done to a new store, its tables stay intact, its cash ledger agrees with its
   * sales, and every logged movement recorded the stock its product really had.
   */
  lemma SiempreEnOrden(ps: seq<Producto>, ops: seq<Op>)
    ensures var s := Correr(TiendaNueva(ps), ops);
            Integro(s) && CajaCuadra(s) && Historico((p: nat) => StockDe(ps, p), s.ex)
  {
    NuevaEnOrden(ps);
    CorridaGuarda(TiendaNueva(ps), ops);
    CorridaCuadra(TiendaNueva(ps), ops);
    AnterioresExactos((p: nat) => StockDe(ps, p), TiendaNueva(ps), ops);
  }

  /** Weighted stock is the opening one, plus the adjustments, less the live sales. */
  lemma StockPonderado(w: Pesos, ps: seq<Producto>, ops: seq<Op>)
    requires RespetaSiempre(w, TiendaNueva(ps), ops)
    ensures var s := Correr(TiendaNueva(ps), ops);
            PesoStock(w, s.ex.productos) ==
              PesoStock(w, ps) + Suma(PesoAjuste(w), s.ex.movimientos) - Suma(PesoVenta(w), s.ventas) &&
            PesoStock(w, s.ex.productos) == PesoStock(w, ps) + Suma(PesoMov(w), s.ex.movimientos)
  {
    NuevaEnOrden(ps);
    ConservacionPonderada(w, TiendaNueva(ps), ops);
  }
}
