/** What it takes to register a sale, and what the registered sale says. */
module Aceptacion {
  import opened Datos
  import opened Ventas
  import opened Integridad
  import opened Sumas

  function Bruto(ps: seq<Producto>): Item -> int {
    (it: Item) => if it.producto < |ps| then ps[it.producto].precioVenta * it.cantidad else 0
  }

  function Descontado(it: Item): int { it.descuento }

  /** An item that may be sold at this price: active, discounted by at most half. */
  predicate Vendible(ps: seq<Producto>, it: Item) {
    && it.producto < |ps| && ps[it.producto].activo
    && 2 * it.descuento <= ps[it.producto].precioVenta * it.cantidad
  }

  lemma {:induction false} TotalDeLineas(ps: seq<Producto>, items: seq<Item>)
    requires Ubicados(ps, items)
    ensures Suma(SubtotalDe, Lineas(ps, items)) == Suma(Bruto(ps), items) - Suma(Descontado, items)
    ensures Suma(DescuentoDe, Lineas(ps, items)) == Suma(Descontado, items)
  {
    if items != [] {
      var n := |items| - 1;
      assert Lineas(ps, items)[..n] == Lineas(ps, items[..n]);
      TotalDeLineas(ps, items[..n]);
    }
  }

  /** What the caller can check about the items before the call. */
  predicate Vendibles(ps: seq<Producto>, items: seq<Item>) {
    forall i | 0 <= i < |items| :: Vendible(ps, items[i])
  }

  /** The stock of every line, as it stands. */
  predicate Alcanza(ps: seq<Producto>, items: seq<Item>) {
    forall i | 0 <= i < |items| :: items[i].producto < |ps| && ps[items[i].producto].stock >= items[i].cantidad
  }

  /** With every item in order, planning fails only for want of payment. */
  lemma PlanificarVendibles(s: Estado, r: Pedido, sync: bool)
    requires Vendibles(s.ex.productos, r.items) && (sync || Alcanza(s.ex.productos, r.items))
    ensures Planificar(s, r, sync).Ok? <==>
            Suma(MontoDe, r.pagos) >= Suma(Bruto(s.ex.productos), r.items) - Suma(Descontado, r.items)
  {
    var ps := s.ex.productos;
    assert Ubicados(ps, r.items) by {
      forall i | 0 <= i < |r.items| ensures r.items[i].producto < |ps| {
        assert Vendible(ps, r.items[i]);
      }
    }
    TotalDeLineas(ps, r.items);
    forall i | 0 <= i < |r.items| ensures ErrorDeItem(ps, s.vinculos, r.items[i], sync).None? {
      assert Vendible(ps, r.items[i]);
    }
  }

  /** An item out of order, or a line short of stock online, stops the sale. */
  lemma PlanificarExige(s: Estado, r: Pedido, sync: bool)
    requires Planificar(s, r, sync).Ok?
    ensures Vendibles(s.ex.productos, r.items)
    ensures StockSuficiente(s.ex.productos, Planificar(s, r, sync).value.lineas) <==> Alcanza(s.ex.productos, r.items)
  {
    var ps := s.ex.productos;
    assert PrimerError(ps, s.vinculos, r.items, sync).None?;
    forall i | 0 <= i < |r.items| ensures Vendible(ps, r.items[i]) {
      assert ErrorDeItem(ps, s.vinculos, r.items[i], sync).None?;
    }
    PlanUbicado(s, r, sync);
    var ls := Planificar(s, r, sync).value.lineas;
    assert forall i | 0 <= i < |r.items| :: ls[i] == LineaDe(ps, r.items[i]);
  }

  /** After a plan, the transaction fails only in the online re-check. */
  lemma TrasElPlan(s: Estado, r: Pedido, sync: bool)
    requires Integro(s)
    ensures RegistrarVenta(s, r, sync).1.Aceptada? <==>
            && r.sesion < |s.sesiones| && s.sesiones[r.sesion].abierta && !Registrado(s.ventas, r.offlineId)
            && Planificar(s, r, sync).Ok?
            && (sync || StockSuficiente(s.ex.productos, Planificar(s, r, sync).value.lineas))
  {
    if Planificar(s, r, sync).Ok? {
      PlanUbicado(s, r, sync);
      DescontarLineasMarco(s.ex, s.vinculos, Planificar(s, r, sync).value.lineas, |s.ventas|);
    }
  }

  /**
   * Exactly when a sale is accepted.  An online sale needs the stock of every line as it
   * stands: the disassembly its pre-flight allows for never saves a line, because the locked
   * re-check asks for the stock again without it.  An offline sale needs no stock at all.
   */
  lemma AceptaSiSoloSi(s: Estado, r: Pedido, sync: bool)
    requires Integro(s)
    ensures RegistrarVenta(s, r, sync).1.Aceptada? <==>
            && r.sesion < |s.sesiones| && s.sesiones[r.sesion].abierta
            && !Registrado(s.ventas, r.offlineId)
            && Vendibles(s.ex.productos, r.items)
            && (sync || Alcanza(s.ex.productos, r.items))
            && Suma(MontoDe, r.pagos) >= Suma(Bruto(s.ex.productos), r.items) - Suma(Descontado, r.items)
  {
    TrasElPlan(s, r, sync);
    if Planificar(s, r, sync).Ok? {
      PlanificarExige(s, r, sync);
    }
    if Vendibles(s.ex.productos, r.items) && (sync || Alcanza(s.ex.productos, r.items)) {
      PlanificarVendibles(s, r, sync);
    }
  }

  /** What an accepted sale records: catalogue prices, totals, change, ticket and flag. */
  lemma VentaConforme(s: Estado, r: Pedido, sync: bool)
    requires Integro(s) && RegistrarVenta(s, r, sync).1.Aceptada?
    ensures var (s', resp) := RegistrarVenta(s, r, sync);
            |s'.ventas| == |s.ventas| + 1 && resp.id == |s.ventas| &&
            var v := s'.ventas[resp.id];
            var ps := s.ex.productos;
            v.sesion == r.sesion && v.pagos == r.pagos && v.offlineId == r.offlineId && !v.anulada &&
            v.ticket == s'.ticket == s.ticket + 1 &&
            Ubicados(ps, r.items) && |v.lineas| == |r.items| &&
            (forall i | 0 <= i < |r.items| ::
               v.lineas[i].producto == r.items[i].producto && v.lineas[i].cantidad == r.items[i].cantidad &&
               v.lineas[i].precio == ps[r.items[i].producto].precioVenta && v.lineas[i].descuento == r.items[i].descuento &&
               v.lineas[i].subtotal == v.lineas[i].precio * v.lineas[i].cantidad - v.lineas[i].descuento &&
               2 * v.lineas[i].descuento <= v.lineas[i].precio * v.lineas[i].cantidad) &&
            v.total == v.subtotal == Suma(Bruto(ps), r.items) - v.descuentoTotal &&
            v.descuentoTotal == Suma(Descontado, r.items) &&
            resp.vuelto == Suma(MontoDe, r.pagos) - v.total >= 0 &&
            (v.conflictoStock <==> exists i | 0 <= i < |r.items| :: ps[r.items[i].producto].stock < r.items[i].cantidad) &&
            (!sync ==> !v.conflictoStock)
  {
    FormaDeVenta(s, r, sync);
    PlanUbicado(s, r, sync);
    AceptaSiSoloSi(s, r, sync);
    TotalDeLineas(s.ex.productos, r.items);
    forall i | 0 <= i < |r.items|
      ensures 2 * r.items[i].descuento <= s.ex.productos[r.items[i].producto].precioVenta * r.items[i].cantidad
    {
      assert Vendible(s.ex.productos, r.items[i]);
    }
  }
}
