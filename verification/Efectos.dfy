/**
 * What each operation does, told by what a caller gave it and what can be read afterwards:
 * when it succeeds, which error it answers otherwise, and what changed in which table.
 */
module Efectos {
  import opened Aritmetica
  import opened Datos
  import opened Desvio
  import opened Inventario
  import opened Ventas
  import opened Caja
  import opened Corridas
  import opened Integridad
  import opened LibroDeCaja
  import opened Aceptacion
  import opened Sumas

  // ---- Stock -------------------------------------------------------------------------------------

  /** ps' is ps with product p's stock moved by delta, and nothing else. */
  predicate SoloStock(ps: seq<Producto>, ps': seq<Producto>, p: nat, delta: int) {
    && p < |ps| && |ps'| == |ps|
    && ps'[p].stock == ps[p].stock + delta && ps'[p].precioVenta == ps[p].precioVenta && ps'[p].activo == ps[p].activo
    && forall x | 0 <= x < |ps| && x != p :: ps'[x] == ps[x]
  }

  /** ps' is ps with the stocks of two products moved, and nothing else. */
  predicate SoloDosStocks(ps: seq<Producto>, ps': seq<Producto>, p: nat, dp: int, q: nat, dq: int) {
    && p < |ps| && q < |ps| && p != q && |ps'| == |ps|
    && ps'[p] == ps[p].(stock := ps[p].stock + dp) && ps'[q] == ps[q].(stock := ps[q].stock + dq)
    && forall x | 0 <= x < |ps| && x != p && x != q :: ps'[x] == ps[x]
  }

  /** The first link, in key order, that opens a parent for this child by itself. */
  predicate EsPrimerVinculo(vs: seq<Vinculo>, hijo: nat, i: nat) {
    && i < |vs| && vs[i].hijo == hijo && vs[i].desarmeAuto
    && forall j | 0 <= j < i :: !(vs[j].hijo == hijo && vs[j].desarmeAuto)
  }

  lemma {:induction false} VinculoAutoPrimero(vs: seq<Vinculo>, hijo: nat, i: nat)
    requires EsPrimerVinculo(vs, hijo, i)
    ensures VinculoAuto(vs, hijo) == Some(vs[i])
  {
    if i > 0 {
      assert !(vs[0].hijo == hijo && vs[0].desarmeAuto);
      assert EsPrimerVinculo(vs[1..], hijo, i - 1);
      VinculoAutoPrimero(vs[1..], hijo, i - 1);
    }
  }

  lemma {:induction false} HayPrimero(vs: seq<Vinculo>, hijo: nat) returns (i: nat)
    requires VinculoAuto(vs, hijo).Some?
    ensures EsPrimerVinculo(vs, hijo, i) && VinculoAuto(vs, hijo) == Some(vs[i])
  {
    if vs[0].hijo == hijo && vs[0].desarmeAuto {
      i := 0;
    } else {
      i := HayPrimero(vs[1..], hijo);
      i := i + 1;
    }
  }

  /** Stock that is there, or that no parent can make up for, is decremented as asked. */
  lemma DescuentoSimple(e: Existencias, vs: seq<Vinculo>, p: nat, cantidad: int)
    requires p < |e.productos| && VinculosValidos(vs, |e.productos|)
    requires e.productos[p].stock >= cantidad ||
             forall i: nat | EsPrimerVinculo(vs, p, i) ::
               e.productos[vs[i].padre].stock * vs[i].unidades < cantidad - e.productos[p].stock
    ensures var r := DescontarStock(e, vs, p, cantidad);
            r.Some? && SoloStock(e.productos, r.value.productos, p, -cantidad) &&
            r.value.movimientos == e.movimientos && r.value.desarmes == e.desarmes
  {
    if e.productos[p].stock < cantidad && VinculoAuto(vs, p).Some? {
      var v := VinculoAuto(vs, p).value;
      var i := HayPrimero(vs, p);
      var k := Techo(cantidad - e.productos[p].stock, v.unidades);
      TechoMinimo(cantidad - e.productos[p].stock, v.unidades);
      if e.productos[v.padre].stock >= k {
        Crece(k, e.productos[v.padre].stock, v.unidades);
      }
    }
  }

  /**
   * A deficit that the first link's parent can make up for opens k parents, the least that
   * cover it: k goes out of the parent, and k units' worth less the sale comes into the child.
   */
  lemma DescuentoConDesarme(e: Existencias, vs: seq<Vinculo>, p: nat, cantidad: int, i: nat, k: int)
    requires p < |e.productos| && VinculosValidos(vs, |e.productos|)
    requires EsPrimerVinculo(vs, p, i) && e.productos[p].stock < cantidad && k <= e.productos[vs[i].padre].stock
    requires k * vs[i].unidades >= cantidad - e.productos[p].stock > (k - 1) * vs[i].unidades
    ensures var r, v := DescontarStock(e, vs, p, cantidad), vs[i];
            r.Some? && SoloDosStocks(e.productos, r.value.productos, v.padre, -k, p, k * v.unidades - cantidad) &&
            r.value.movimientos == e.movimientos &&
            r.value.desarmes == e.desarmes + [Desarme(v.padre, p, v.unidades, k, |e.movimientos| + 1)]
  {
    VinculoAutoPrimero(vs, p, i);
    TechoUnico(cantidad - e.productos[p].stock, vs[i].unidades, k);
  }

  /** Opening parents by hand: as many as asked, if the parent has them; nothing is logged. */
  lemma DesarmeManualExacto(s: Estado, i: nat, padres: int)
    requires VinculosValidos(s.vinculos, |s.ex.productos|)
    ensures var r := DesarmarManual(s, i, padres);
            if i >= |s.vinculos| then r == Err(VinculoNoEncontrado)
            else if s.ex.productos[s.vinculos[i].padre].stock < padres then r == Err(StockInsuficiente)
            else
              var v := s.vinculos[i];
              r.Ok? &&
              SoloDosStocks(s.ex.productos, r.value.ex.productos, v.padre, -padres, v.hijo, padres * v.unidades) &&
              r.value == s.(ex := s.ex.(productos := r.value.ex.productos, desarmes := r.value.ex.desarmes)) &&
              r.value.ex.desarmes == s.ex.desarmes + [Desarme(v.padre, v.hijo, v.unidades, padres, |s.ex.movimientos|)]
  {
    if i < |s.vinculos| {
      assert s.vinculos[i] in s.vinculos;
    }
  }

  /** An adjustment moves the stock by its delta, never below zero, and logs it. */
  lemma AjusteExacto(s: Estado, p: nat, delta: int)
    ensures var r := Ajustar(s, p, delta);
            if p >= |s.ex.productos| then r == Err(ProductoNoEncontrado)
            else if !s.ex.productos[p].activo then r == Err(ProductoInactivo)
            else if s.ex.productos[p].stock + delta < 0 then r == Err(StockInsuficiente)
            else
              var stock := s.ex.productos[p].stock;
              r.Ok? && SoloStock(s.ex.productos, r.value.ex.productos, p, delta) &&
              r.value.ex.movimientos ==
                s.ex.movimientos + [MovStock(p, AjusteManual, delta, stock, stock + delta, None)] &&
              r.value == s.(ex := s.ex.(productos := r.value.ex.productos, movimientos := r.value.ex.movimientos))
  {
  }

  /** A product edit leaves the price and state given, the stock it had, and every other row. */
  lemma EdicionExacta(s: Estado, p: nat, precio: int, activo: bool)
    ensures var r := Editar(s, p, precio, activo);
            if p >= |s.ex.productos| then r == Err(ProductoNoEncontrado)
            else
              r.Ok? && |r.value.ex.productos| == |s.ex.productos| &&
              r.value.ex.productos[p] == Producto(precio, s.ex.productos[p].stock, activo) &&
              (forall x | 0 <= x < |s.ex.productos| && x != p :: r.value.ex.productos[x] == s.ex.productos[x]) &&
              r.value == s.(ex := s.ex.(productos := r.value.ex.productos))
  {
  }

  // ---- Links -------------------------------------------------------------------------------------

  /** A link is created unless it is of a product to itself, of a missing product, or there already. */
  lemma VinculoNuevo(s: Estado, pos: nat, v: Vinculo)
    ensures var r := Vincular(s, pos, v);
            if v.padre == v.hijo then r == Err(HijoDeSiMismo)
            else if v.padre >= |s.ex.productos| then r == Err(PadreNoEncontrado)
            else if v.hijo >= |s.ex.productos| then r == Err(ProductoNoEncontrado)
            else if exists i | 0 <= i < |s.vinculos| :: s.vinculos[i].padre == v.padre && s.vinculos[i].hijo == v.hijo
            then r == Err(VinculoDuplicado)
            else
              r.Ok? && r.value == s.(vinculos := r.value.vinculos) &&
              multiset(r.value.vinculos) == multiset(s.vinculos) + multiset{v} &&
              (pos <= |s.vinculos| ==> pos < |r.value.vinculos| && r.value.vinculos[pos] == v)
  {
    var k := if pos <= |s.vinculos| then pos else |s.vinculos|;
    assert s.vinculos == s.vinculos[..k] + s.vinculos[k..];
    if exists x | x in s.vinculos :: x.padre == v.padre && x.hijo == v.hijo {
      var x :| x in s.vinculos && x.padre == v.padre && x.hijo == v.hijo;
      assert exists i | 0 <= i < |s.vinculos| :: s.vinculos[i].padre == v.padre && s.vinculos[i].hijo == v.hijo;
    }
  }

  /** A link update leaves the units and the flag given, and its products. */
  lemma VinculoActualizado(s: Estado, i: nat, u: Positivo, auto: bool)
    ensures var r := CambiarVinculo(s, i, u, auto);
            if i >= |s.vinculos| then r == Err(VinculoNoEncontrado)
            else
              r.Ok? && r.value == s.(vinculos := r.value.vinculos) && |r.value.vinculos| == |s.vinculos| &&
              r.value.vinculos[i] == Vinculo(s.vinculos[i].padre, s.vinculos[i].hijo, u, auto) &&
              (forall j | 0 <= j < |s.vinculos| && j != i :: r.value.vinculos[j] == s.vinculos[j])
  {
  }

  /** A link removal takes out that link and keeps the others in order. */
  lemma VinculoEliminado(s: Estado, i: nat)
    ensures var r := Desvincular(s, i);
            if i >= |s.vinculos| then r == Err(VinculoNoEncontrado)
            else
              r.Ok? && r.value == s.(vinculos := r.value.vinculos) && |r.value.vinculos| == |s.vinculos| - 1 &&
              (forall j | 0 <= j < i :: r.value.vinculos[j] == s.vinculos[j]) &&
              (forall j | i <= j < |s.vinculos| - 1 :: r.value.vinculos[j] == s.vinculos[j + 1])
  {
  }

  // ---- Cash sessions -------------------------------------------------------------------------

  lemma UnaSola(ss: seq<Sesion>, i: nat, k: nat)
    requires UnaAbiertaPorPDV(ss) && i < |ss| && k < |ss|
    requires ss[i].abierta && ss[k].abierta && ss[i].puntoDeVenta == ss[k].puntoDeVenta
    ensures i == k
  {
  }

  /** Opening: the session already open at the point of sale, or a new one with what was given. */
  lemma AperturaExacta(s: Estado, pdv: int, usuario: nat, montoInicial: int)
    requires UnaAbiertaPorPDV(s.sesiones)
    ensures var (s', id) := Abrir(s, pdv, usuario, montoInicial);
            (forall i | 0 <= i < |s.sesiones| && s.sesiones[i].abierta && s.sesiones[i].puntoDeVenta == pdv ::
               s' == s && id == i) &&
            ((forall i | 0 <= i < |s.sesiones| :: !(s.sesiones[i].abierta && s.sesiones[i].puntoDeVenta == pdv)) ==>
               id == |s.sesiones| && |s'.sesiones| == id + 1 && s'.sesiones[..id] == s.sesiones &&
               s'.sesiones[id] == Sesion(pdv, usuario, montoInicial, true, None) &&
               s' == s.(sesiones := s'.sesiones))
  {
    match AbiertaPorPDV(s.sesiones, pdv)
    case None =>
    case Some(k) =>
      forall i | 0 <= i < |s.sesiones| && s.sesiones[i].abierta && s.sesiones[i].puntoDeVenta == pdv ensures i == k {
        UnaSola(s.sesiones, i, k);
      }
  }

  /** Income raises the sum of its session and method by its amount; an expense lowers it. */
  lemma MovimientoExacto(s: Estado, sesion: nat, egreso: bool, metodo: Metodo, monto: int, i: nat, m: Metodo)
    ensures var r := RegistrarMovimiento(s, sesion, egreso, metodo, monto);
            if sesion >= |s.sesiones| then r == Err(SesionNoEncontrada)
            else if !s.sesiones[sesion].abierta then r == Err(SesionCerrada)
            else
              r.Ok? && r.value == s.(caja := r.value.caja) &&
              |r.value.caja| == |s.caja| + 1 && r.value.caja[..|s.caja|] == s.caja &&
              r.value.caja[|s.caja|].tipo == (if egreso then EgresoManual else IngresoManual) &&
              r.value.caja[|s.caja|].referencia == None &&
              SumaMetodo(r.value.caja, i, m) ==
                SumaMetodo(s.caja, i, m) + (if i == sesion && m == metodo then (if egreso then -monto else monto) else 0)
  {
    var r := RegistrarMovimiento(s, sesion, egreso, metodo, monto);
    if r.Ok? {
      SumaAgrega(MontoEn(i, m), s.caja, r.value.caja[|s.caja|]);
    }
  }

  /** The opening float is cash, and each method expects its own sales and manual movements. */
  lemma EsperadoPorMetodo(s: Estado, i: nat)
    requires CajaCuadra(s) && i < |s.sesiones|
    ensures var e := Esperado(s, i);
            e.efectivo == s.sesiones[i].montoInicial + Suma(VentaEn(i, Efectivo), s.ventas) + Suma(ManualEn(i, Efectivo), s.caja) &&
            e.debito == Suma(VentaEn(i, Debito), s.ventas) + Suma(ManualEn(i, Debito), s.caja) &&
            e.credito == Suma(VentaEn(i, Credito), s.ventas) + Suma(ManualEn(i, Credito), s.caja) &&
            e.transferencia == Suma(VentaEn(i, Transferencia), s.ventas) + Suma(ManualEn(i, Transferencia), s.caja) &&
            e.qr == Suma(VentaEn(i, QR), s.ventas) + Suma(ManualEn(i, QR), s.caja)
  {
    assert forall m: Metodo :: SumaMetodo(s.caja, i, m) == Suma(VentaEn(i, m), s.ventas) + Suma(ManualEn(i, m), s.caja);
  }

  /** The drift of what was declared is small enough to close in silence. */
  predicate DesvioTolerable(declarado: Montos, esperado: Montos) {
    var e := esperado.efectivo + esperado.debito + esperado.credito + esperado.transferencia + esperado.qr;
    var d := declarado.efectivo + declarado.debito + declarado.credito + declarado.transferencia + declarado.qr - e;
    e == 0 || 2 * DIEZ_16 * Abs(d) < 1_000_999_999_999_999 * Abs(e)
  }

  /** The closing data say what was expected and declared, the drift, and its exact class. */
  predicate CierreFiel(c: Cierre, e: Montos, declarado: Montos, obs: Option<string>) {
    && c.declarado == declarado && c.observaciones == obs
    && c.esperado == e.efectivo + e.debito + e.credito + e.transferencia + e.qr
    && c.desvio == declarado.efectivo + declarado.debito + declarado.credito + declarado.transferencia + declarado.qr - c.esperado
    && (if c.esperado == 0 then c.porcentaje == 0
        else 2 * DIEZ_12 * Abs(c.porcentaje * c.esperado - 10_000 * c.desvio) <= (DIEZ_12 + 1) * Abs(c.esperado))
    && (c.clase == Normal <==> c.esperado == 0 || 2 * DIEZ_16 * Abs(c.desvio) < 200_999_999_999_999 * Abs(c.esperado))
    && (c.clase != Critico <==> DesvioTolerable(declarado, e))
  }

  lemma CierreDeFiel(e: Montos, declarado: Montos, obs: Option<string>)
    ensures CierreFiel(CierreDe(e.Total(), declarado, obs), e, declarado, obs)
  {
    ClasificacionExacta(declarado.Total() - e.Total(), e.Total());
    if e.Total() != 0 {
      PorcentajeCota(declarado.Total() - e.Total(), e.Total());
    }
  }

  /** s' is s with session i closed with c, and nothing else. */
  predicate CierraSesion(s: Estado, s': Estado, i: nat, c: Cierre) {
    && i < |s.sesiones| && |s'.sesiones| == |s.sesiones| && s' == s.(sesiones := s'.sesiones)
    && (forall j | 0 <= j < |s.sesiones| && j != i :: s'.sesiones[j] == s.sesiones[j])
    && s'.sesiones[i] == s.sesiones[i].(abierta := false, cierre := Some(c))
  }

  /** Arqueo of a named session: when it closes, why it does not, and what it leaves. */
  lemma ArqueoNombrado(s: Estado, i: nat, usuario: Option<nat>, declarado: Montos, obs: Option<string>)
    ensures var r := Arqueo(s, Some(i), usuario, declarado, obs);
            if i >= |s.sesiones| then r == Err(SesionNoEncontrada)
            else if !s.sesiones[i].abierta then r == Err(SesionCerrada)
            else if (obs == None || obs == Some("")) && !DesvioTolerable(declarado, Esperado(s, i)) then r == Err(ObservacionesRequeridas)
            else
              r.Ok? && exists c :: CierreFiel(c, Esperado(s, i), declarado, obs) && CierraSesion(s, r.value, i, c)
  {
    if i < |s.sesiones| && s.sesiones[i].abierta {
      var c := CierreDe(Esperado(s, i).Total(), declarado, obs);
      assert CierreFiel(c, Esperado(s, i), declarado, obs) by {
        CierreDeFiel(Esperado(s, i), declarado, obs);
      }
      var r := Arqueo(s, Some(i), usuario, declarado, obs);
      assert r.Ok? ==> CierraSesion(s, r.value, i, c);
    }
  }

  /** Without a name, it is an open session of the user, and with no user or none open it fails. */
  lemma ArqueoSinNombre(s: Estado, usuario: Option<nat>, declarado: Montos, obs: Option<string>)
    ensures var r := Arqueo(s, None, usuario, declarado, obs);
            if usuario == None || forall i | 0 <= i < |s.sesiones| :: !(s.sesiones[i].abierta && s.sesiones[i].usuario == usuario.value)
            then r == Err(SesionNoEncontrada)
            else
              exists i | 0 <= i < |s.sesiones| ::
                s.sesiones[i].abierta && s.sesiones[i].usuario == usuario.value && r == Arqueo(s, Some(i), usuario, declarado, obs)
  {
    if usuario.Some? && AbiertaPorUsuario(s.sesiones, usuario.value).Some? {
      var i := AbiertaPorUsuario(s.sesiones, usuario.value).value;
      assert Arqueo(s, None, usuario, declarado, obs) == Arqueo(s, Some(i), usuario, declarado, obs);
    }
  }
}
