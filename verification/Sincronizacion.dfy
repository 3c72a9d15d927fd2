/** Offline batches: safe to resend after a crash, and insensitive to their order. */
module Sincronizacion {
  import opened Datos
  import opened Ventas
  import opened Corridas
  import opened Integridad
  import opened Sumas
  import LibroDeCaja
  import Conservacion
  import Caja

  // ---- What an offline sale depends on ----------------------------------------------------

  /** Whether an offline sale can be accepted.  Stock plays no part. */
  predicate Aceptable(s: Estado, r: Pedido) {
    && r.sesion < |s.sesiones| && s.sesiones[r.sesion].abierta
    && Planificar(s, r, true).Ok?
  }

  /** Same sessions, links, prices and active products. */
  predicate MismoCatalogo(s: Estado, s': Estado) {
    && s'.sesiones == s.sesiones && s'.vinculos == s.vinculos
    && MismosDatos(s'.ex.productos, s.ex.productos)
  }

  /** Sending the sale again changes nothing. */
  predicate Absorbido(s: Estado, r: Pedido) {
    !Aceptable(s, r) || Registrado(s.ventas, r.offlineId)
  }

  lemma BuscarAgrega(vs: seq<Venta>, v: Venta, oid: Option<string>)
    ensures Registrado(vs + [v], oid) <==> Registrado(vs, oid) || (oid.Some? && v.offlineId == oid)
  {
    assert (vs + [v])[..|vs|] == vs;
  }

  lemma PlanIgual(s: Estado, s': Estado, r: Pedido)
    requires MismoCatalogo(s, s')
    ensures var p, p' := Planificar(s, r, true), Planificar(s', r, true);
            (p.Ok? <==> p'.Ok?) &&
            (p.Ok? ==> p'.value == p.value.(conflicto := p'.value.conflicto))
  {
    var ps, ps' := s.ex.productos, s'.ex.productos;
    assert forall i | 0 <= i < |r.items| :: r.items[i].producto < |ps| ==>
      ps'[r.items[i].producto] == ps[r.items[i].producto].(stock := ps'[r.items[i].producto].stock);
    ErroresIguales(ps, ps', s.vinculos, r.items);
    if PrimerError(ps, s.vinculos, r.items, true).None? {
      assert forall i | 0 <= i < |r.items| :: ErrorDeItem(ps, s.vinculos, r.items[i], true).None?;
      assert Lineas(ps, r.items) == Lineas(ps', r.items);
    }
  }

  lemma {:induction false} ErroresIguales(ps: seq<Producto>, ps': seq<Producto>, vs: seq<Vinculo>, items: seq<Item>)
    requires MismosDatos(ps', ps)
    ensures PrimerError(ps', vs, items, true) == PrimerError(ps, vs, items, true)
  {
    if items != [] {
      if items[0].producto < |ps| {
        assert ps'[items[0].producto] == ps[items[0].producto].(stock := ps'[items[0].producto].stock);
      }
      ErroresIguales(ps, ps', vs, items[1..]);
    }
  }

  /** One synced sale: accepted exactly when acceptable and not yet registered. */
  lemma UnaVenta(s: Estado, r: Pedido)
    requires Integro(s)
    ensures var (s', resp) := RegistrarVenta(s, r, true);
            Integro(s') && MismoCatalogo(s, s') &&
            (resp.Aceptada? <==> !Absorbido(s, r)) &&
            if Absorbido(s, r) then s' == s
            else Acepto(s, r, Planificar(s, r, true).value, s')
  {
    FormaDeVenta(s, r, true);
    var (s', resp) := RegistrarVenta(s, r, true);
    if !Absorbido(s, r) {
      PlanUbicado(s, r, true);
      DescontarLineasMarco(s.ex, s.vinculos, Planificar(s, r, true).value.lineas, |s.ventas|);
      VentaGuarda(s, r, Planificar(s, r, true).value, s');
    }
  }

  /** Once absorbed, a sale stays absorbed whatever else is synced. */
  lemma AbsorbidoEstable(s: Estado, r: Pedido, x: Pedido)
    requires Integro(s) && Absorbido(s, r)
    ensures Absorbido(RegistrarVenta(s, x, true).0, r)
  {
    var s' := RegistrarVenta(s, x, true).0;
    UnaVenta(s, x);
    PlanIgual(s, s', r);
    if s' != s {
      BuscarAgrega(s.ventas, s'.ventas[|s.ventas|], r.offlineId);
    }
  }

  lemma AbsorbidoTrasRegistrar(s: Estado, r: Pedido)
    requires Integro(s) && r.offlineId.Some?
    ensures Absorbido(RegistrarVenta(s, r, true).0, r)
  {
    var s' := RegistrarVenta(s, r, true).0;
    UnaVenta(s, r);
    if s' != s {
      BuscarAgrega(s.ventas, s'.ventas[|s.ventas|], r.offlineId);
    }
  }

  // ---- Crash-safe redelivery ----------------------------------------------------------------

  predicate ConIds(rs: seq<Pedido>) {
    forall i | 0 <= i < |rs| :: rs[i].offlineId.Some?
  }

  lemma {:induction false} SyncConcatena(s: Estado, a: seq<Pedido>, b: seq<Pedido>)
    ensures SyncBatch(s, a + b) == SyncBatch(SyncBatch(s, a), b)
    decreases |a|
  {
    if a == [] {
      assert a + b == b;
    } else {
      assert (a + b)[1..] == a[1..] + b;
      SyncConcatena(RegistrarVenta(s, a[0], true).0, a[1..], b);
    }
  }

  lemma {:induction false} SyncGuarda(s: Estado, rs: seq<Pedido>)
    requires Integro(s)
    ensures Integro(SyncBatch(s, rs)) && MismoCatalogo(s, SyncBatch(s, rs))
    decreases |rs|
  {
    if rs != [] {
      UnaVenta(s, rs[0]);
      SyncGuarda(RegistrarVenta(s, rs[0], true).0, rs[1..]);
    }
  }

  lemma {:induction false} SyncNoDespierta(s: Estado, r: Pedido, rs: seq<Pedido>)
    requires Integro(s) && Absorbido(s, r)
    ensures Absorbido(SyncBatch(s, rs), r)
    decreases |rs|
  {
    if rs != [] {
      AbsorbidoEstable(s, r, rs[0]);
      UnaVenta(s, rs[0]);
      SyncNoDespierta(RegistrarVenta(s, rs[0], true).0, r, rs[1..]);
    }
  }

  lemma {:induction false} SyncAbsorbe(s: Estado, rs: seq<Pedido>, i: nat)
    requires Integro(s) && i < |rs| && rs[i].offlineId.Some?
    ensures Absorbido(SyncBatch(s, rs), rs[i])
    decreases |rs|
  {
    var s1 := RegistrarVenta(s, rs[0], true).0;
    UnaVenta(s, rs[0]);
    if i == 0 {
      AbsorbidoTrasRegistrar(s, rs[0]);
      SyncNoDespierta(s1, rs[0], rs[1..]);
    } else {
      SyncAbsorbe(s1, rs[1..], i - 1);
    }
  }

  lemma {:induction false} SyncDeAbsorbidos(s: Estado, rs: seq<Pedido>)
    requires Integro(s) && forall i | 0 <= i < |rs| :: Absorbido(s, rs[i])
    ensures SyncBatch(s, rs) == s
    decreases |rs|
  {
    if rs != [] {
      UnaVenta(s, rs[0]);
      SyncDeAbsorbidos(s, rs[1..]);
    }
  }

  /** A prefix and then another prefix leave what the longer of the two leaves. */
  lemma DosEntregas(s: Estado, rs: seq<Pedido>, n: nat, m: nat)
    requires Integro(s) && ConIds(rs) && n <= |rs| && m <= |rs|
    ensures SyncBatch(SyncBatch(s, rs[..n]), rs[..m]) == SyncBatch(s, rs[..if n < m then m else n])
  {
    var s1 := SyncBatch(s, rs[..n]);
    SyncGuarda(s, rs[..n]);
    var k := if n < m then n else m;
    forall i | 0 <= i < k ensures Absorbido(s1, rs[..k][i]) {
      SyncAbsorbe(s, rs[..n], i);
      assert rs[..n][i] == rs[..k][i];
    }
    SyncDeAbsorbidos(s1, rs[..k]);
    if n < m {
      assert rs[..m] == rs[..n] + rs[n..m];
      SyncConcatena(s1, rs[..n], rs[n..m]);
      SyncConcatena(s, rs[..n], rs[n..m]);
    }
  }

  /** The state after delivering a prefix of the batch for each crash. */
  function Entregas(s: Estado, rs: seq<Pedido>, cortes: seq<nat>): Estado
    requires forall i | 0 <= i < |cortes| :: cortes[i] <= |rs|
  {
    if cortes == [] then s
    else SyncBatch(Entregas(s, rs, cortes[..|cortes| - 1]), rs[..cortes[|cortes| - 1]])
  }

  function Mayor(cortes: seq<nat>): nat {
    if cortes == [] then 0
    else
      var m, n := Mayor(cortes[..|cortes| - 1]), cortes[|cortes| - 1];
      if m < n then n else m
  }

  lemma {:induction false} EntregasHastaMayor(s: Estado, rs: seq<Pedido>, cortes: seq<nat>)
    requires Integro(s) && ConIds(rs)
    requires forall i | 0 <= i < |cortes| :: cortes[i] <= |rs|
    ensures Mayor(cortes) <= |rs| && Entregas(s, rs, cortes) == SyncBatch(s, rs[..Mayor(cortes)])
  {
    if cortes != [] {
      var antes := cortes[..|cortes| - 1];
      EntregasHastaMayor(s, rs, antes);
      DosEntregas(s, rs, Mayor(antes), cortes[|cortes| - 1]);
    }
  }

  /**
   * Crash-safe sync: however often the delivery of a batch is cut short and started again,
   * delivering it in full at last gives the state of delivering it once -- stock, sales, both
   * ledgers and the ticket sequence.
   */
  lemma EntregaSegura(s: Estado, rs: seq<Pedido>, cortes: seq<nat>)
    requires Integro(s) && ConIds(rs)
    requires forall i | 0 <= i < |cortes| :: cortes[i] <= |rs|
    ensures SyncBatch(Entregas(s, rs, cortes), rs) == SyncBatch(s, rs)
  {
    EntregasHastaMayor(s, rs, cortes);
    assert rs[..|rs|] == rs;
    DosEntregas(s, rs, Mayor(cortes), |rs|);
  }

  lemma {:induction false} SyncCrece(s: Estado, rs: seq<Pedido>, i: nat)
    requires Integro(s) && i <= |rs|
    requires i < |rs| ==> rs[i].offlineId.None? && Aceptable(s, rs[i])
    ensures |SyncBatch(s, rs).ventas| >= |s.ventas| + (if i < |rs| then 1 else 0)
    decreases |rs|
  {
    if rs != [] {
      var s1 := RegistrarVenta(s, rs[0], true).0;
      UnaVenta(s, rs[0]);
      if i < |rs| {
        PlanIgual(s, s1, rs[i]);
      }
      if i == 0 {
        SyncCrece(s1, rs[1..], |rs| - 1);
      } else {
        SyncCrece(s1, rs[1..], i - 1);
      }
    }
  }

  /**
   * Exactly when a batch may be sent twice: when each of its sales has an offline_id or is
   * rejected.  A sale without one is registered again.
   */
  lemma IdempotenteSiSoloSi(s: Estado, rs: seq<Pedido>)
    requires Integro(s)
    ensures SyncBatch(SyncBatch(s, rs), rs) == SyncBatch(s, rs) <==>
            forall i | 0 <= i < |rs| :: rs[i].offlineId.Some? || !Aceptable(s, rs[i])
  {
    var s1 := SyncBatch(s, rs);
    SyncGuarda(s, rs);
    if forall i | 0 <= i < |rs| :: rs[i].offlineId.Some? || !Aceptable(s, rs[i]) {
      forall i | 0 <= i < |rs| ensures Absorbido(s1, rs[i]) {
        if rs[i].offlineId.Some? {
          SyncAbsorbe(s, rs, i);
        } else {
          PlanIgual(s, s1, rs[i]);
        }
      }
      SyncDeAbsorbidos(s1, rs);
    } else {
      var i :| 0 <= i < |rs| && rs[i].offlineId.None? && Aceptable(s, rs[i]);
      PlanIgual(s, s1, rs[i]);
      SyncCrece(s1, rs, i);
    }
  }

  /**
   * Over any run, each offline_id owns at most one sale, and an annulled sale stays
   * annulled: no resend brings it back or registers it a second time.
   */
  lemma NoResucita(s: Estado, ops: seq<Op>, k: nat)
    requires Integro(s)
    requires k < |s.ventas| && s.ventas[k].anulada && s.ventas[k].offlineId.Some?
    ensures var s' := Correr(s, ops);
            k < |s'.ventas| && s'.ventas[k] == s.ventas[k] &&
            forall j | 0 <= j < |s'.ventas| && j != k :: s'.ventas[j].offlineId != s.ventas[k].offlineId
  {
    CorridaGuarda(s, ops);
    LibroDeCaja.CorridaPersiste(s, ops);
    assert LibroDeCaja.MismaVenta(s.ventas[k], Correr(s, ops).ventas[k]);
  }

  // ---- Order independence ---------------------------------------------------------------------

  /** No two sales of the batch share an offline_id. */
  predicate IdsDistintos(rs: seq<Pedido>) {
    forall i, j | 0 <= i < j < |rs| && rs[i].offlineId.Some? :: rs[i].offlineId != rs[j].offlineId
  }

  /** What a sale says, apart from its ticket and its conflict flag. */
  datatype Contenido = Contenido(sesion: nat, total: int, descuento: int, offlineId: Option<string>,
                                 lineas: seq<Linea>, pagos: seq<Pago>, anulada: bool)

  function ContenidoDe(v: Venta): Contenido {
    Contenido(v.sesion, v.total, v.descuentoTotal, v.offlineId, v.lineas, v.pagos, v.anulada)
  }

  function ContenidosDe(vs: seq<Venta>): seq<Contenido> {
    seq(|vs|, i requires 0 <= i < |vs| => ContenidoDe(vs[i]))
  }

  /** The content r would get, if it were accepted in s. */
  function Previsto(s: Estado, r: Pedido): seq<Contenido> {
    if Absorbido(s, r) then []
    else
      var plan := Planificar(s, r, true).value;
      [Contenido(r.sesion, plan.total, plan.descuento, r.offlineId, plan.lineas, r.pagos, false)]
  }

  function Previstos(s: Estado, rs: seq<Pedido>): seq<Contenido> {
    if rs == [] then [] else Previsto(s, rs[0]) + Previstos(s, rs[1..])
  }

  lemma {:induction false} PrevistosConcatena(s: Estado, a: seq<Pedido>, b: seq<Pedido>)
    ensures Previstos(s, a + b) == Previstos(s, a) + Previstos(s, b)
  {
    if a == [] {
      assert a + b == b;
    } else {
      assert (a + b)[1..] == a[1..] + b;
      PrevistosConcatena(s, a[1..], b);
    }
  }

  lemma {:induction false} PrevistosIgual(s: Estado, s': Estado, rs: seq<Pedido>)
    requires forall i | 0 <= i < |rs| :: Previsto(s', rs[i]) == Previsto(s, rs[i])
    ensures Previstos(s', rs) == Previstos(s, rs)
  {
    if rs != [] {
      assert Previsto(s', rs[0]) == Previsto(s, rs[0]);
      forall i | 0 <= i < |rs[1..]| ensures Previsto(s', rs[1..][i]) == Previsto(s, rs[1..][i]) {
        assert rs[1..][i] == rs[i + 1];
      }
      PrevistosIgual(s, s', rs[1..]);
    }
  }

  /** Registering r does not change the fate of a sale with another offline_id. */
  lemma PrevistoEstable(s: Estado, r: Pedido, x: Pedido)
    requires Integro(s) && (x.offlineId.None? || r.offlineId != x.offlineId)
    ensures Previsto(RegistrarVenta(s, r, true).0, x) == Previsto(s, x)
  {
    var s' := RegistrarVenta(s, r, true).0;
    UnaVenta(s, r);
    PlanIgual(s, s', x);
    if s' != s {
      BuscarAgrega(s.ventas, s'.ventas[|s.ventas|], x.offlineId);
    }
  }

  /** A batch with distinct ids adds exactly the sales foreseen from its first state. */
  lemma {:induction false} SyncAgregaPrevistos(s: Estado, rs: seq<Pedido>)
    requires Integro(s) && IdsDistintos(rs)
    ensures ContenidosDe(SyncBatch(s, rs).ventas) == ContenidosDe(s.ventas) + Previstos(s, rs)
    decreases |rs|
  {
    if rs == [] {
      assert Previstos(s, rs) == [];
    } else {
      var s1 := RegistrarVenta(s, rs[0], true).0;
      UnContenido(s, rs[0]);
      RestoEstable(s, rs);
      SyncAgregaPrevistos(s1, rs[1..]);
      Asociar(ContenidosDe(s.ventas), Previsto(s, rs[0]), Previstos(s, rs[1..]));
    }
  }

  lemma Asociar<T>(a: seq<T>, b: seq<T>, c: seq<T>)
    ensures (a + b) + c == a + (b + c)
  {
  }

  lemma RestoEstable(s: Estado, rs: seq<Pedido>)
    requires Integro(s) && rs != [] && IdsDistintos(rs)
    ensures IdsDistintos(rs[1..])
    ensures Previstos(RegistrarVenta(s, rs[0], true).0, rs[1..]) == Previstos(s, rs[1..])
  {
    var s1 := RegistrarVenta(s, rs[0], true).0;
    forall i | 0 <= i < |rs[1..]| ensures Previsto(s1, rs[1..][i]) == Previsto(s, rs[1..][i]) {
      assert rs[1..][i] == rs[i + 1];
      PrevistoEstable(s, rs[0], rs[i + 1]);
    }
    PrevistosIgual(s, s1, rs[1..]);
  }

  lemma UnContenido(s: Estado, r: Pedido)
    requires Integro(s)
    ensures Integro(RegistrarVenta(s, r, true).0)
    ensures ContenidosDe(RegistrarVenta(s, r, true).0.ventas) == ContenidosDe(s.ventas) + Previsto(s, r)
  {
    UnaVenta(s, r);
  }

  /** Taking one sale out of the batch takes its content out of the foreseen ones. */
  lemma PrevistosSaca(s: Estado, b: seq<Pedido>, j: nat)
    requires j < |b|
    ensures multiset(Previstos(s, b)) == multiset(Previsto(s, b[j])) + multiset(Previstos(s, b[..j] + b[j + 1..]))
  {
    PrevistosConcatena(s, b[..j], b[j + 1..]);
    PrevistosConcatena(s, b[..j], b[j..]);
    assert b == b[..j] + b[j..] && b[j..][1..] == b[j + 1..];
    SacaDelMedio(Previstos(s, b[..j]), Previsto(s, b[j]), Previstos(s, b[j + 1..]));
  }

  lemma SacaDelMedio<T>(x: seq<T>, y: seq<T>, z: seq<T>)
    ensures multiset(x + (y + z)) == multiset(y) + multiset(x + z)
  {
  }

  lemma {:induction false} PrevistosPermuta(s: Estado, a: seq<Pedido>, b: seq<Pedido>)
    requires multiset(a) == multiset(b)
    ensures multiset(Previstos(s, a)) == multiset(Previstos(s, b))
    decreases |a|
  {
    if a == [] {
      assert |multiset(b)| == 0;
    } else {
      assert a[0] in multiset(b);
      var j :| 0 <= j < |b| && b[j] == a[0];
      var resto := b[..j] + b[j + 1..];
      QuitarPermuta(a, b, j);
      PrevistosPermuta(s, a[1..], resto);
      PrevistosSaca(s, b, j);
    }
  }

  /** Distinctness is a property of the batch, not of its order. */
  lemma OrdenConservaIds(a: seq<Pedido>, b: seq<Pedido>)
    requires multiset(a) == multiset(b) && IdsDistintos(a)
    ensures IdsDistintos(b)
  {
    forall i, j | 0 <= i < j < |b| && b[i].offlineId.Some? ensures b[i].offlineId != b[j].offlineId {
      if b[i].offlineId == b[j].offlineId {
        assert b[i] in multiset(a) && b[j] in multiset(a);
        var x :| 0 <= x < |a| && a[x] == b[i];
        var y :| 0 <= y < |a| && a[y] == b[j];
        assert x == y;
        IdsUnaVez(a, x);
        DosVeces(b, i, j);
      }
    }
  }

  lemma IdsUnaVez(a: seq<Pedido>, x: nat)
    requires x < |a| && IdsDistintos(a) && a[x].offlineId.Some?
    ensures multiset(a)[a[x]] == 1
  {
    assert a == a[..x] + [a[x]] + a[x + 1..];
    assert a[x] !in a[..x] && a[x] !in a[x + 1..];
  }

  lemma DosVeces(b: seq<Pedido>, i: nat, j: nat)
    requires i < j < |b| && b[i] == b[j]
    ensures multiset(b)[b[i]] >= 2
  {
    assert b == b[..j] + [b[j]] + b[j + 1..];
    assert b[..j] == b[..i] + [b[i]] + b[i + 1..j];
  }

  // Sums over sales that only look at their content.

  function PagosDeContenido(i: nat, m: Metodo): Contenido -> int {
    (c: Contenido) => if c.sesion == i && !c.anulada then Suma(LibroDeCaja.PagoEn(m), c.pagos) else 0
  }

  function PesoDeContenido(w: Conservacion.Pesos): Contenido -> int {
    (c: Contenido) => if c.anulada then 0 else Suma(Conservacion.PesoLinea(w), c.lineas)
  }

  lemma VentasPorContenido(s: Estado, i: nat, m: Metodo, w: Conservacion.Pesos)
    ensures Suma(LibroDeCaja.VentaEn(i, m), s.ventas) == Suma(PagosDeContenido(i, m), ContenidosDe(s.ventas))
    ensures Suma(Conservacion.PesoVenta(w), s.ventas) == Suma(PesoDeContenido(w), ContenidosDe(s.ventas))
  {
    SumaIgual(LibroDeCaja.VentaEn(i, m), s.ventas, PagosDeContenido(i, m), ContenidosDe(s.ventas));
    SumaIgual(Conservacion.PesoVenta(w), s.ventas, PesoDeContenido(w), ContenidosDe(s.ventas));
  }

  lemma {:induction false} SyncSinManuales(s: Estado, rs: seq<Pedido>, i: nat, m: Metodo, w: Conservacion.Pesos)
    requires Integro(s)
    ensures var s' := SyncBatch(s, rs);
            Suma(LibroDeCaja.ManualEn(i, m), s'.caja) == Suma(LibroDeCaja.ManualEn(i, m), s.caja) &&
            Suma(Conservacion.PesoAjuste(w), s'.ex.movimientos) == Suma(Conservacion.PesoAjuste(w), s.ex.movimientos)
    decreases |rs|
  {
    if rs != [] {
      var s1 := RegistrarVenta(s, rs[0], true).0;
      UnaVenta(s, rs[0]);
      if s1 != s {
        LibroDeCaja.VentaCuadra(i, m, s, rs[0], Planificar(s, rs[0], true).value, s1);
        Conservacion.VentaPesa(w, s, rs[0], Planificar(s, rs[0], true).value, s1);
      }
      SyncSinManuales(s1, rs[1..], i, m, w);
    }
  }

  lemma {:induction false} SyncRespeta(w: Conservacion.Pesos, s: Estado, rs: seq<Pedido>)
    requires Integro(s) && Conservacion.Respeta(w, s.vinculos)
    ensures Conservacion.RespetaSiempre(w, s, VentasSync(rs))
    decreases |rs|
  {
    if rs != [] {
      UnaVenta(s, rs[0]);
      assert VentasSync(rs)[1..] == VentasSync(rs[1..]);
      SyncRespeta(w, RegistrarVenta(s, rs[0], true).0, rs[1..]);
    }
  }

  /**
   * Order independence: permuting a batch with distinct offline_ids changes neither the
   * accepted sales (as a multiset of contents), nor any session's sum by method, nor the
   * weighted stock, for weights that respect the links.
   */
  lemma OrdenIndiferente(s: Estado, a: seq<Pedido>, b: seq<Pedido>, i: nat, m: Metodo, w: Conservacion.Pesos)
    requires Integro(s) && LibroDeCaja.CajaCuadra(s) && Conservacion.Respeta(w, s.vinculos)
    requires multiset(a) == multiset(b) && IdsDistintos(a)
    ensures var sa, sb := SyncBatch(s, a), SyncBatch(s, b);
            multiset(ContenidosDe(sa.ventas)) == multiset(ContenidosDe(sb.ventas)) &&
            Caja.SumaMetodo(sa.caja, i, m) == Caja.SumaMetodo(sb.caja, i, m) &&
            Conservacion.PesoStock(w, sa.ex.productos) == Conservacion.PesoStock(w, sb.ex.productos)
  {
    var sa, sb := SyncBatch(s, a), SyncBatch(s, b);
    OrdenConservaIds(a, b);
    SyncAgregaPrevistos(s, a);
    SyncAgregaPrevistos(s, b);
    PrevistosPermuta(s, a, b);
    var ca, cb := ContenidosDe(sa.ventas), ContenidosDe(sb.ventas);
    assert multiset(ca) == multiset(cb);
    SumaPermuta(PagosDeContenido(i, m), ca, cb);
    SumaPermuta(PesoDeContenido(w), ca, cb);
    SumasTrasSync(s, a, i, m, w);
    SumasTrasSync(s, b, i, m, w);
  }

  /** The cash and stock totals after a batch, in terms of the contents of the sales. */
  lemma SumasTrasSync(s: Estado, rs: seq<Pedido>, i: nat, m: Metodo, w: Conservacion.Pesos)
    requires Integro(s) && LibroDeCaja.CajaCuadra(s) && Conservacion.Respeta(w, s.vinculos)
    ensures var s' := SyncBatch(s, rs);
            Caja.SumaMetodo(s'.caja, i, m) ==
              Suma(PagosDeContenido(i, m), ContenidosDe(s'.ventas)) + Suma(LibroDeCaja.ManualEn(i, m), s.caja) &&
            Conservacion.PesoStock(w, s'.ex.productos) ==
              Conservacion.PesoStock(w, s.ex.productos) + Suma(Conservacion.PesoVenta(w), s.ventas)
              - Suma(PesoDeContenido(w), ContenidosDe(s'.ventas))
  {
    var s' := SyncBatch(s, rs);
    SyncEsCorrida(s, rs);
    LibroDeCaja.CorridaCuadra(s, VentasSync(rs));
    SyncRespeta(w, s, rs);
    Conservacion.ConservacionPonderada(w, s, VentasSync(rs));
    SyncSinManuales(s, rs, i, m, w);
    VentasPorContenido(s', i, m, w);
  }
}
