/**
 * Batches cut short inside a sale.  The transaction rolls back, but the ticket it drew from
 * the sequence is gone: resending still leaves the same store, apart from ticket numbers.
 */
module Cortes {
  import opened Datos
  import opened Ventas
  import opened Integridad
  import opened Sincronizacion

  // ---- Stores equal but for their tickets -----------------------------------------------------

  function SinTicket(v: Venta): Venta {
    v.(ticket := 0)
  }

  predicate VentasParejas(vs: seq<Venta>, ws: seq<Venta>) {
    |vs| == |ws| && forall i | 0 <= i < |vs| :: SinTicket(vs[i]) == SinTicket(ws[i])
  }

  /** Stock, movements, links, sessions, cash ledger and sales agree; tickets may differ. */
  predicate SalvoTickets(s: Estado, t: Estado) {
    VentasParejas(s.ventas, t.ventas) && t == s.(ventas := t.ventas, ticket := t.ticket)
  }

  lemma {:induction false} BuscarParejas(vs: seq<Venta>, ws: seq<Venta>, oid: string)
    requires VentasParejas(vs, ws)
    ensures BuscarOffline(vs, oid) == BuscarOffline(ws, oid)
  {
    if vs != [] {
      var n := |vs| - 1;
      BuscarParejas(vs[..n], ws[..n], oid);
      assert SinTicket(vs[n]) == SinTicket(ws[n]);
      assert vs[n].offlineId == SinTicket(vs[n]).offlineId && ws[n].offlineId == SinTicket(ws[n]).offlineId;
    }
  }

  lemma TxParejas(s: Estado, t: Estado, r: Pedido, plan: Plan)
    requires SalvoTickets(s, t)
    ensures var (s', x), (t', y) := TxVenta(s, r, plan, true), TxVenta(t, r, plan, true);
            SalvoTickets(s', t') && x == y && t'.ticket - s'.ticket == t.ticket - s.ticket
  {
    if r.offlineId.Some? {
      BuscarParejas(s.ventas, t.ventas, r.offlineId.value);
    }
  }

  /** The same sale does the same to both. */
  lemma RegistrarParejas(s: Estado, t: Estado, r: Pedido)
    requires SalvoTickets(s, t)
    ensures var (s', x), (t', y) := RegistrarVenta(s, r, true), RegistrarVenta(t, r, true);
            SalvoTickets(s', t') && x == y && t'.ticket - s'.ticket == t.ticket - s.ticket
  {
    if r.offlineId.Some? {
      BuscarParejas(s.ventas, t.ventas, r.offlineId.value);
    }
    assert Planificar(t, r, true) == Planificar(s, r, true);
    if Planificar(s, r, true).Ok? {
      TxParejas(s, t, r, Planificar(s, r, true).value);
    }
  }

  lemma {:induction false} SyncParejas(s: Estado, t: Estado, rs: seq<Pedido>)
    requires SalvoTickets(s, t)
    ensures var s', t' := SyncBatch(s, rs), SyncBatch(t, rs);
            SalvoTickets(s', t') && t'.ticket - s'.ticket == t.ticket - s.ticket
    decreases |rs|
  {
    if rs != [] {
      RegistrarParejas(s, t, rs[0]);
      SyncParejas(RegistrarVenta(s, rs[0], true).0, RegistrarVenta(t, rs[0], true).0, rs[1..]);
    }
  }

  // ---- Deliveries cut inside a sale ------------------------------------------------------------

  /** `enteras` sales are committed; with `dentro` the next one is under way when the crash comes. */
  datatype Corte = Corte(enteras: nat, dentro: bool)

  /** A sale cut after nextval: nothing stays but the ticket, if it got that far. */
  function Interrumpir(s: Estado, r: Pedido): Estado {
    if Absorbido(s, r) then s else s.(ticket := s.ticket + 1)
  }

  function Entrega(s: Estado, rs: seq<Pedido>, c: Corte): Estado
    requires c.enteras <= |rs|
  {
    var s1 := SyncBatch(s, rs[..c.enteras]);
    if c.dentro && c.enteras < |rs| then Interrumpir(s1, rs[c.enteras]) else s1
  }

  predicate EnLote(rs: seq<Pedido>, cortes: seq<Corte>) {
    forall i | 0 <= i < |cortes| :: cortes[i].enteras <= |rs|
  }

  function Entregados(s: Estado, rs: seq<Pedido>, cortes: seq<Corte>): Estado
    requires EnLote(rs, cortes)
  {
    if cortes == [] then s
    else Entrega(Entregados(s, rs, cortes[..|cortes| - 1]), rs, cortes[|cortes| - 1])
  }

  /** The tickets lost to crashes. */
  function Quemados(s: Estado, rs: seq<Pedido>, cortes: seq<Corte>): nat
    requires EnLote(rs, cortes)
  {
    if cortes == [] then 0
    else
      var antes, c := cortes[..|cortes| - 1], cortes[|cortes| - 1];
      Quemados(s, rs, antes) +
      (if c.dentro && c.enteras < |rs| && !Absorbido(SyncBatch(Entregados(s, rs, antes), rs[..c.enteras]), rs[c.enteras])
       then 1 else 0)
  }

  function Enteras(cortes: seq<Corte>): seq<nat> {
    seq(|cortes|, i requires 0 <= i < |cortes| => cortes[i].enteras)
  }

  /** Cut inside or between sales, the deliveries leave the same but for the tickets lost. */
  lemma {:induction false} EntregadosParejos(s: Estado, rs: seq<Pedido>, cortes: seq<Corte>)
    requires EnLote(rs, cortes)
    ensures var t, t' := Entregas(s, rs, Enteras(cortes)), Entregados(s, rs, cortes);
            SalvoTickets(t, t') && t'.ticket == t.ticket + Quemados(s, rs, cortes)
  {
    if cortes != [] {
      var antes, c := cortes[..|cortes| - 1], cortes[|cortes| - 1];
      assert Enteras(cortes)[..|cortes| - 1] == Enteras(antes);
      var t, t' := Entregas(s, rs, Enteras(antes)), Entregados(s, rs, antes);
      EntregadosParejos(s, rs, antes);
      SyncParejas(t, t', rs[..c.enteras]);
      assert Entregas(s, rs, Enteras(cortes)) == SyncBatch(t, rs[..c.enteras]);
      assert Entregados(s, rs, cortes) == Entrega(t', rs, c);
    }
  }

  /**
   * Crash-safe sync, wherever the crash: after any number of cut deliveries, delivering the
   * batch in full leaves the stock, the movements, the sessions, the cash ledger and the sales
   * of delivering it once; the ticket sequence is ahead by exactly the tickets lost.
   */
  lemma EntregaCortada(s: Estado, rs: seq<Pedido>, cortes: seq<Corte>)
    requires Integro(s) && ConIds(rs) && EnLote(rs, cortes)
    ensures var una, varias := SyncBatch(s, rs), SyncBatch(Entregados(s, rs, cortes), rs);
            SalvoTickets(una, varias) && varias.ticket == una.ticket + Quemados(s, rs, cortes)
  {
    EntregadosParejos(s, rs, cortes);
    SyncParejas(Entregas(s, rs, Enteras(cortes)), Entregados(s, rs, cortes), rs);
    EntregaSegura(s, rs, Enteras(cortes));
  }

  /** Exactly when even the tickets are the same: when no crash lost one. */
  lemma EntregaIdenticaSiSoloSi(s: Estado, rs: seq<Pedido>, cortes: seq<Corte>)
    requires Integro(s) && ConIds(rs) && EnLote(rs, cortes)
    ensures SyncBatch(Entregados(s, rs, cortes), rs) == SyncBatch(s, rs) <==> Quemados(s, rs, cortes) == 0
  {
    EntregaCortada(s, rs, cortes);
    if Quemados(s, rs, cortes) == 0 {
      SinQuemados(s, rs, cortes);
      EntregaSegura(s, rs, Enteras(cortes));
    }
  }

  lemma {:induction false} SinQuemados(s: Estado, rs: seq<Pedido>, cortes: seq<Corte>)
    requires EnLote(rs, cortes) && Quemados(s, rs, cortes) == 0
    ensures Entregados(s, rs, cortes) == Entregas(s, rs, Enteras(cortes))
  {
    if cortes != [] {
      var n := |cortes| - 1;
      assert Enteras(cortes)[..n] == Enteras(cortes[..n]);
      SinQuemados(s, rs, cortes[..n]);
    }
  }
}
