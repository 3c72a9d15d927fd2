/**
 * Splitting a discount: when several decrements of a linked product, one after another,
 * leave what one decrement of their sum leaves, and when their order matters.
 */
module Particion {
  import opened Aritmetica
  import opened Datos
  import opened Inventario
  import opened Sumas

  function Total(qs: seq<Positivo>): (t: nat)
    ensures qs != [] ==> t > 0
  {
    if qs == [] then 0 else qs[0] + Total(qs[1..])
  }

  /** Discounts the quantities of one product one after another. */
  function DescontarEnPartes(e: Existencias, vs: seq<Vinculo>, p: nat, qs: seq<Positivo>): Option<Existencias>
    decreases |qs|
  {
    if qs == [] then Some(e)
    else
      match DescontarStock(e, vs, p, qs[0])
      case None => None
      case Some(e') => DescontarEnPartes(e', vs, p, qs[1..])
  }

  /** The link's parent has the units needed to serve `cantidad` of p. */
  predicate Cubre(ps: seq<Producto>, v: Vinculo, p: nat, cantidad: int)
    requires p < |ps| && v.padre < |ps|
  {
    ps[v.padre].stock >= Techo(cantidad - ps[p].stock, v.unidades)
  }

  /** Disassembling k1 for q and then k2 for the rest is disassembling once for both. */
  lemma TechoPartido(stock: int, q: int, resto: int, u: Positivo)
    requires stock < q && 0 <= resto
    ensures var k1 := Techo(q - stock, u);
            var s1 := stock + k1 * u - q;
            0 <= s1 < u &&
            Techo(q + resto - stock, u) == if s1 >= resto then k1 else k1 + Techo(resto - s1, u)
  {
    var k1 := Techo(q - stock, u);
    var s1 := stock + k1 * u - q;
    TechoMinimo(q - stock, u);
    assert (k1 - 1) * u == k1 * u - u;
    if s1 >= resto {
      TechoUnico(q + resto - stock, u, k1);
    } else {
      var k2 := Techo(resto - s1, u);
      TechoMinimo(resto - s1, u);
      assert (k1 + k2) * u == k1 * u + k2 * u;
      assert (k1 + k2 - 1) * u == k1 * u + (k2 - 1) * u;
      TechoUnico(q + resto - stock, u, k1 + k2);
    }
  }

  /** Child and parent stock after discounting q units of a linked child. */
  function Reparto(hijo: int, padre: int, u: Positivo, q: int): (int, int) {
    RepartoCon(hijo, padre, u, q, Techo(q - hijo, u))
  }

  function RepartoCon(hijo: int, padre: int, u: Positivo, q: int, k: int): (int, int) {
    if hijo >= q || padre < k then (hijo - q, padre) else (hijo + k * u - q, padre - k)
  }

  function ConPar(ps: seq<Producto>, p: nat, padre: nat, par: (int, int)): seq<Producto>
    requires p < |ps| && padre < |ps|
  {
    ps[padre := ps[padre].(stock := par.1)][p := ps[p].(stock := par.0)]
  }

  lemma DescontarLigado(e: Existencias, vs: seq<Vinculo>, p: nat, v: Vinculo, q: int)
    requires p < |e.productos| && VinculosValidos(vs, |e.productos|)
    requires VinculoAuto(vs, p) == Some(v)
    ensures var r := DescontarStock(e, vs, p, q);
            r.Some? &&
            r.value.productos ==
            ConPar(e.productos, p, v.padre, Reparto(e.productos[p].stock, e.productos[v.padre].stock, v.unidades, q))
  {
    var ps := e.productos;
    assert v.padre != p;
    assert ps[v.padre := ps[v.padre].(stock := ps[v.padre].stock)] == ps;
  }

  /** Two discounts of a covered total move the pair of stocks as one discount does. */
  lemma RepartoDos(hijo: int, padre: int, u: Positivo, q: int, resto: int)
    requires 0 <= q && 0 < resto && padre >= Techo(q + resto - hijo, u)
    ensures var (h1, p1) := Reparto(hijo, padre, u, q);
            p1 >= Techo(resto - h1, u) &&
            Reparto(h1, p1, u, resto) == Reparto(hijo, padre, u, q + resto)
  {
    if hijo < q {
      var k1 := Techo(q - hijo, u);
      var h1 := hijo + k1 * u - q;
      var k, k2 := Techo(q + resto - hijo, u), Techo(resto - h1, u);
      TechoPartido(hijo, q, resto, u);
      TechoNoNegativo(resto - h1, u);
      RepartoTechos(hijo, padre, u, q, resto, k1, k2, k);
    }
  }

  lemma RepartoTechos(hijo: int, padre: int, u: Positivo, q: int, resto: int, k1: int, k2: int, k: int)
    requires hijo < q && 0 < resto && padre >= k
    requires var h1 := hijo + k1 * u - q;
             if h1 >= resto then k == k1 && k2 <= 0 else k == k1 + k2 && k2 >= 1
    ensures padre >= k1
    ensures var (h1, p1) := RepartoCon(hijo, padre, u, q, k1);
            h1 == hijo + k1 * u - q && p1 == padre - k1 &&
            p1 >= k2 && RepartoCon(h1, p1, u, resto, k2) == RepartoCon(hijo, padre, u, q + resto, k)
  {
    assert (k1 + k2) * u == k1 * u + k2 * u;
  }

  /** One discount of q + resto is a discount of q followed by one of resto. */
  lemma DescontarDos(e: Existencias, vs: seq<Vinculo>, p: nat, v: Vinculo, q: int, resto: int)
    requires p < |e.productos| && VinculosValidos(vs, |e.productos|)
    requires VinculoAuto(vs, p) == Some(v)
    requires 0 <= q && 0 < resto && Cubre(e.productos, v, p, q + resto)
    ensures var e1 := DescontarStock(e, vs, p, q);
            e1.Some? && |e1.value.productos| == |e.productos| &&
            Cubre(e1.value.productos, v, p, resto) &&
            var e2 := DescontarStock(e1.value, vs, p, resto);
            var e' := DescontarStock(e, vs, p, q + resto);
            e2.Some? && e'.Some? && e2.value.productos == e'.value.productos
  {
    var ps := e.productos;
    DescontarLigado(e, vs, p, v, q);
    DescontarLigado(e, vs, p, v, q + resto);
    var e1 := DescontarStock(e, vs, p, q).value;
    DescontarLigado(e1, vs, p, v, resto);
    RepartoDos(ps[p].stock, ps[v.padre].stock, v.unidades, q, resto);
  }

  /**
   * Splitting law: discounting positive quantities of a linked product one after another
   * leaves every product's stock as one discount of their sum does, whenever the parent
   * covers the sum.
   */
  lemma {:induction false} LeyDeParticion(e: Existencias, vs: seq<Vinculo>, p: nat, v: Vinculo, qs: seq<Positivo>)
    requires p < |e.productos| && VinculosValidos(vs, |e.productos|)
    requires VinculoAuto(vs, p) == Some(v)
    requires qs != []
    requires Cubre(e.productos, v, p, Total(qs))
    ensures var partes := DescontarEnPartes(e, vs, p, qs);
            var unico := DescontarStock(e, vs, p, Total(qs));
            partes.Some? && unico.Some? && partes.value.productos == unico.value.productos
    decreases |qs|
  {
    var resto := qs[1..];
    if resto == [] {
      assert Total(qs) == qs[0];
      PreflightConcuerda(e, vs, p, qs[0]);
      assert DescontarEnPartes(e, vs, p, qs) == DescontarEnPartes(DescontarStock(e, vs, p, qs[0]).value, vs, p, resto);
    } else {
      DescontarDos(e, vs, p, v, qs[0], Total(resto));
      LeyDeParticion(DescontarStock(e, vs, p, qs[0]).value, vs, p, v, resto);
    }
  }

  // ---- Exactly when the law holds -----------------------------------------------------------

  /** A single discount of q opens parents. */
  predicate Abre(hijo: int, padre: int, u: Positivo, q: int) {
    hijo < q && padre >= Techo(q - hijo, u)
  }

  /** None of the quantities in turn can be served by opening parents. */
  predicate NadaAbre(hijo: int, padre: int, u: Positivo, qs: seq<Positivo>)
    decreases |qs|
  {
    qs == [] || (!Abre(hijo, padre, u, qs[0]) && NadaAbre(hijo - qs[0], padre, u, qs[1..]))
  }

  /** Child and parent stock after discounting the quantities one after another. */
  function RepartoEnPartes(hijo: int, padre: int, u: Positivo, qs: seq<Positivo>): (int, int)
    decreases |qs|
  {
    if qs == [] then (hijo, padre)
    else
      var (h, p) := Reparto(hijo, padre, u, qs[0]);
      RepartoEnPartes(h, p, u, qs[1..])
  }

  /** The two stocks are all that a list of discounts of a linked child changes. */
  lemma {:induction false} PartesLigadas(e: Existencias, vs: seq<Vinculo>, p: nat, v: Vinculo, qs: seq<Positivo>)
    requires p < |e.productos| && VinculosValidos(vs, |e.productos|)
    requires VinculoAuto(vs, p) == Some(v)
    ensures var r := DescontarEnPartes(e, vs, p, qs);
            r.Some? &&
            r.value.productos ==
            ConPar(e.productos, p, v.padre,
                   RepartoEnPartes(e.productos[p].stock, e.productos[v.padre].stock, v.unidades, qs))
    decreases |qs|
  {
    var ps := e.productos;
    if qs == [] {
      assert ps[v.padre := ps[v.padre].(stock := ps[v.padre].stock)] == ps;
      assert ps[p := ps[p].(stock := ps[p].stock)] == ps;
    } else {
      DescontarLigado(e, vs, p, v, qs[0]);
      PartesLigadas(DescontarStock(e, vs, p, qs[0]).value, vs, p, v, qs[1..]);
    }
  }

  lemma ParesDistintos(ps: seq<Producto>, p: nat, padre: nat, a: (int, int), b: (int, int))
    requires p < |ps| && padre < |ps| && p != padre
    ensures ConPar(ps, p, padre, a) == ConPar(ps, p, padre, b) <==> a == b
  {
    var xs, ys := ConPar(ps, p, padre, a), ConPar(ps, p, padre, b);
    assert xs[p].stock == a.0 && ys[p].stock == b.0;
    assert xs[padre].stock == a.1 && ys[padre].stock == b.1;
  }

  /** Two lists of discounts agree exactly when they leave the same two stocks. */
  lemma PartesIguales(e: Existencias, vs: seq<Vinculo>, p: nat, v: Vinculo, a: seq<Positivo>, b: seq<Positivo>)
    requires p < |e.productos| && VinculosValidos(vs, |e.productos|)
    requires VinculoAuto(vs, p) == Some(v)
    ensures var x, y := DescontarEnPartes(e, vs, p, a), DescontarEnPartes(e, vs, p, b);
            var h, k, u := e.productos[p].stock, e.productos[v.padre].stock, v.unidades;
            x.Some? && y.Some? &&
            (x.value.productos == y.value.productos <==> RepartoEnPartes(h, k, u, a) == RepartoEnPartes(h, k, u, b))
  {
    var h, k, u := e.productos[p].stock, e.productos[v.padre].stock, v.unidades;
    PartesLigadas(e, vs, p, v, a);
    PartesLigadas(e, vs, p, v, b);
    ParesDistintos(e.productos, p, v.padre, RepartoEnPartes(h, k, u, a), RepartoEnPartes(h, k, u, b));
  }

  /** Opening lowers the parent's stock, and nothing else moves it. */
  lemma RepartoBaja(hijo: int, padre: int, u: Positivo, q: int)
    ensures var r := Reparto(hijo, padre, u, q);
            if Abre(hijo, padre, u, q) then r.1 < padre else r == (hijo - q, padre)
  {
    TechoNoNegativo(q - hijo, u);
  }

  /** The parent keeps its stock exactly when nothing opens, and then the child loses the sum. */
  lemma {:induction false} PartesBajan(hijo: int, padre: int, u: Positivo, qs: seq<Positivo>)
    ensures var r := RepartoEnPartes(hijo, padre, u, qs);
            r.1 <= padre && (r.1 == padre <==> NadaAbre(hijo, padre, u, qs)) &&
            (NadaAbre(hijo, padre, u, qs) ==> r == (hijo - Total(qs), padre))
    decreases |qs|
  {
    if qs != [] {
      RepartoBaja(hijo, padre, u, qs[0]);
      var (h, p) := Reparto(hijo, padre, u, qs[0]);
      PartesBajan(h, p, u, qs[1..]);
    }
  }

  /** A sum that is not covered opens nothing, so the parts agree with it if they open nothing. */
  lemma PartesSinCubrir(hijo: int, padre: int, u: Positivo, qs: seq<Positivo>)
    requires padre < Techo(Total(qs) - hijo, u)
    ensures RepartoEnPartes(hijo, padre, u, qs) == Reparto(hijo, padre, u, Total(qs)) <==> NadaAbre(hijo, padre, u, qs)
  {
    PartesBajan(hijo, padre, u, qs);
    RepartoBaja(hijo, padre, u, Total(qs));
  }

  /** Parts and sum agree exactly when they leave the same two stocks. */
  lemma ParticionPorPares(e: Existencias, vs: seq<Vinculo>, p: nat, v: Vinculo, qs: seq<Positivo>)
    requires p < |e.productos| && VinculosValidos(vs, |e.productos|)
    requires VinculoAuto(vs, p) == Some(v)
    ensures var partes, unico := DescontarEnPartes(e, vs, p, qs), DescontarStock(e, vs, p, Total(qs));
            var h, k, u := e.productos[p].stock, e.productos[v.padre].stock, v.unidades;
            partes.Some? && unico.Some? &&
            (partes.value.productos == unico.value.productos <==>
             RepartoEnPartes(h, k, u, qs) == Reparto(h, k, u, Total(qs)))
  {
    var h, k, u := e.productos[p].stock, e.productos[v.padre].stock, v.unidades;
    PartesLigadas(e, vs, p, v, qs);
    DescontarLigado(e, vs, p, v, Total(qs));
    ParesDistintos(e.productos, p, v.padre, RepartoEnPartes(h, k, u, qs), Reparto(h, k, u, Total(qs)));
  }

  lemma ParticionSinCubrir(e: Existencias, vs: seq<Vinculo>, p: nat, v: Vinculo, qs: seq<Positivo>)
    requires p < |e.productos| && VinculosValidos(vs, |e.productos|)
    requires VinculoAuto(vs, p) == Some(v) && !Cubre(e.productos, v, p, Total(qs))
    ensures var partes, unico := DescontarEnPartes(e, vs, p, qs), DescontarStock(e, vs, p, Total(qs));
            partes.Some? && unico.Some? &&
            (partes.value.productos == unico.value.productos <==>
             NadaAbre(e.productos[p].stock, e.productos[v.padre].stock, v.unidades, qs))
  {
    var h, k, u := e.productos[p].stock, e.productos[v.padre].stock, v.unidades;
    ParticionPorPares(e, vs, p, v, qs);
    assert RepartoEnPartes(h, k, u, qs) == Reparto(h, k, u, Total(qs)) <==> NadaAbre(h, k, u, qs) by {
      PartesSinCubrir(h, k, u, qs);
    }
  }

  /**
   * Exactly when discounting in parts leaves what one discount of the sum leaves: when the
   * parent covers the sum, or when none of the parts opens it.
   */
  lemma ParticionSiSoloSi(e: Existencias, vs: seq<Vinculo>, p: nat, v: Vinculo, qs: seq<Positivo>)
    requires p < |e.productos| && VinculosValidos(vs, |e.productos|)
    requires VinculoAuto(vs, p) == Some(v)
    requires qs != []
    ensures var partes, unico := DescontarEnPartes(e, vs, p, qs), DescontarStock(e, vs, p, Total(qs));
            partes.Some? && unico.Some? &&
            (partes.value.productos == unico.value.productos <==>
             Cubre(e.productos, v, p, Total(qs)) ||
             NadaAbre(e.productos[p].stock, e.productos[v.padre].stock, v.unidades, qs))
  {
    if Cubre(e.productos, v, p, Total(qs)) {
      LeyDeParticion(e, vs, p, v, qs);
    } else {
      ParticionSinCubrir(e, vs, p, v, qs);
    }
  }

  // ---- Order -----------------------------------------------------------------------------------

  lemma {:induction false} TotalConcatena(a: seq<Positivo>, b: seq<Positivo>)
    ensures Total(a + b) == Total(a) + Total(b)
  {
    if a == [] {
      assert a + b == b;
    } else {
      assert (a + b)[1..] == a[1..] + b;
      TotalConcatena(a[1..], b);
    }
  }

  lemma {:induction false} TotalPermuta(a: seq<Positivo>, b: seq<Positivo>)
    requires multiset(a) == multiset(b)
    ensures Total(a) == Total(b) && |a| == |b|
    decreases |a|
  {
    if a == [] {
      assert |multiset(b)| == 0;
    } else {
      assert a[0] in multiset(b);
      var j :| 0 <= j < |b| && b[j] == a[0];
      QuitarPermuta(a, b, j);
      TotalPermuta(a[1..], b[..j] + b[j + 1..]);
      TotalConcatena(b[..j], b[j + 1..]);
      TotalConcatena(b[..j], b[j..]);
      assert b == b[..j] + b[j..] && b[j..][1..] == b[j + 1..];
    }
  }

  /** Under coverage the order of the quantities does not matter. */
  lemma OrdenCubierto(e: Existencias, vs: seq<Vinculo>, p: nat, v: Vinculo, a: seq<Positivo>, b: seq<Positivo>)
    requires p < |e.productos| && VinculosValidos(vs, |e.productos|)
    requires VinculoAuto(vs, p) == Some(v)
    requires multiset(a) == multiset(b) && Cubre(e.productos, v, p, Total(a))
    ensures var x, y := DescontarEnPartes(e, vs, p, a), DescontarEnPartes(e, vs, p, b);
            x.Some? && y.Some? && x.value.productos == y.value.productos
  {
    TotalPermuta(a, b);
    if a != [] {
      LeyDeParticion(e, vs, p, v, a);
      LeyDeParticion(e, vs, p, v, b);
    }
  }

  /** The parents a single discount of q opens. */
  function Abiertos(hijo: int, padre: int, u: Positivo, q: int): int {
    if Abre(hijo, padre, u, q) then Techo(q - hijo, u) else 0
  }

  /** After k parents are opened for q, the stocks of child and parent. */
  function TrasAbrir(hijo: int, padre: int, u: Positivo, k: int, q: int): (int, int) {
    (hijo + k * u - q, padre - k)
  }

  lemma RepartoAbre(hijo: int, padre: int, u: Positivo, q: int)
    ensures Reparto(hijo, padre, u, q) == TrasAbrir(hijo, padre, u, Abiertos(hijo, padre, u, q), q)
  {
  }

  lemma AbrirIguales(hijo: int, padre: int, u: Positivo, j: int, k: int, q: int)
    ensures TrasAbrir(hijo, padre, u, j, q) == TrasAbrir(hijo, padre, u, k, q) <==> j == k
  {
  }

  /** Of two quantities not covered together, the second can open nothing. */
  lemma SegundaNoAbre(hijo: int, padre: int, u: Positivo, q: Positivo, resto: Positivo)
    requires padre < Techo(q + resto - hijo, u)
    ensures var (h, p) := Reparto(hijo, padre, u, q);
            !Abre(h, p, u, resto)
  {
    if Abre(hijo, padre, u, q) {
      TechoPartido(hijo, q, resto, u);
    }
  }

  lemma SinCubrirDos(hijo: int, padre: int, u: Positivo, q: Positivo, resto: Positivo)
    requires padre < Techo(q + resto - hijo, u)
    ensures RepartoEnPartes(hijo, padre, u, [q, resto]) ==
            TrasAbrir(hijo, padre, u, Abiertos(hijo, padre, u, q), q + resto)
  {
    var (h, p) := Reparto(hijo, padre, u, q);
    EnDosPartes(hijo, padre, u, q, resto);
    RepartoAbre(hijo, padre, u, q);
    SegundaNoAbre(hijo, padre, u, q, resto);
    RepartoBaja(h, p, u, resto);
  }

  lemma EnDosPartes(hijo: int, padre: int, u: Positivo, q: Positivo, resto: Positivo)
    ensures var (h, p) := Reparto(hijo, padre, u, q);
            RepartoEnPartes(hijo, padre, u, [q, resto]) == Reparto(h, p, u, resto)
  {
    var (h, p) := Reparto(hijo, padre, u, q);
    var (h2, p2) := Reparto(h, p, u, resto);
    assert [q, resto][1..] == [resto] && [resto][1..] == [];
    assert RepartoEnPartes(h, p, u, [resto]) == RepartoEnPartes(h2, p2, u, []);
  }

  lemma OrdenSinCubrir(hijo: int, padre: int, u: Positivo, q: Positivo, r: Positivo)
    requires padre < Techo(q + r - hijo, u)
    ensures RepartoEnPartes(hijo, padre, u, [q, r]) == RepartoEnPartes(hijo, padre, u, [r, q]) <==>
            Abiertos(hijo, padre, u, q) == Abiertos(hijo, padre, u, r)
  {
    var j, k := Abiertos(hijo, padre, u, q), Abiertos(hijo, padre, u, r);
    SinCubrirDos(hijo, padre, u, q, r);
    SinCubrirDos(hijo, padre, u, r, q);
    AbrirIguales(hijo, padre, u, j, k, q + r);
  }

  lemma TotalDos(q: Positivo, resto: Positivo)
    ensures Total([q, resto]) == q + resto
  {
    assert [q, resto][1..] == [resto];
    assert [resto][1..] == [];
    assert Total([resto]) == resto;
  }

  /** The lists a and b are q and r in either order. */
  predicate DosOrdenes(a: seq<Positivo>, b: seq<Positivo>, q: Positivo, r: Positivo) {
    a == [q, r] && b == [r, q]
  }

  lemma DosOrdenesIguales(hijo: int, padre: int, u: Positivo, a: seq<Positivo>, b: seq<Positivo>, q: Positivo, r: Positivo)
    requires DosOrdenes(a, b, q, r) && padre < Techo(q + r - hijo, u)
    ensures RepartoEnPartes(hijo, padre, u, a) == RepartoEnPartes(hijo, padre, u, b) <==>
            Abiertos(hijo, padre, u, q) == Abiertos(hijo, padre, u, r)
  {
    OrdenSinCubrir(hijo, padre, u, q, r);
  }

  lemma DosOrdenesPermutan(a: seq<Positivo>, b: seq<Positivo>, q: Positivo, r: Positivo)
    requires DosOrdenes(a, b, q, r)
    ensures Total(a) == q + r && multiset(a) == multiset(b)
  {
    TotalDos(q, r);
  }

  lemma DosSinCubrir(e: Existencias, vs: seq<Vinculo>, p: nat, v: Vinculo,
                     a: seq<Positivo>, b: seq<Positivo>, q: Positivo, r: Positivo)
    requires p < |e.productos| && VinculosValidos(vs, |e.productos|)
    requires VinculoAuto(vs, p) == Some(v)
    requires DosOrdenes(a, b, q, r) && !Cubre(e.productos, v, p, q + r)
    ensures var x, y := DescontarEnPartes(e, vs, p, a), DescontarEnPartes(e, vs, p, b);
            var h, k, u := e.productos[p].stock, e.productos[v.padre].stock, v.unidades;
            x.Some? && y.Some? &&
            (x.value.productos == y.value.productos <==> Abiertos(h, k, u, q) == Abiertos(h, k, u, r))
  {
    var h, k, u := e.productos[p].stock, e.productos[v.padre].stock, v.unidades;
    PartesIguales(e, vs, p, v, a, b);
    assert RepartoEnPartes(h, k, u, a) == RepartoEnPartes(h, k, u, b) <==> Abiertos(h, k, u, q) == Abiertos(h, k, u, r) by {
      DosOrdenesIguales(h, k, u, a, b, q, r);
    }
  }

  /**
   * Exactly when two quantities may be discounted in either order: when the parent covers
   * both, or when either one, coming first, would open as many parents.
   */
  lemma OrdenSiSoloSi(e: Existencias, vs: seq<Vinculo>, p: nat, v: Vinculo,
                      a: seq<Positivo>, b: seq<Positivo>, q: Positivo, r: Positivo)
    requires p < |e.productos| && VinculosValidos(vs, |e.productos|)
    requires VinculoAuto(vs, p) == Some(v)
    requires DosOrdenes(a, b, q, r)
    ensures var x, y := DescontarEnPartes(e, vs, p, a), DescontarEnPartes(e, vs, p, b);
            var h, k, u := e.productos[p].stock, e.productos[v.padre].stock, v.unidades;
            x.Some? && y.Some? &&
            (x.value.productos == y.value.productos <==>
             Cubre(e.productos, v, p, q + r) || Abiertos(h, k, u, q) == Abiertos(h, k, u, r))
  {
    if Cubre(e.productos, v, p, q + r) {
      DosOrdenesPermutan(a, b, q, r);
      OrdenCubierto(e, vs, p, v, a, b);
    } else {
      DosSinCubrir(e, vs, p, v, a, b, q, r);
    }
  }

  // ---- Witnesses -------------------------------------------------------------------------------

  /**
   * A case where it does not: 4 and then 9 units from a stock of 2 with one six-unit parent
   * open the parent, while 13 at once do not.
   */
  lemma ParticionSinCobertura()
    ensures var e := Existencias([Producto(100, 1, true), Producto(10, 2, true)], [], []);
            var vs := [Vinculo(0, 1, 6, true)];
            var partes := DescontarEnPartes(e, vs, 1, [4, 9]);
            var unico := DescontarStock(e, vs, 1, Total([4, 9]));
            partes.Some? && partes.value.productos == [Producto(100, 0, true), Producto(10, -5, true)] &&
            unico.Some? && unico.value.productos == [Producto(100, 1, true), Producto(10, -11, true)]
  {
    var e := Existencias([Producto(100, 1, true), Producto(10, 2, true)], [], []);
    var vs := [Vinculo(0, 1, 6, true)];
    var e1 := DescontarStock(e, vs, 1, 4).value;
    assert e1.productos == [Producto(100, 0, true), Producto(10, 4, true)];
    assert [4, 9][1..] == [9] && [9][1..] == [];
    assert Total([4, 9]) == 13;
    var e2 := DescontarStock(e1, vs, 1, 9).value;
    assert e2.productos == [Producto(100, 0, true), Producto(10, -5, true)];
    assert DescontarEnPartes(e1, vs, 1, [9]) == DescontarEnPartes(e2, vs, 1, []);
    assert DescontarEnPartes(e, vs, 1, [4, 9]) == DescontarEnPartes(e1, vs, 1, [9]);
  }

  /** A case where the order matters: of the same two quantities, 9 and then 4 open nothing. */
  lemma OrdenAlteraStock()
    ensures var e := Existencias([Producto(100, 1, true), Producto(10, 2, true)], [], []);
            var vs := [Vinculo(0, 1, 6, true)];
            var r := DescontarEnPartes(e, vs, 1, [9, 4]);
            r.Some? && r.value.productos == [Producto(100, 1, true), Producto(10, -11, true)]
  {
    var e := Existencias([Producto(100, 1, true), Producto(10, 2, true)], [], []);
    var vs := [Vinculo(0, 1, 6, true)];
    var e1 := DescontarStock(e, vs, 1, 9).value;
    assert e1.productos == [Producto(100, 1, true), Producto(10, -7, true)];
    assert [9, 4][1..] == [4] && [4][1..] == [];
    var e2 := DescontarStock(e1, vs, 1, 4).value;
    assert e2.productos == [Producto(100, 1, true), Producto(10, -11, true)];
    assert DescontarEnPartes(e1, vs, 1, [4]) == DescontarEnPartes(e2, vs, 1, []);
    assert DescontarEnPartes(e, vs, 1, [9, 4]) == DescontarEnPartes(e1, vs, 1, [4]);
  }
}
