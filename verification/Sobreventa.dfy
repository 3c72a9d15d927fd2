/**
 * When the lines of a sale leave no stock negative, disassembly included: products may be
 * repeated, share a parent, or be sold along with their parent.
 */
module Sobreventa {
  import opened Aritmetica
  import opened Datos
  import opened Inventario
  import opened Ventas
  import opened Integridad
  import opened Concurrencia

  // ---- What the lines ask of each product ---------------------------------------------------

  /** Parents to open for n missing units. */
  function Faltan(n: int, u: Positivo): int {
    if n <= 0 then 0 else Techo(n, u)
  }

  /** Parents that the lines need to open for child c. */
  function Necesidad(ps: seq<Producto>, vs: seq<Vinculo>, ls: seq<Linea>, c: nat): int
    requires c < |ps|
  {
    match VinculoAuto(vs, c)
    case None => 0
    case Some(v) => Faltan(Pedidas(ls, c) - ps[c].stock, v.unidades)
  }

  predicate EsHijo(vs: seq<Vinculo>, c: nat, padre: nat) {
    VinculoAuto(vs, c).Some? && VinculoAuto(vs, c).value.padre == padre
  }

  function NecesidadPara(ps: seq<Producto>, vs: seq<Vinculo>, ls: seq<Linea>, padre: nat): nat -> int {
    (c: nat) => if c < |ps| && EsHijo(vs, c, padre) then Necesidad(ps, vs, ls, c) else 0
  }

  function SumaHasta(f: nat -> int, n: nat): int {
    if n == 0 then 0 else SumaHasta(f, n - 1) + f(n - 1)
  }

  /** Units of p to be sold as they are, and units to be opened for its children. */
  function Demanda(ps: seq<Producto>, vs: seq<Vinculo>, ls: seq<Linea>, p: nat): int {
    (if VinculoAuto(vs, p).Some? then 0 else Pedidas(ls, p)) + SumaHasta(NecesidadPara(ps, vs, ls, p), |ps|)
  }

  /** The opening stock of every product covers all that is asked of it. */
  predicate CubreDemandas(ps: seq<Producto>, vs: seq<Vinculo>, ls: seq<Linea>) {
    forall p | 0 <= p < |ps| :: Demanda(ps, vs, ls, p) <= ps[p].stock
  }

  /** No product sold by opening a parent has a parent that is itself sold by opening another. */
  predicate SinCadenas(vs: seq<Vinculo>, ls: seq<Linea>) {
    forall i, j | 0 <= i < |ls| && 0 <= j < |ls| && EsHijo(vs, ls[i].producto, ls[j].producto) ::
      VinculoAuto(vs, ls[j].producto).None?
  }

  // ---- Sums ------------------------------------------------------------------------------------

  lemma {:induction false} SumaHastaCambia(f: nat -> int, g: nat -> int, n: nat, c: nat, d: int)
    requires forall i: nat | i < n && i != c :: g(i) == f(i)
    requires c < n ==> g(c) == f(c) - d
    ensures SumaHasta(g, n) == SumaHasta(f, n) - (if c < n then d else 0)
  {
    if n != 0 {
      SumaHastaCambia(f, g, n - 1, c, d);
    }
  }

  lemma {:induction false} SumaHastaCota(f: nat -> int, n: nat, c: nat)
    requires forall i: nat | i < n :: f(i) >= 0
    ensures SumaHasta(f, n) >= (if c < n then f(c) else 0)
    ensures SumaHasta(f, n) >= 0
  {
    if n != 0 {
      SumaHastaCota(f, n - 1, c);
    }
  }

  lemma FaltanNoNegativo(n: int, u: Positivo)
    ensures Faltan(n, u) >= 0
    ensures n > 0 ==> Faltan(n, u) == Techo(n, u) >= 1
  {
    TechoNoNegativo(n, u);
  }

  lemma NecesidadNoNegativa(ps: seq<Producto>, vs: seq<Vinculo>, ls: seq<Linea>, padre: nat)
    ensures forall c: nat | c < |ps| :: NecesidadPara(ps, vs, ls, padre)(c) >= 0
  {
    forall c: nat | c < |ps| ensures NecesidadPara(ps, vs, ls, padre)(c) >= 0 {
      if EsHijo(vs, c, padre) {
        FaltanNoNegativo(Pedidas(ls, c) - ps[c].stock, VinculoAuto(vs, c).value.unidades);
      }
    }
  }

  lemma DemandaCota(ps: seq<Producto>, vs: seq<Vinculo>, ls: seq<Linea>, p: nat, c: nat)
    requires CantidadesPositivas(ls) && c < |ps|
    ensures EsHijo(vs, c, p) ==> Demanda(ps, vs, ls, p) >= Necesidad(ps, vs, ls, c)
    ensures VinculoAuto(vs, p).None? ==> Demanda(ps, vs, ls, p) >= Pedidas(ls, p)
  {
    NecesidadNoNegativa(ps, vs, ls, p);
    SumaHastaCota(NecesidadPara(ps, vs, ls, p), |ps|, c);
    PedidasNoNegativas(ls, p);
  }

  lemma {:induction false} PedidasCero(ls: seq<Linea>, p: nat)
    requires forall i | 0 <= i < |ls| :: ls[i].producto != p
    ensures Pedidas(ls, p) == 0
  {
    if ls != [] {
      PedidasCero(ls[1..], p);
    }
  }

  /** Nothing is opened for children that are not sold. */
  lemma NadaParaAjenos(ps: seq<Producto>, vs: seq<Vinculo>, ls: seq<Linea>, p: nat)
    requires StockNoNegativo(ps)
    requires forall i | 0 <= i < |ls| :: !EsHijo(vs, ls[i].producto, p)
    ensures SumaHasta(NecesidadPara(ps, vs, ls, p), |ps|) == 0
  {
    var f := NecesidadPara(ps, vs, ls, p);
    forall c: nat | c < |ps| ensures f(c) == 0 {
      if EsHijo(vs, c, p) {
        PedidasCero(ls, c);
      }
    }
    SumaHastaNula(f, |ps|);
  }

  lemma {:induction false} SumaHastaNula(f: nat -> int, n: nat)
    requires forall i: nat | i < n :: f(i) == 0
    ensures SumaHasta(f, n) == 0
  {
    if n != 0 {
      SumaHastaNula(f, n - 1);
    }
  }

  // ---- A line that finds its units -------------------------------------------------------------

  /** k parents opened for m of n missing units leave k fewer to open. */
  lemma FaltanMenos(n: int, m: int, u: Positivo)
    requires 0 < m <= n
    ensures Faltan(n - Techo(m, u) * u, u) == Faltan(n, u) - Techo(m, u)
  {
    var k, t := Techo(m, u), Techo(n, u);
    TechoMinimo(m, u);
    TechoMinimo(n, u);
    assert (k - 1) * u == k * u - u && (t - 1) * u == t * u - u;
    FaltanMenosLineal(n, m, u, k, t);
  }

  lemma FaltanMenosLineal(n: int, m: int, u: Positivo, k: int, t: int)
    requires 0 < m <= n && k * u >= m > k * u - u && t * u >= n > t * u - u && Techo(n, u) == t
    ensures Faltan(n - k * u, u) == t - k
  {
    assert (t - 1) * u == t * u - u && (k - 1) * u == k * u - u;
    assert (t - k) * u == t * u - k * u;
    assert (t - k - 1) * u == t * u - k * u - u;
    if n - k * u <= 0 {
      if t > k {
        Crece(k, t - 1, u);
      } else if t < k {
        Crece(t, k - 1, u);
      }
    } else {
      TechoUnico(n - k * u, u, t - k);
    }
  }

  lemma SinVinculoAvanza(ps: seq<Producto>, vs: seq<Vinculo>, ls: seq<Linea>, x: nat)
    requires ls != [] && LineasEn(ls, |ps|) && x < |ps|
    requires VinculoAuto(vs, ls[0].producto).None?
    ensures var ps1 := SumarStock(ps, ls[0].producto, -ls[0].cantidad);
            ps1[x].stock - Demanda(ps1, vs, ls[1..], x) == ps[x].stock - Demanda(ps, vs, ls, x)
  {
    var ps1 := SumarStock(ps, ls[0].producto, -ls[0].cantidad);
    SumaHastaCambia(NecesidadPara(ps, vs, ls, x), NecesidadPara(ps1, vs, ls[1..], x), |ps|, ls[0].producto, 0);
  }

  /** With units at hand, a linked product's line asks nothing of anyone. */
  lemma ConVinculoAvanza(ps: seq<Producto>, vs: seq<Vinculo>, ls: seq<Linea>, x: nat)
    requires ls != [] && LineasEn(ls, |ps|) && x < |ps|
    requires VinculoAuto(vs, ls[0].producto).Some?
    ensures Demanda(SumarStock(ps, ls[0].producto, -ls[0].cantidad), vs, ls[1..], x) == Demanda(ps, vs, ls, x)
  {
    var ps1 := SumarStock(ps, ls[0].producto, -ls[0].cantidad);
    SumaHastaCambia(NecesidadPara(ps, vs, ls, x), NecesidadPara(ps1, vs, ls[1..], x), |ps|, ls[0].producto, 0);
  }

  /** k of v's parents were opened to sell q of its child. */
  predicate Desarmo(ps: seq<Producto>, ps1: seq<Producto>, v: Vinculo, k: int, q: int) {
    && |ps1| == |ps| && v.padre < |ps| && v.hijo < |ps| && v.padre != v.hijo
    && ps[v.hijo].stock < q && k == Techo(q - ps[v.hijo].stock, v.unidades)
    && ps1[v.hijo].stock == ps[v.hijo].stock + k * v.unidades - q
    && ps1[v.padre].stock == ps[v.padre].stock - k >= 0
    && (forall c | 0 <= c < |ps| && c != v.padre && c != v.hijo :: ps1[c] == ps[c])
  }

  /** The child then needs k parents fewer. */
  lemma HijoServido(ps: seq<Producto>, ps1: seq<Producto>, vs: seq<Vinculo>, ls: seq<Linea>, v: Vinculo, k: int)
    requires ls != [] && CantidadesPositivas(ls)
    requires VinculoAuto(vs, ls[0].producto) == Some(v) && Desarmo(ps, ps1, v, k, ls[0].cantidad)
    ensures Necesidad(ps1, vs, ls[1..], v.hijo) == Necesidad(ps, vs, ls, v.hijo) - k
  {
    var n, m := Pedidas(ls, v.hijo) - ps[v.hijo].stock, ls[0].cantidad - ps[v.hijo].stock;
    PedidasNoNegativas(ls[1..], v.hijo);
    FaltanMenos(n, m, v.unidades);
    assert Pedidas(ls[1..], v.hijo) - ps1[v.hijo].stock == n - k * v.unidades;
  }

  /** The parent, if it has a parent of its own, is not sold and needs nothing. */
  lemma PadreQuieto(ps: seq<Producto>, ps1: seq<Producto>, vs: seq<Vinculo>, ls: seq<Linea>, v: Vinculo, k: int)
    requires ls != [] && CantidadesPositivas(ls) && StockNoNegativo(ps) && SinCadenas(vs, ls)
    requires VinculoAuto(vs, ls[0].producto) == Some(v) && Desarmo(ps, ps1, v, k, ls[0].cantidad)
    ensures Necesidad(ps1, vs, ls[1..], v.padre) == Necesidad(ps, vs, ls, v.padre)
  {
    if VinculoAuto(vs, v.padre).Some? {
      forall j | 0 <= j < |ls| ensures ls[j].producto != v.padre {
        assert EsHijo(vs, ls[0].producto, v.padre);
      }
      PedidasCero(ls, v.padre);
      PedidasCero(ls[1..], v.padre);
    }
  }

  /** A disassembly lowers the parent's stock and what is asked of it by as much. */
  lemma DesarmeAvanza(ps: seq<Producto>, ps1: seq<Producto>, vs: seq<Vinculo>, ls: seq<Linea>, v: Vinculo, k: int, x: nat)
    requires ls != [] && CantidadesPositivas(ls) && StockNoNegativo(ps) && SinCadenas(vs, ls) && x < |ps|
    requires VinculoAuto(vs, ls[0].producto) == Some(v) && Desarmo(ps, ps1, v, k, ls[0].cantidad)
    ensures Demanda(ps1, vs, ls[1..], x) == Demanda(ps, vs, ls, x) - (if x == v.padre then k else 0)
  {
    var f, g := NecesidadPara(ps, vs, ls, x), NecesidadPara(ps1, vs, ls[1..], x);
    HijoServido(ps, ps1, vs, ls, v, k);
    PadreQuieto(ps, ps1, vs, ls, v, k);
    forall c: nat | c < |ps| && c != v.hijo ensures g(c) == f(c) {
      if c != v.padre {
        assert Pedidas(ls[1..], c) == Pedidas(ls, c);
      }
    }
    SumaHastaCambia(f, g, |ps|, v.hijo, if x == v.padre then k else 0);
  }

  /** No line of the sale sells a child of p. */
  predicate SinHijos(vs: seq<Vinculo>, ls: seq<Linea>, p: nat) {
    forall i | 0 <= i < |ls| :: !EsHijo(vs, ls[i].producto, p)
  }

  /** A linked product that is sold is asked for nothing: what it lacks is asked of its parent. */
  lemma VendidoNoPide(ps: seq<Producto>, vs: seq<Vinculo>, ls: seq<Linea>, p: nat)
    requires StockNoNegativo(ps) && SinHijos(vs, ls, p) && VinculoAuto(vs, p).Some?
    ensures Demanda(ps, vs, ls, p) == 0
  {
    NadaParaAjenos(ps, vs, ls, p);
  }

  lemma VendidoSinHijos(vs: seq<Vinculo>, ls: seq<Linea>)
    requires ls != [] && SinCadenas(vs, ls) && VinculoAuto(vs, ls[0].producto).Some?
    ensures SinHijos(vs, ls, ls[0].producto) && SinHijos(vs, ls[1..], ls[0].producto)
  {
    var p := ls[0].producto;
    forall i | 0 <= i < |ls| ensures !EsHijo(vs, ls[i].producto, p) {
      assert EsHijo(vs, ls[i].producto, ls[0].producto) ==> VinculoAuto(vs, p).None?;
    }
  }

  /** The products after the first line. */
  function TrasLinea(e: Existencias, vs: seq<Vinculo>, ls: seq<Linea>): seq<Producto>
    requires ls != []
  {
    match DescontarStock(e, vs, ls[0].producto, ls[0].cantidad)
    case None => e.productos
    case Some(e1) => e1.productos
  }

  predicate VentaSana(ps: seq<Producto>, vs: seq<Vinculo>, ls: seq<Linea>) {
    && LineasEn(ls, |ps|) && VinculosValidos(vs, |ps|) && CantidadesPositivas(ls)
    && StockNoNegativo(ps) && SinCadenas(vs, ls)
  }

  /** A line that opens parents does so as Desarmo says. */
  lemma AbreComoDesarmo(e: Existencias, vs: seq<Vinculo>, ls: seq<Linea>, v: Vinculo)
    requires ls != [] && VentaSana(e.productos, vs, ls)
    requires VinculoAuto(vs, ls[0].producto) == Some(v) && e.productos[ls[0].producto].stock < ls[0].cantidad
    ensures var ps, p, q := e.productos, ls[0].producto, ls[0].cantidad;
            var k, ps1 := Techo(q - ps[p].stock, v.unidades), TrasLinea(e, vs, ls);
            if ps[v.padre].stock >= k then Desarmo(ps, ps1, v, k, q) && k >= 1 && ps1[p].stock >= 0
            else ps1 == SumarStock(ps, p, -q)
  {
    TechoMinimo(ls[0].cantidad - e.productos[ls[0].producto].stock, v.unidades);
    TechoNoNegativo(ls[0].cantidad - e.productos[ls[0].producto].stock, v.unidades);
  }

  /** If the line found its units, every product covers what is asked of it as it did before. */
  lemma MismoAlcance(e: Existencias, vs: seq<Vinculo>, ls: seq<Linea>, x: nat)
    requires ls != [] && VentaSana(e.productos, vs, ls) && x < |e.productos|
    requires ls[0].producto < |TrasLinea(e, vs, ls)| && TrasLinea(e, vs, ls)[ls[0].producto].stock >= 0
    ensures var ps1 := TrasLinea(e, vs, ls);
            |ps1| == |e.productos| && ps1[x].stock >= 0 &&
            (Demanda(ps1, vs, ls[1..], x) <= ps1[x].stock <==> Demanda(e.productos, vs, ls, x) <= e.productos[x].stock)
  {
    var ps, p, ps1 := e.productos, ls[0].producto, TrasLinea(e, vs, ls);
    match VinculoAuto(vs, p)
    case None => SinVinculoAvanza(ps, vs, ls, x);
    case Some(v) =>
      if ps[p].stock >= ls[0].cantidad {
        ConVinculoAvanza(ps, vs, ls, x);
      } else {
        AbreComoDesarmo(e, vs, ls, v);
        DesarmeAvanza(ps, ps1, vs, ls, v, Techo(ls[0].cantidad - ps[p].stock, v.unidades), x);
      }
      if x == p {
        VendidoSinHijos(vs, ls);
        VendidoNoPide(ps, vs, ls, p);
      }
  }

  lemma LineaCubierta(e: Existencias, vs: seq<Vinculo>, ls: seq<Linea>)
    requires ls != [] && VentaSana(e.productos, vs, ls)
    requires ls[0].producto < |TrasLinea(e, vs, ls)| && TrasLinea(e, vs, ls)[ls[0].producto].stock >= 0
    ensures var ps1 := TrasLinea(e, vs, ls);
            VentaSana(ps1, vs, ls[1..]) && (CubreDemandas(ps1, vs, ls[1..]) <==> CubreDemandas(e.productos, vs, ls))
  {
    forall x: nat | x < |e.productos|
      ensures |TrasLinea(e, vs, ls)| == |e.productos| && TrasLinea(e, vs, ls)[x].stock >= 0
      ensures Demanda(TrasLinea(e, vs, ls), vs, ls[1..], x) <= TrasLinea(e, vs, ls)[x].stock <==>
              Demanda(e.productos, vs, ls, x) <= e.productos[x].stock
    {
      MismoAlcance(e, vs, ls, x);
    }
  }

  // ---- A line that runs short ------------------------------------------------------------------

  /** Units of p there are, counting those inside its parents. */
  function Unidades(ps: seq<Producto>, vs: seq<Vinculo>, p: nat): int {
    match VinculoAuto(vs, p)
    case None => StockDe(ps, p)
    case Some(v) => StockDe(ps, p) + v.unidades * StockDe(ps, v.padre)
  }

  /** The parent of p is not replenished by the lines. */
  predicate PadreFijo(vs: seq<Vinculo>, ls: seq<Linea>, p: nat) {
    VinculoAuto(vs, p).Some? ==>
      forall j | 0 <= j < |ls| && ls[j].producto == VinculoAuto(vs, p).value.padre :: VinculoAuto(vs, ls[j].producto).None?
  }

  lemma PorUnidades(u: Positivo, x: int, d: nat)
    ensures u * (x - d) == u * x - u * d && u * d >= 0
  {
  }

  lemma VentaQuitaUnidades(ps: seq<Producto>, vs: seq<Vinculo>, p: nat, x: nat, q: int)
    requires x < |ps| && q >= 0
    ensures Unidades(SumarStock(ps, x, -q), vs, p) <= Unidades(ps, vs, p)
  {
    if VinculoAuto(vs, p).Some? {
      var v := VinculoAuto(vs, p).value;
      PorUnidades(v.unidades, StockDe(ps, v.padre), q);
    }
  }

  /** Opening k of w's parents keeps the units of its child, and of the others at most. */
  lemma AbrirNoAgrega(ps: seq<Producto>, vs: seq<Vinculo>, p: nat, w: Vinculo, k: int)
    requires k >= 0 && w.padre < |ps| && w.hijo < |ps| && w.padre != w.hijo && VinculoAuto(vs, w.hijo) == Some(w)
    requires VinculoAuto(vs, p).Some? ==> VinculoAuto(vs, p).value.padre != w.hijo
    requires p != w.hijo || VinculoAuto(vs, p).Some?
    ensures Unidades(SumarStock(SumarStock(ps, w.padre, -k), w.hijo, k * w.unidades), vs, p) <= Unidades(ps, vs, p)
  {
    if VinculoAuto(vs, p).Some? {
      var v := VinculoAuto(vs, p).value;
      PorUnidades(v.unidades, StockDe(ps, v.padre), k);
    }
  }

  /** Opening a parent keeps the units of its child; no line raises the units of p. */
  lemma UnidadesBajan(e: Existencias, vs: seq<Vinculo>, ls: seq<Linea>, p: nat)
    requires ls != [] && LineasEn(ls, |e.productos|) && VinculosValidos(vs, |e.productos|)
    requires CantidadesPositivas(ls) && p < |e.productos| && PadreFijo(vs, ls, p)
    ensures Unidades(TrasLinea(e, vs, ls), vs, p) <= Unidades(e.productos, vs, p)
  {
    var ps, x, q := e.productos, ls[0].producto, ls[0].cantidad;
    VentaQuitaUnidades(ps, vs, p, x, q);
    if ps[x].stock < q && VinculoAuto(vs, x).Some? {
      var v := VinculoAuto(vs, x).value;
      var k := Techo(q - ps[x].stock, v.unidades);
      TechoNoNegativo(q - ps[x].stock, v.unidades);
      AbrirNoAgrega(ps, vs, p, v, k);
      VentaQuitaUnidades(SumarStock(SumarStock(ps, v.padre, -k), x, k * v.unidades), vs, p, x, q);
    }
  }

  lemma {:induction false} AgotadoSigue(e: Existencias, vs: seq<Vinculo>, ls: seq<Linea>, venta: nat, p: nat)
    requires LineasEn(ls, |e.productos|) && VinculosValidos(vs, |e.productos|)
    requires CantidadesPositivas(ls) && p < |e.productos| && PadreFijo(vs, ls, p)
    requires Unidades(e.productos, vs, p) < 0
    ensures var r := DescontarLineas(e, vs, ls, venta);
            r.Some? && !StockNoNegativo(r.value.productos)
    decreases |ls|
  {
    if ls == [] {
      if StockNoNegativo(e.productos) {
        UnidadesNoNegativas(e.productos, vs, p);
      }
    } else {
      DescontarMarco(e, vs, ls[0].producto, ls[0].cantidad);
      UnidadesBajan(e, vs, ls, p);
      AgotadoSigue(DescontarLinea(e, vs, ls[0], venta).value, vs, ls[1..], venta, p);
    }
  }

  lemma UnidadesNoNegativas(ps: seq<Producto>, vs: seq<Vinculo>, p: nat)
    requires p < |ps| && VinculosValidos(vs, |ps|) && StockNoNegativo(ps)
    ensures Unidades(ps, vs, p) >= 0
  {
    if VinculoAuto(vs, p).Some? {
      var v := VinculoAuto(vs, p).value;
      Crece(0, ps[v.padre].stock, v.unidades);
    }
  }

  /** Fewer parents than needed do not hold the missing units. */
  lemma PadresNoBastan(n: int, u: Positivo, k: int)
    requires k < Techo(n, u)
    ensures u * k < n
  {
    TechoMinimo(n, u);
    Crece(k, Techo(n, u) - 1, u);
  }

  /** A line that runs short was not covered, and its product is exhausted for good. */
  lemma LineaCorta(e: Existencias, vs: seq<Vinculo>, ls: seq<Linea>)
    requires ls != [] && VentaSana(e.productos, vs, ls)
    requires ls[0].producto < |TrasLinea(e, vs, ls)| && TrasLinea(e, vs, ls)[ls[0].producto].stock < 0
    ensures !CubreDemandas(e.productos, vs, ls)
    ensures Unidades(TrasLinea(e, vs, ls), vs, ls[0].producto) < 0 && PadreFijo(vs, ls[1..], ls[0].producto)
  {
    var ps, p, q := e.productos, ls[0].producto, ls[0].cantidad;
    PedidasNoNegativas(ls[1..], p);
    match VinculoAuto(vs, p)
    case None =>
      DemandaCota(ps, vs, ls, p, p);
      assert Demanda(ps, vs, ls, p) > ps[p].stock;
    case Some(v) =>
      AbreComoDesarmo(e, vs, ls, v);
      PadresNoBastan(q - ps[p].stock, v.unidades, ps[v.padre].stock);
      DemandaCota(ps, vs, ls, v.padre, p);
      TechoMonotono(q - ps[p].stock, Pedidas(ls, p) - ps[p].stock, v.unidades);
      assert Demanda(ps, vs, ls, v.padre) > ps[v.padre].stock;
      assert PadreFijo(vs, ls[1..], p) by {
        forall j | 0 <= j < |ls[1..]| && ls[1..][j].producto == v.padre ensures VinculoAuto(vs, v.padre).None? {
          assert ls[1..][j] == ls[j + 1];
          assert EsHijo(vs, ls[0].producto, ls[j + 1].producto);
        }
      }
  }

  lemma TechoMonotono(m: int, n: int, u: Positivo)
    requires m <= n
    ensures Techo(m, u) <= Techo(n, u)
  {
    TechoMinimo(m, u);
    TechoMinimo(n, u);
    if Techo(n, u) < Techo(m, u) {
      Crece(Techo(n, u), Techo(m, u) - 1, u);
    }
  }

  // ---- The condition ---------------------------------------------------------------------------

  /**
   * Exactly when the lines of a sale leave no stock negative, disassembly included: when the
   * stock of every product covers what is asked of it, to be sold or to be opened.
   */
  lemma {:induction false} SinNegativosSiSoloSi(e: Existencias, vs: seq<Vinculo>, ls: seq<Linea>, venta: nat)
    requires VentaSana(e.productos, vs, ls)
    ensures var r := DescontarLineas(e, vs, ls, venta);
            r.Some? && (StockNoNegativo(r.value.productos) <==> CubreDemandas(e.productos, vs, ls))
    decreases |ls|
  {
    if ls == [] {
      SinLineasAlcanza(e.productos, vs);
    } else {
      DescontarMarco(e, vs, ls[0].producto, ls[0].cantidad);
      var e1 := DescontarLinea(e, vs, ls[0], venta).value;
      assert e1.productos == TrasLinea(e, vs, ls);
      if e1.productos[ls[0].producto].stock >= 0 {
        LineaCubierta(e, vs, ls);
        SinNegativosSiSoloSi(e1, vs, ls[1..], venta);
      } else {
        LineaCorta(e, vs, ls);
        AgotadoSigue(e1, vs, ls[1..], venta, ls[0].producto);
      }
    }
  }

  lemma SinLineasAlcanza(ps: seq<Producto>, vs: seq<Vinculo>)
    requires StockNoNegativo(ps)
    ensures CubreDemandas(ps, vs, [])
  {
    forall p: nat | p < |ps| ensures Demanda(ps, vs, [], p) <= ps[p].stock {
      NadaParaAjenos(ps, vs, [], p);
    }
  }

  /** When nothing sold has a link, what is asked is what the lines say. */
  lemma SinVinculosSiSoloSi(e: Existencias, vs: seq<Vinculo>, ls: seq<Linea>, venta: nat)
    requires LineasEn(ls, |e.productos|) && VinculosValidos(vs, |e.productos|)
    requires CantidadesPositivas(ls) && StockNoNegativo(e.productos)
    requires forall i | 0 <= i < |ls| :: VinculoAuto(vs, ls[i].producto).None?
    ensures var r := DescontarLineas(e, vs, ls, venta);
            r.Some? &&
            (StockNoNegativo(r.value.productos) <==>
             forall p | 0 <= p < |e.productos| :: Pedidas(ls, p) <= e.productos[p].stock)
  {
    var ps := e.productos;
    SinNegativosSiSoloSi(e, vs, ls, venta);
    forall p: nat | p < |ps| ensures Demanda(ps, vs, ls, p) == Pedidas(ls, p) {
      NadaParaAjenos(ps, vs, ls, p);
      if VinculoAuto(vs, p).Some? {
        PedidasCero(ls, p);
      }
    }
  }

  /** An accepted online sale leaves no stock negative exactly when its demands are covered. */
  lemma VentaEnLineaSiSoloSi(s: Estado, r: Pedido)
    requires Integro(s) && StockNoNegativo(s.ex.productos)
    requires RegistrarVenta(s, r, false).1.Aceptada?
    requires (forall i | 0 <= i < |r.items| :: r.items[i].cantidad >= 1) && Ubicados(s.ex.productos, r.items)
    requires SinCadenas(s.vinculos, Lineas(s.ex.productos, r.items))
    ensures StockNoNegativo(RegistrarVenta(s, r, false).0.ex.productos) <==>
            CubreDemandas(s.ex.productos, s.vinculos, Lineas(s.ex.productos, r.items))
  {
    FormaDeVenta(s, r, false);
    PlanUbicado(s, r, false);
    var ls := Lineas(s.ex.productos, r.items);
    assert Planificar(s, r, false).value.lineas == ls;
    SinNegativosSiSoloSi(s.ex, s.vinculos, ls, |s.ventas|);
  }

  // ---- Any sale, line by line --------------------------------------------------------------

  predicate Vende(ls: seq<Linea>, p: nat) {
    exists i | 0 <= i < |ls| :: ls[i].producto == p
  }

  /** Each product's last line would pass the pre-flight when its turn comes. */
  predicate UltimasPasan(e: Existencias, vs: seq<Vinculo>, ls: seq<Linea>, venta: nat)
    requires LineasEn(ls, |e.productos|) && VinculosValidos(vs, |e.productos|)
    decreases |ls|
  {
    ls == [] ||
    (DescontarMarco(e, vs, ls[0].producto, ls[0].cantidad);
     (Vende(ls[1..], ls[0].producto) || PreflightAcepta(e.productos, vs, ls[0].producto, ls[0].cantidad)) &&
     UltimasPasan(DescontarLinea(e, vs, ls[0], venta).value, vs, ls[1..], venta))
  }

  /** Products that no line sells have stock. */
  predicate RestoConStock(ps: seq<Producto>, ls: seq<Linea>) {
    forall x: nat | x < |ps| && !Vende(ls, x) :: ps[x].stock >= 0
  }

  /** A line opens only stock that is there, and takes from no product but its own. */
  lemma LineaAjena(e: Existencias, vs: seq<Vinculo>, l: Linea, x: nat)
    requires l.producto < |e.productos| && VinculosValidos(vs, |e.productos|)
    requires x < |e.productos| && x != l.producto
    ensures var r := DescontarStock(e, vs, l.producto, l.cantidad);
            r.Some? && |r.value.productos| == |e.productos| &&
            r.value.productos[x].stock <= e.productos[x].stock &&
            (e.productos[x].stock >= 0 <==> r.value.productos[x].stock >= 0)
  {
    PreflightConcuerda(e, vs, l.producto, l.cantidad);
    DescontarMarco(e, vs, l.producto, l.cantidad);
    var p, q := l.producto, l.cantidad;
    if e.productos[p].stock < q && VinculoAuto(vs, p).Some? {
      TechoNoNegativo(q - e.productos[p].stock, VinculoAuto(vs, p).value.unidades);
    }
  }

  /** A product below zero that no line sells stays below zero. */
  lemma {:induction false} AjenoNoSube(e: Existencias, vs: seq<Vinculo>, ls: seq<Linea>, venta: nat, x: nat)
    requires LineasEn(ls, |e.productos|) && VinculosValidos(vs, |e.productos|)
    requires x < |e.productos| && !Vende(ls, x) && e.productos[x].stock < 0
    ensures var r := DescontarLineas(e, vs, ls, venta);
            r.Some? && !StockNoNegativo(r.value.productos)
    decreases |ls|
  {
    if ls != [] {
      assert ls[0].producto != x;
      LineaAjena(e, vs, ls[0], x);
      DescontarMarco(e, vs, ls[0].producto, ls[0].cantidad);
      VendeResto(ls, x);
      AjenoNoSube(DescontarLinea(e, vs, ls[0], venta).value, vs, ls[1..], venta, x);
    }
  }

  lemma VendeResto(ls: seq<Linea>, x: nat)
    requires ls != []
    ensures Vende(ls, x) <==> ls[0].producto == x || Vende(ls[1..], x)
  {
    if Vende(ls, x) && ls[0].producto != x {
      var i :| 0 <= i < |ls| && ls[i].producto == x;
      assert ls[1..][i - 1].producto == x;
    }
    if Vende(ls[1..], x) {
      var i :| 0 <= i < |ls[1..]| && ls[1..][i].producto == x;
      assert ls[i + 1].producto == x;
    }
  }

  lemma RestoTrasLinea(e: Existencias, vs: seq<Vinculo>, ls: seq<Linea>)
    requires ls != [] && LineasEn(ls, |e.productos|) && VinculosValidos(vs, |e.productos|)
    requires RestoConStock(e.productos, ls)
    requires Vende(ls[1..], ls[0].producto) || PreflightAcepta(e.productos, vs, ls[0].producto, ls[0].cantidad)
    ensures |TrasLinea(e, vs, ls)| == |e.productos| && RestoConStock(TrasLinea(e, vs, ls), ls[1..])
  {
    PreflightConcuerda(e, vs, ls[0].producto, ls[0].cantidad);
    DescontarMarco(e, vs, ls[0].producto, ls[0].cantidad);
    forall x: nat | x < |e.productos| && !Vende(ls[1..], x) ensures TrasLinea(e, vs, ls)[x].stock >= 0 {
      if x != ls[0].producto {
        VendeResto(ls, x);
        LineaAjena(e, vs, ls[0], x);
      }
    }
  }

  /**
   * Exactly when the lines of any sale leave no stock negative, chains of links and all: when
   * the last line of each product would pass the pre-flight as its turn comes.
   */
  lemma {:induction false} SinNegativosLineaPorLinea(e: Existencias, vs: seq<Vinculo>, ls: seq<Linea>, venta: nat)
    requires LineasEn(ls, |e.productos|) && VinculosValidos(vs, |e.productos|)
    requires RestoConStock(e.productos, ls)
    ensures var r := DescontarLineas(e, vs, ls, venta);
            r.Some? && (StockNoNegativo(r.value.productos) <==> UltimasPasan(e, vs, ls, venta))
    decreases |ls|
  {
    if ls == [] {
      assert forall x: nat | x < |e.productos| :: !Vende(ls, x);
    } else {
      var p := ls[0].producto;
      DescontarMarco(e, vs, p, ls[0].cantidad);
      PreflightConcuerda(e, vs, p, ls[0].cantidad);
      var e1 := DescontarLinea(e, vs, ls[0], venta).value;
      if Vende(ls[1..], p) || PreflightAcepta(e.productos, vs, p, ls[0].cantidad) {
        RestoTrasLinea(e, vs, ls);
        SinNegativosLineaPorLinea(e1, vs, ls[1..], venta);
      } else {
        AjenoNoSube(e1, vs, ls[1..], venta, p);
      }
    }
  }

  /** An accepted online sale, whatever its links, repeated products and order. */
  lemma VentaEnLineaLineaPorLinea(s: Estado, r: Pedido)
    requires Integro(s) && StockNoNegativo(s.ex.productos)
    requires RegistrarVenta(s, r, false).1.Aceptada? && Ubicados(s.ex.productos, r.items)
    ensures StockNoNegativo(RegistrarVenta(s, r, false).0.ex.productos) <==>
            UltimasPasan(s.ex, s.vinculos, Lineas(s.ex.productos, r.items), |s.ventas|)
  {
    FormaDeVenta(s, r, false);
    PlanUbicado(s, r, false);
    var ls := Lineas(s.ex.productos, r.items);
    assert Planificar(s, r, false).value.lineas == ls;
    SinNegativosLineaPorLinea(s.ex, s.vinculos, ls, |s.ventas|);
  }

  // ---- Witnesses -------------------------------------------------------------------------------

  /** A repeated product may also be saved: 4 and 4 from 5, with a six-unit parent, leave 3. */
  lemma RepetidoAbre()
    ensures var ps := [Producto(50, 1, true), Producto(10, 5, true)];
            var ls := [Linea(1, 4, 10, 0, 40), Linea(1, 4, 10, 0, 40)];
            var r := DescontarLineas(Existencias(ps, [], []), [Vinculo(0, 1, 6, true)], ls, 0);
            StockSuficiente(ps, ls) && r.Some? &&
            r.value.productos == [Producto(50, 0, true), Producto(10, 3, true)]
  {
    var vs := [Vinculo(0, 1, 6, true)];
    var l := Linea(1, 4, 10, 0, 40);
    var e := Existencias([Producto(50, 1, true), Producto(10, 5, true)], [], []);
    DosLineas(e, vs, l, l);
    var e1 := DescontarLinea(e, vs, l, 0).value;
    assert e1.productos == [Producto(50, 1, true), Producto(10, 1, true)];
    assert DescontarLinea(e1, vs, l, 0).value.productos == [Producto(50, 0, true), Producto(10, 3, true)];
  }

  lemma DosLineas(e: Existencias, vs: seq<Vinculo>, a: Linea, b: Linea)
    ensures DescontarLineas(e, vs, [a, b], 0) ==
            (match DescontarLinea(e, vs, a, 0) case None => None case Some(e1) => DescontarLinea(e1, vs, b, 0))
  {
    assert [a, b][1..] == [b] && [b][1..] == [];
    match DescontarLinea(e, vs, a, 0)
    case None =>
    case Some(e1) =>
      assert DescontarLineas(e1, vs, [b], 0) == DescontarLinea(e1, vs, b, 0) by {
        match DescontarLinea(e1, vs, b, 0)
        case None =>
        case Some(e2) => assert DescontarLineas(e2, vs, [], 0) == Some(e2);
      }
  }

  /** A box opens six packs and a pack six units; there is one box. */
  function Cadena(): Existencias {
    Existencias([Producto(90, 1, true), Producto(50, 0, true), Producto(10, 0, true)], [], [])
  }

  const VINCULOS := [Vinculo(0, 1, 6, true), Vinculo(1, 2, 6, true)]
  const PAQUETE := Linea(1, 1, 50, 0, 50)
  const UNIDAD := Linea(2, 1, 10, 0, 10)

  lemma VinculosDeCadena()
    ensures VinculoAuto(VINCULOS, 0).None?
    ensures VinculoAuto(VINCULOS, 1) == Some(Vinculo(0, 1, 6, true))
    ensures VinculoAuto(VINCULOS, 2) == Some(Vinculo(1, 2, 6, true))
  {
    assert VINCULOS[1..] == [Vinculo(1, 2, 6, true)];
  }

  lemma PaqueteAntes()
    ensures var r := DescontarLineas(Cadena(), VINCULOS, [PAQUETE, UNIDAD], 0);
            r.Some? && r.value.productos == [Producto(90, 0, true), Producto(50, 4, true), Producto(10, 5, true)]
  {
    VinculosDeCadena();
    DosLineas(Cadena(), VINCULOS, PAQUETE, UNIDAD);
    var e1 := DescontarLinea(Cadena(), VINCULOS, PAQUETE, 0).value;
    assert e1.productos == [Producto(90, 0, true), Producto(50, 5, true), Producto(10, 0, true)];
  }

  lemma UnidadAntes()
    ensures var r := DescontarLineas(Cadena(), VINCULOS, [UNIDAD, PAQUETE], 0);
            r.Some? && r.value.productos == [Producto(90, 0, true), Producto(50, 5, true), Producto(10, -1, true)]
  {
    VinculosDeCadena();
    DosLineas(Cadena(), VINCULOS, UNIDAD, PAQUETE);
    var e1 := DescontarLinea(Cadena(), VINCULOS, UNIDAD, 0).value;
    assert e1.productos == [Producto(90, 1, true), Producto(50, 0, true), Producto(10, -1, true)];
  }

  /**
   * With a chain the demands alone do not decide: selling the pack and then the unit opens
   * box and pack, selling the unit first leaves -1.
   */
  lemma CadenaDependeDelOrden()
    ensures var r := DescontarLineas(Cadena(), VINCULOS, [PAQUETE, UNIDAD], 0);
            var t := DescontarLineas(Cadena(), VINCULOS, [UNIDAD, PAQUETE], 0);
            !SinCadenas(VINCULOS, [PAQUETE, UNIDAD]) &&
            r.Some? && StockNoNegativo(r.value.productos) && t.Some? && !StockNoNegativo(t.value.productos)
  {
    VinculosDeCadena();
    PaqueteAntes();
    UnidadAntes();
    var ls := [PAQUETE, UNIDAD];
    assert EsHijo(VINCULOS, ls[1].producto, ls[0].producto);
    assert DescontarLineas(Cadena(), VINCULOS, [UNIDAD, PAQUETE], 0).value.productos[2].stock == -1;
  }
}
