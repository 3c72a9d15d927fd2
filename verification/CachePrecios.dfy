/**
 * The price cache: a read-through lookup, the product writes that invalidate it, and those of
 * the supplier service that do not.
 */
module CachePrecios {
  import opened Datos

  datatype Ficha = Ficha(barcode: string, nombre: string, precio: int, categoria: string, stock: int, activo: bool)

  /** What a lookup answers and what the cache holds. */
  datatype Precio = Precio(nombre: string, precio: int, categoria: string, stock: int)

  datatype Sistema = Sistema(fichas: seq<Ficha>, cache: map<string, Precio>)

  function PrecioDe(f: Ficha): Precio {
    Precio(f.nombre, f.precio, f.categoria, f.stock)
  }

  /** FindByBarcode: the active product with this code. */
  function PorBarcode(fs: seq<Ficha>, barcode: string): (r: Option<nat>)
    ensures r.Some? ==> r.value < |fs| && fs[r.value].barcode == barcode && fs[r.value].activo
    ensures r.None? ==> forall i | 0 <= i < |fs| :: !(fs[i].barcode == barcode && fs[i].activo)
  {
    if fs == [] then None
    else
      var n := |fs| - 1;
      match PorBarcode(fs[..n], barcode)
      case Some(i) => Some(i)
      case None => if fs[n].barcode == barcode && fs[n].activo then Some(n) else None
  }

  /** Optional fields of ActualizarProductoRequest. */
  datatype Cambios = Cambios(nombre: Option<string>, precio: Option<int>, categoria: Option<string>)

  function Elegir<T>(o: Option<T>, actual: T): T {
    if o.Some? then o.value else actual
  }

  function Aplicar(f: Ficha, c: Cambios): Ficha {
    f.(nombre := Elegir(c.nombre, f.nombre), precio := Elegir(c.precio, f.precio), categoria := Elegir(c.categoria, f.categoria))
  }

  datatype Evento =
    | Crear(ficha: Ficha)
    | Actualizar(id: nat, cambios: Cambios)
    | Desactivar(id: nat)
    | Reactivar(id: nat)
    | Escribir(id: nat, cambios: Cambios)
    | MoverStock(id: nat, delta: int)
    | Consultar(barcode: string)
    | Desalojar(barcode: string)

  /** The lookup: the cache first, then the database, filling the cache on a hit there. */
  function Buscar(m: Sistema, barcode: string): (Sistema, Option<Precio>) {
    if barcode in m.cache then (m, Some(m.cache[barcode]))
    else
      match PorBarcode(m.fichas, barcode)
      case None => (m, None)
      case Some(i) =>
        var p := PrecioDe(m.fichas[i]);
        (m.(cache := m.cache[barcode := p]), Some(p))
  }

  function Suceder(m: Sistema, ev: Evento): Sistema {
    match ev
    case Crear(f) =>
      // codigo_barras is unique among all products, active or not
      if exists i | 0 <= i < |m.fichas| :: m.fichas[i].barcode == f.barcode then m
      else m.(fichas := m.fichas + [f.(activo := true)])
    case Actualizar(id, c) =>
      if id >= |m.fichas| then m
      else
        var f := Aplicar(m.fichas[id], c);
        Sistema(m.fichas[id := f], m.cache - {f.barcode})
    case Escribir(id, c) =>
      // the supplier's mass update and CSV import: the entry stays
      if id >= |m.fichas| then m else m.(fichas := m.fichas[id := Aplicar(m.fichas[id], c)])
    case Desactivar(id) =>
      if id >= |m.fichas| then m
      else Sistema(m.fichas[id := m.fichas[id].(activo := false)], m.cache - {m.fichas[id].barcode})
    case Reactivar(id) =>
      if id >= |m.fichas| then m else m.(fichas := m.fichas[id := m.fichas[id].(activo := true)])
    case MoverStock(id, d) =>
      if id >= |m.fichas| then m
      else m.(fichas := m.fichas[id := m.fichas[id].(stock := m.fichas[id].stock + d)])
    case Consultar(b) => Buscar(m, b).0
    case Desalojar(b) => m.(cache := m.cache - {b})
  }

  function Correr(m: Sistema, evs: seq<Evento>): Sistema
    decreases |evs|
  {
    if evs == [] then m else Correr(Suceder(m, evs[0]), evs[1..])
  }

  // ---- Coherence -------------------------------------------------------------------------------

  predicate BarcodesUnicos(fs: seq<Ficha>) {
    forall i, j | 0 <= i < j < |fs| :: fs[i].barcode != fs[j].barcode
  }

  /** The cached fields that a lookup promises; stock is not one of them. */
  predicate MismoPrecio(p: Precio, q: Precio) {
    p.nombre == q.nombre && p.precio == q.precio && p.categoria == q.categoria
  }

  /** A cached entry tells name, price and category of the active product with its code. */
  predicate Coherente(m: Sistema) {
    && BarcodesUnicos(m.fichas)
    && forall b | b in m.cache :: RespaldadaPor(m.fichas, b, m.cache[b])
  }

  predicate RespaldadaPor(fs: seq<Ficha>, b: string, p: Precio) {
    exists i | 0 <= i < |fs| :: fs[i].activo && fs[i].barcode == b && MismoPrecio(p, PrecioDe(fs[i]))
  }

  lemma CambioRespaldado(fs: seq<Ficha>, id: nat, f: Ficha, b: string, p: Precio)
    requires id < |fs| && f.barcode == fs[id].barcode && RespaldadaPor(fs, b, p)
    requires b == f.barcode ==> f == fs[id].(stock := f.stock, activo := true)
    ensures RespaldadaPor(fs[id := f], b, p)
  {
    var i :| 0 <= i < |fs| && fs[i].activo && fs[i].barcode == b && MismoPrecio(p, PrecioDe(fs[i]));
    var fs' := fs[id := f];
    assert fs'[i].activo && fs'[i].barcode == b && MismoPrecio(p, PrecioDe(fs'[i]));
  }

  lemma SucederCoherente(m: Sistema, ev: Evento)
    requires Coherente(m) && !ev.Escribir?
    ensures Coherente(Suceder(m, ev))
  {
    var m' := Suceder(m, ev);
    forall b | b in m'.cache ensures RespaldadaPor(m'.fichas, b, m'.cache[b]) {
      match ev
      case Crear(f) =>
        var i :| 0 <= i < |m.fichas| && m.fichas[i].activo && m.fichas[i].barcode == b &&
                 MismoPrecio(m.cache[b], PrecioDe(m.fichas[i]));
        assert m'.fichas[i] == m.fichas[i];
      case Actualizar(id, c) => if id < |m.fichas| { CambioRespaldado(m.fichas, id, m'.fichas[id], b, m.cache[b]); }
      case Desactivar(id) => if id < |m.fichas| { CambioRespaldado(m.fichas, id, m'.fichas[id], b, m.cache[b]); }
      case Reactivar(id) => if id < |m.fichas| { CambioRespaldado(m.fichas, id, m'.fichas[id], b, m.cache[b]); }
      case MoverStock(id, _) => if id < |m.fichas| { StockRespaldado(m.fichas, id, m'.fichas[id], b, m.cache[b]); }
      case Consultar(x) =>
        if b !in m.cache {
          var i := PorBarcode(m.fichas, x).value;
          assert m.fichas[i].activo && m.fichas[i].barcode == b && MismoPrecio(m'.cache[b], PrecioDe(m.fichas[i]));
        }
      case Desalojar(_) =>
    }
  }

  lemma StockRespaldado(fs: seq<Ficha>, id: nat, f: Ficha, b: string, p: Precio)
    requires id < |fs| && f == fs[id].(stock := f.stock) && RespaldadaPor(fs, b, p)
    ensures RespaldadaPor(fs[id := f], b, p)
  {
    var i :| 0 <= i < |fs| && fs[i].activo && fs[i].barcode == b && MismoPrecio(p, PrecioDe(fs[i]));
    var fs' := fs[id := f];
    assert fs'[i].activo && fs'[i].barcode == b && MismoPrecio(p, PrecioDe(fs'[i]));
  }

  /** Barcodes are unique, and every cached code is that of an active product. */
  predicate Respaldada(m: Sistema) {
    && BarcodesUnicos(m.fichas)
    && forall b | b in m.cache :: PorBarcode(m.fichas, b).Some?
  }

  predicate SinEscribir(evs: seq<Evento>) {
    forall i | 0 <= i < |evs| :: !evs[i].Escribir?
  }

  /** Without silent writes every cached entry keeps telling its product's fields. */
  lemma {:induction false} CorrerCoherente(m: Sistema, evs: seq<Evento>)
    requires Coherente(m) && SinEscribir(evs)
    ensures Coherente(Correr(m, evs))
    decreases |evs|
  {
    if evs != [] {
      SucederCoherente(m, evs[0]);
      CorrerCoherente(Suceder(m, evs[0]), evs[1..]);
    }
  }

  // ---- Silent writes -----------------------------------------------------------------------------

  const NADA := Cambios(None, None, None)

  /** The fields written by c and then by d. */
  function Componer(c: Cambios, d: Cambios): Cambios {
    Cambios(if d.nombre.Some? then d.nombre else c.nombre, if d.precio.Some? then d.precio else c.precio,
            if d.categoria.Some? then d.categoria else c.categoria)
  }

  /** An entry with the fields of c written on it. */
  function Escrito(p: Precio, c: Cambios): Precio {
    p.(nombre := Elegir(c.nombre, p.nombre), precio := Elegir(c.precio, p.precio), categoria := Elegir(c.categoria, p.categoria))
  }

  /** What was last written silently to the product of b, since its entry was filled. */
  function SilencioTras(m: Sistema, ev: Evento, b: string, c: Cambios): Cambios {
    if b !in m.cache || b !in Suceder(m, ev).cache then NADA
    else if ev.Escribir? && ev.id < |m.fichas| && m.fichas[ev.id].barcode == b then Componer(c, ev.cambios)
    else c
  }

  function Silencio(m: Sistema, evs: seq<Evento>, b: string, c: Cambios): Cambios
    decreases |evs|
  {
    if evs == [] then c else Silencio(Suceder(m, evs[0]), evs[1..], b, SilencioTras(m, evs[0], b, c))
  }

  /** The entry of b is what its product was before c was written. */
  predicate Debe(m: Sistema, b: string, c: Cambios) {
    b in m.cache ==> RespaldadaPor(m.fichas, b, Escrito(m.cache[b], c))
  }

  lemma SucederUnicos(m: Sistema, ev: Evento)
    requires BarcodesUnicos(m.fichas)
    ensures BarcodesUnicos(Suceder(m, ev).fichas)
  {
    var fs, fs' := m.fichas, Suceder(m, ev).fichas;
    assert forall i | 0 <= i < |fs| :: fs'[i].barcode == fs[i].barcode;
  }

  lemma EscribirDebe(fs: seq<Ficha>, id: nat, d: Cambios, b: string, p: Precio, c: Cambios)
    requires BarcodesUnicos(fs) && id < |fs| && RespaldadaPor(fs, b, Escrito(p, c))
    ensures RespaldadaPor(fs[id := Aplicar(fs[id], d)], b, Escrito(p, if fs[id].barcode == b then Componer(c, d) else c))
  {
    var i :| 0 <= i < |fs| && fs[i].activo && fs[i].barcode == b && MismoPrecio(Escrito(p, c), PrecioDe(fs[i]));
    var fs' := fs[id := Aplicar(fs[id], d)];
    assert fs'[i].activo && fs'[i].barcode == b;
    assert fs[id].barcode == b ==> i == id;
    assert MismoPrecio(Escrito(p, if fs[id].barcode == b then Componer(c, d) else c), PrecioDe(fs'[i]));
  }

  lemma SucederDebe(m: Sistema, ev: Evento, b: string, c: Cambios)
    requires BarcodesUnicos(m.fichas) && Debe(m, b, c)
    ensures Debe(Suceder(m, ev), b, SilencioTras(m, ev, b, c))
  {
    var m' := Suceder(m, ev);
    if b in m'.cache {
      match ev
      case Crear(f) =>
        var i :| 0 <= i < |m.fichas| && m.fichas[i].activo && m.fichas[i].barcode == b &&
                 MismoPrecio(Escrito(m.cache[b], c), PrecioDe(m.fichas[i]));
        assert m'.fichas[i] == m.fichas[i];
      case Actualizar(id, d) => if id < |m.fichas| { CambioRespaldado(m.fichas, id, m'.fichas[id], b, Escrito(m.cache[b], c)); }
      case Escribir(id, d) => if id < |m.fichas| { EscribirDebe(m.fichas, id, d, b, m.cache[b], c); }
      case Desactivar(id) => if id < |m.fichas| { CambioRespaldado(m.fichas, id, m'.fichas[id], b, Escrito(m.cache[b], c)); }
      case Reactivar(id) => if id < |m.fichas| { ReactivarDebe(m, id, b, Escrito(m.cache[b], c)); }
      case MoverStock(id, _) => if id < |m.fichas| { StockRespaldado(m.fichas, id, m'.fichas[id], b, Escrito(m.cache[b], c)); }
      case Consultar(x) =>
        if b !in m.cache {
          var i := PorBarcode(m.fichas, x).value;
          assert m.fichas[i].activo && m.fichas[i].barcode == b && MismoPrecio(Escrito(m'.cache[b], NADA), PrecioDe(m.fichas[i]));
        }
      case Desalojar(_) =>
    }
  }

  lemma ReactivarDebe(m: Sistema, id: nat, b: string, p: Precio)
    requires id < |m.fichas| && RespaldadaPor(m.fichas, b, p)
    ensures RespaldadaPor(Suceder(m, Reactivar(id)).fichas, b, p)
  {
    var i :| 0 <= i < |m.fichas| && m.fichas[i].activo && m.fichas[i].barcode == b && MismoPrecio(p, PrecioDe(m.fichas[i]));
    var fs' := Suceder(m, Reactivar(id)).fichas;
    assert fs'[i] == m.fichas[i];
  }

  /** Over any run, silent writes included, an entry owes its product exactly those since its fill. */
  lemma {:induction false} CorrerDebe(m: Sistema, evs: seq<Evento>, b: string, c: Cambios)
    requires BarcodesUnicos(m.fichas) && Debe(m, b, c)
    ensures BarcodesUnicos(Correr(m, evs).fichas) && Debe(Correr(m, evs), b, Silencio(m, evs, b, c))
    decreases |evs|
  {
    if evs != [] {
      SucederUnicos(m, evs[0]);
      SucederDebe(m, evs[0], b, c);
      CorrerDebe(Suceder(m, evs[0]), evs[1..], b, SilencioTras(m, evs[0], b, c));
    }
  }

  lemma {:induction false} SinEscribirNada(m: Sistema, evs: seq<Evento>, b: string)
    requires SinEscribir(evs)
    ensures Silencio(m, evs, b, NADA) == NADA
    decreases |evs|
  {
    if evs != [] {
      SinEscribirNada(Suceder(m, evs[0]), evs[1..], b);
    }
  }

  lemma RespaldoUnico(fs: seq<Ficha>, b: string, p: Precio)
    requires BarcodesUnicos(fs) && RespaldadaPor(fs, b, p)
    ensures PorBarcode(fs, b).Some? && MismoPrecio(p, PrecioDe(fs[PorBarcode(fs, b).value]))
  {
    var i :| 0 <= i < |fs| && fs[i].activo && fs[i].barcode == b && MismoPrecio(p, PrecioDe(fs[i]));
    assert PorBarcode(fs, b) == Some(i);
  }

  /**
   * The price cache after any run.  A lookup finds a product exactly when the database would.
   * Its name, price and category are the database's exactly when the fields written silently
   * since the entry was filled were last written with the values it has; so they always are
   * when there were no such writes, or when the answer did not come from the cache.
   */
  lemma ConsultaFiel(m: Sistema, evs: seq<Evento>, b: string)
    requires Coherente(m)
    ensures var m' := Correr(m, evs);
            var r, bd := Buscar(m', b).1, PorBarcode(m'.fichas, b);
            var c := Silencio(m, evs, b, NADA);
            (b in m'.cache ==> r == Some(m'.cache[b])) && (r.Some? <==> bd.Some?) &&
            (r.Some? ==>
               (MismoPrecio(r.value, PrecioDe(m'.fichas[bd.value])) <==>
                b !in m'.cache || Escrito(m'.cache[b], c) == m'.cache[b])) &&
            (SinEscribir(evs) ==> c == NADA)
  {
    var m', c := Correr(m, evs), Silencio(m, evs, b, NADA);
    if b in m.cache {
      assert RespaldadaPor(m.fichas, b, m.cache[b]) && Escrito(m.cache[b], NADA) == m.cache[b];
    }
    CorrerDebe(m, evs, b, NADA);
    if b in m'.cache {
      RespaldoUnico(m'.fichas, b, Escrito(m'.cache[b], c));
    }
    if SinEscribir(evs) {
      SinEscribirNada(m, evs, b);
    }
  }

  /** A case of a stale price: the supplier's price goes from 120 to 150 and the entry says 120. */
  lemma PrecioRancio()
    ensures var m := Sistema([Ficha("7790001", "Lata", 120, "Bebidas", 10, true)], map[]);
            var m' := Correr(m, [Consultar("7790001"), Escribir(0, Cambios(None, Some(150), None))]);
            |m'.fichas| == 1 && m'.fichas[0].precio == 150 &&
            Buscar(m', "7790001").1 == Some(Precio("Lata", 120, "Bebidas", 10))
  {
    var m := Sistema([Ficha("7790001", "Lata", 120, "Bebidas", 10, true)], map[]);
    assert PorBarcode(m.fichas, "7790001") == Some(0);
    var m1 := Suceder(m, Consultar("7790001"));
    assert m1 == m.(cache := map["7790001" := Precio("Lata", 120, "Bebidas", 10)]);
    var evs := [Consultar("7790001"), Escribir(0, Cambios(None, Some(150), None))];
    var m2 := Suceder(m1, evs[1]);
    assert evs[1..] == [evs[1]] && evs[1..][1..] == [];
    assert Correr(m1, evs[1..]) == Correr(m2, []);
  }

  // ---- The cached stock ------------------------------------------------------------------------

  /** No event of the run evicts b, updates product id or deactivates it. */
  predicate SinInvalidar(evs: seq<Evento>, b: string, id: nat) {
    forall i | 0 <= i < |evs| :: evs[i] != Desalojar(b) && evs[i] != Desactivar(id) && !(evs[i].Actualizar? && evs[i].id == id)
  }

  /** The stock that sales, annulments and adjustments moved on product id. */
  function StockMovido(evs: seq<Evento>, id: nat): int {
    if evs == [] then 0
    else (if evs[0].MoverStock? && evs[0].id == id then evs[0].delta else 0) + StockMovido(evs[1..], id)
  }

  /** The entry of b is p, and b is the code of product id. */
  predicate EnCache(m: Sistema, b: string, id: nat, p: Precio) {
    b in m.cache && m.cache[b] == p && id < |m.fichas| && m.fichas[id].barcode == b
  }

  lemma EntradaQuieta(m: Sistema, ev: Evento, b: string, id: nat, p: Precio)
    requires BarcodesUnicos(m.fichas) && EnCache(m, b, id, p) && SinInvalidar([ev], b, id)
    ensures var m' := Suceder(m, ev);
            EnCache(m', b, id, p) &&
            m'.fichas[id].stock == m.fichas[id].stock + (if ev.MoverStock? && ev.id == id then ev.delta else 0)
  {
    assert [ev][0] == ev;
    if ev.Actualizar? && ev.id < |m.fichas| {
      assert m.fichas[ev.id].barcode != b;
    }
    if ev.Desactivar? && ev.id < |m.fichas| {
      assert ev.id != id;
      assert m.fichas[ev.id].barcode != b;
    }
  }

  /**
   * The lag of the cached stock.  Until its entry is evicted or its product updated or
   * deactivated, the entry stays as it is while the stock moves by every change since; so the
   * cached stock agrees exactly when those changes add up to the gap there was.
   */
  lemma {:induction false} AtrasoExacto(m: Sistema, evs: seq<Evento>, b: string, id: nat, p: Precio)
    requires BarcodesUnicos(m.fichas) && EnCache(m, b, id, p) && SinInvalidar(evs, b, id)
    ensures var m' := Correr(m, evs);
            EnCache(m', b, id, p) && m'.fichas[id].stock == m.fichas[id].stock + StockMovido(evs, id) &&
            Buscar(m', b).1 == Some(p) &&
            (p.stock == m'.fichas[id].stock <==> StockMovido(evs, id) == p.stock - m.fichas[id].stock)
    decreases |evs|
  {
    if evs != [] {
      assert SinInvalidar([evs[0]], b, id);
      EntradaQuieta(m, evs[0], b, id, p);
      SucederUnicos(m, evs[0]);
      AtrasoExacto(Suceder(m, evs[0]), evs[1..], b, id, p);
    }
  }

  /** From the lookup that fills it, a cached stock is right exactly when the changes since cancel out. */
  lemma AtrasoDesdeLlenado(m: Sistema, evs: seq<Evento>, b: string)
    requires BarcodesUnicos(m.fichas) && b !in m.cache && PorBarcode(m.fichas, b).Some?
    requires SinInvalidar(evs, b, PorBarcode(m.fichas, b).value)
    ensures var id := PorBarcode(m.fichas, b).value;
            var m' := Correr(Suceder(m, Consultar(b)), evs);
            var r := Buscar(m', b).1;
            id < |m'.fichas| && r == Some(PrecioDe(m.fichas[id])) &&
            m'.fichas[id].stock - r.value.stock == StockMovido(evs, id) &&
            (r.value.stock == m'.fichas[id].stock <==> StockMovido(evs, id) == 0)
  {
    var id := PorBarcode(m.fichas, b).value;
    SucederUnicos(m, Consultar(b));
    AtrasoExacto(Suceder(m, Consultar(b)), evs, b, id, PrecioDe(m.fichas[id]));
  }

  /** A case of lag: a sale of three leaves the entry saying ten. */
  lemma StockRancio()
    ensures var m := Sistema([Ficha("7790001", "Lata", 120, "Bebidas", 10, true)], map[]);
            var m' := Correr(m, [Consultar("7790001"), MoverStock(0, -3)]);
            |m'.fichas| == 1 && m'.fichas[0].stock == 7 &&
            Buscar(m', "7790001").1 == Some(Precio("Lata", 120, "Bebidas", 10))
  {
    var m := Sistema([Ficha("7790001", "Lata", 120, "Bebidas", 10, true)], map[]);
    assert PorBarcode(m.fichas, "7790001") == Some(0);
    var m1 := Suceder(m, Consultar("7790001"));
    assert m1 == m.(cache := map["7790001" := Precio("Lata", 120, "Bebidas", 10)]);
    var m2 := Suceder(m1, MoverStock(0, -3));
    var evs := [Consultar("7790001"), MoverStock(0, -3)];
    assert evs[1..] == [MoverStock(0, -3)] && evs[1..][1..] == [];
    assert Correr(m1, evs[1..]) == Correr(m2, []);
  }

  function CambioDePrecio(id: nat, venta: int): Evento {
    Escribir(id, Cambios(None, Some(venta), None))
  }

  function CambiosDePrecio(previews: seq<(nat, int)>): seq<Evento> {
    seq(|previews|, i requires 0 <= i < |previews| => CambioDePrecio(previews[i].0, previews[i].1))
  }

  /** What importing one row of a CSV does. */
  function EventoDeFila(fs: seq<Ficha>, f: Ficha): Evento {
    match PorBarcode(fs, f.barcode)
    case None => Crear(f)
    case Some(i) => Escribir(i, Cambios(Some(f.nombre), Some(f.precio), Some(f.categoria)))
  }

  /** One row of a CSV: the active product with its code takes its data, or a new one is created. */
  lemma ImportacionExacta(m: Sistema, f: Ficha)
    requires BarcodesUnicos(m.fichas)
    ensures var m' := Suceder(m, EventoDeFila(m.fichas, f));
            m'.cache == m.cache &&
            (forall i | 0 <= i < |m.fichas| && m.fichas[i].barcode == f.barcode && m.fichas[i].activo ::
               SoloFicha(m.fichas, m'.fichas, i) &&
               m'.fichas[i] == Ficha(f.barcode, f.nombre, f.precio, f.categoria, m.fichas[i].stock, true)) &&
            ((forall i | 0 <= i < |m.fichas| :: m.fichas[i].barcode != f.barcode) ==>
               m'.fichas == m.fichas + [f.(activo := true)]) &&
            ((exists i | 0 <= i < |m.fichas| :: m.fichas[i].barcode == f.barcode && !m.fichas[i].activo) ==> m' == m)
  {
    if exists i | 0 <= i < |m.fichas| :: m.fichas[i].barcode == f.barcode && !m.fichas[i].activo {
      var i :| 0 <= i < |m.fichas| && m.fichas[i].barcode == f.barcode && !m.fichas[i].activo;
      assert PorBarcode(m.fichas, f.barcode).None?;
    }
  }

  /** A mass update leaves each product of the list at the last price given for it. */
  lemma {:induction false} PreciosMasivos(m: Sistema, previews: seq<(nat, int)>, id: nat)
    requires id < |m.fichas|
    ensures var m' := Correr(m, CambiosDePrecio(previews));
            m'.cache == m.cache && |m'.fichas| == |m.fichas| &&
            m'.fichas[id] == m.fichas[id].(precio := UltimoPrecio(previews, id, m.fichas[id].precio))
    decreases |previews|
  {
    if previews != [] {
      var m1 := Suceder(m, CambioDePrecio(previews[0].0, previews[0].1));
      assert CambiosDePrecio(previews)[1..] == CambiosDePrecio(previews[1..]);
      PreciosMasivos(m1, previews[1..], id);
    }
  }

  function UltimoPrecio(previews: seq<(nat, int)>, id: nat, precio: int): int
    decreases |previews|
  {
    if previews == [] then precio
    else UltimoPrecio(previews[1..], id, if previews[0].0 == id then previews[0].1 else precio)
  }

  /** Every event keeps the cached codes those of active products. */
  lemma SucederRespaldada(m: Sistema, ev: Evento)
    requires Respaldada(m)
    ensures Respaldada(Suceder(m, ev))
  {
    SucederUnicos(m, ev);
    forall b | b in Suceder(m, ev).cache ensures PorBarcode(Suceder(m, ev).fichas, b).Some? {
      if b in m.cache {
        ActivoSigue(m, ev, b);
      }
    }
  }

  lemma ActivoSeEncuentra(fs: seq<Ficha>, i: nat, b: string)
    requires i < |fs| && fs[i].barcode == b && fs[i].activo
    ensures PorBarcode(fs, b).Some?
  {
  }

  /** A row keeps its code, and stays active unless it is deactivated. */
  lemma FichaSigue(m: Sistema, ev: Evento, i: nat)
    requires i < |m.fichas|
    ensures var fs' := Suceder(m, ev).fichas;
            i < |fs'| && fs'[i].barcode == m.fichas[i].barcode &&
            (m.fichas[i].activo && ev != Desactivar(i) ==> fs'[i].activo)
  {
  }

  /** An entry that stays keeps its active product. */
  lemma ActivoSigue(m: Sistema, ev: Evento, b: string)
    requires Respaldada(m) && b in m.cache && b in Suceder(m, ev).cache
    ensures PorBarcode(Suceder(m, ev).fichas, b).Some?
  {
    var i := PorBarcode(m.fichas, b).value;
    FichaSigue(m, ev, i);
    assert ev != Desactivar(i);
    ActivoSeEncuentra(Suceder(m, ev).fichas, i, b);
  }

  // ---- What each event leaves --------------------------------------------------------------------

  /** Only row id may differ. */
  predicate SoloFicha(fs: seq<Ficha>, fs': seq<Ficha>, id: nat) {
    id < |fs| && |fs'| == |fs| && forall i | 0 <= i < |fs| && i != id :: fs'[i] == fs[i]
  }

  /** The fields given, and the row's own for the rest. */
  predicate Cambiada(f: Ficha, f': Ficha, c: Cambios) {
    && f'.nombre == (if c.nombre.Some? then c.nombre.value else f.nombre)
    && f'.precio == (if c.precio.Some? then c.precio.value else f.precio)
    && f'.categoria == (if c.categoria.Some? then c.categoria.value else f.categoria)
    && f'.barcode == f.barcode && f'.stock == f.stock && f'.activo == f.activo
  }

  /** Creation: one active row with the data given, unless some product has the code. */
  lemma CrearExacto(m: Sistema, f: Ficha)
    ensures var m' := Suceder(m, Crear(f));
            m'.cache == m.cache &&
            if exists i | 0 <= i < |m.fichas| :: m.fichas[i].barcode == f.barcode then m' == m
            else
              |m'.fichas| == |m.fichas| + 1 && m'.fichas[..|m.fichas|] == m.fichas &&
              m'.fichas[|m.fichas|] == Ficha(f.barcode, f.nombre, f.precio, f.categoria, f.stock, true)
  {
  }

  /** An update changes the fields given and evicts that entry; a silent write evicts none. */
  lemma EscrituraExacta(m: Sistema, id: nat, c: Cambios)
    ensures var a, e := Suceder(m, Actualizar(id, c)), Suceder(m, Escribir(id, c));
            if id >= |m.fichas| then a == m && e == m
            else
              SoloFicha(m.fichas, a.fichas, id) && Cambiada(m.fichas[id], a.fichas[id], c) &&
              a.cache == m.cache - {m.fichas[id].barcode} && e == Sistema(a.fichas, m.cache)
  {
  }

  /** Deactivation clears the flag and evicts the entry; reactivation sets it and evicts none. */
  lemma ActivacionExacta(m: Sistema, id: nat)
    ensures var d, r := Suceder(m, Desactivar(id)), Suceder(m, Reactivar(id));
            if id >= |m.fichas| then d == m && r == m
            else
              var f := m.fichas[id];
              SoloFicha(m.fichas, d.fichas, id) && d.fichas[id] == Ficha(f.barcode, f.nombre, f.precio, f.categoria, f.stock, false) &&
              d.cache == m.cache - {f.barcode} &&
              SoloFicha(m.fichas, r.fichas, id) && r.fichas[id] == Ficha(f.barcode, f.nombre, f.precio, f.categoria, f.stock, true) &&
              r.cache == m.cache
  {
  }

  /** Stock moves by its delta and nothing else; an eviction removes one entry. */
  lemma MovimientoExacto(m: Sistema, id: nat, delta: int, b: string)
    ensures var s, d := Suceder(m, MoverStock(id, delta)), Suceder(m, Desalojar(b));
            d == m.(cache := m.cache - {b}) && s.cache == m.cache &&
            if id >= |m.fichas| then s == m
            else
              SoloFicha(m.fichas, s.fichas, id) &&
              s.fichas[id] == m.fichas[id].(stock := m.fichas[id].stock + delta)
  {
  }

  /** A lookup answers the entry, or else the active product, which it then caches. */
  lemma ConsultaExacta(m: Sistema, b: string)
    requires BarcodesUnicos(m.fichas)
    ensures var (m', r) := Buscar(m, b);
            m'.fichas == m.fichas && Suceder(m, Consultar(b)) == m' &&
            if b in m.cache then m' == m && r == Some(m.cache[b])
            else if forall i | 0 <= i < |m.fichas| :: !(m.fichas[i].barcode == b && m.fichas[i].activo) then m' == m && r == None
            else
              r.Some? && m'.cache == m.cache[b := r.value] &&
              forall i | 0 <= i < |m.fichas| && m.fichas[i].barcode == b && m.fichas[i].activo ::
                var f := m.fichas[i];
                r.value == Precio(f.nombre, f.precio, f.categoria, f.stock)
  {
  }

  // ---- The services -----------------------------------------------------------------------------

  class Catalogo {
    var fichas: seq<Ficha>
    var cache: map<string, Precio>

    ghost function Abs(): Sistema
      reads this
    {
      Sistema(fichas, cache)
    }

    ghost predicate Valid()
      reads this
    {
      Respaldada(Abs())
    }

    constructor ()
      ensures Valid() && Coherente(Abs()) && Abs() == Sistema([], map[])
    {
      fichas, cache := [], map[];
    }

    static lemma Guarda(m: Sistema, ev: Evento)
      requires Respaldada(m)
      ensures Respaldada(Suceder(m, ev))
      ensures Coherente(m) && !ev.Escribir? ==> Coherente(Suceder(m, ev))
    {
      SucederRespaldada(m, ev);
      if Coherente(m) && !ev.Escribir? {
        SucederCoherente(m, ev);
      }
    }

    method InvalidatePrecioCache(barcode: string)
      modifies this`cache
      ensures cache == old(cache) - {barcode}
    {
      cache := cache - {barcode};
    }

    method Crear(f: Ficha) returns (ok: bool)
      requires Valid()
      modifies this`fichas
      ensures Valid() && Abs() == Suceder(old(Abs()), Evento.Crear(f))
      ensures old(Coherente(Abs())) ==> Coherente(Abs())
      ensures ok <==> fichas == old(fichas) + [f.(activo := true)]
    {
      Guarda(Abs(), Evento.Crear(f));
      ok := !exists i | 0 <= i < |fichas| :: fichas[i].barcode == f.barcode;
      if ok {
        fichas := fichas + [f.(activo := true)];
      }
    }

    method Actualizar(id: nat, c: Cambios) returns (ok: bool)
      requires Valid()
      modifies this
      ensures Valid() && Abs() == Suceder(old(Abs()), Evento.Actualizar(id, c))
      ensures old(Coherente(Abs())) ==> Coherente(Abs())
      ensures ok <==> id < |fichas|
    {
      Guarda(Abs(), Evento.Actualizar(id, c));
      ok := id < |fichas|;
      if !ok {
        return;
      }
      var p := fichas[id];
      if c.nombre.Some? {
        p := p.(nombre := c.nombre.value);
      }
      if c.categoria.Some? {
        p := p.(categoria := c.categoria.value);
      }
      if c.precio.Some? {
        p := p.(precio := c.precio.value);
      }
      fichas := fichas[id := p];
      InvalidatePrecioCache(p.barcode);
    }

    method Desactivar(id: nat) returns (ok: bool)
      requires Valid()
      modifies this
      ensures Valid() && Abs() == Suceder(old(Abs()), Evento.Desactivar(id))
      ensures old(Coherente(Abs())) ==> Coherente(Abs())
      ensures ok <==> id < |fichas|
    {
      Guarda(Abs(), Evento.Desactivar(id));
      ok := id < |fichas|;
      if ok {
        var barcode := fichas[id].barcode;
        fichas := fichas[id := fichas[id].(activo := false)];
        InvalidatePrecioCache(barcode);
      }
    }

    method Reactivar(id: nat)
      requires Valid()
      modifies this`fichas
      ensures Valid() && Abs() == Suceder(old(Abs()), Evento.Reactivar(id))
      ensures old(Coherente(Abs())) ==> Coherente(Abs())
    {
      Guarda(Abs(), Evento.Reactivar(id));
      if id < |fichas| {
        fichas := fichas[id := fichas[id].(activo := true)];
      }
    }

    method GetPrecioPorBarcode(barcode: string) returns (r: Option<Precio>)
      requires Valid()
      modifies this`cache
      ensures Valid() && (Abs(), r) == Buscar(old(Abs()), barcode)
      ensures old(Coherente(Abs())) ==> Coherente(Abs())
    {
      Guarda(Abs(), Consultar(barcode));
      if barcode in cache {
        return Some(cache[barcode]);
      }
      var producto := PorBarcode(fichas, barcode);
      if producto.None? {
        return None;
      }
      var p := fichas[producto.value];
      var resp := Precio(p.nombre, p.precio, p.categoria, p.stock);
      cache := cache[barcode := resp];
      return Some(resp);
    }

    // ---- proveedor_service.go ----------------------------------------------------------------

    /** Writes the price of one row; the cache is not told. */
    method UpdatePreciosTx(id: nat, venta: int)
      requires Valid()
      modifies this`fichas
      ensures Valid() && Abs() == Suceder(old(Abs()), CambioDePrecio(id, venta))
    {
      Guarda(Abs(), CambioDePrecio(id, venta));
      if id < |fichas| {
        fichas := fichas[id := fichas[id].(precio := venta)];
      }
    }

    /** The mass update's loop: each product of the supplier with its new price. */
    method ActualizarPreciosMasivo(previews: seq<(nat, int)>)
      requires Valid()
      modifies this`fichas
      ensures Valid() && Abs() == Correr(old(Abs()), CambiosDePrecio(previews))
    {
      for i := 0 to |previews|
        invariant Valid() && Correr(Abs(), CambiosDePrecio(previews[i..])) == Correr(old(Abs()), CambiosDePrecio(previews))
      {
        assert CambiosDePrecio(previews[i..])[1..] == CambiosDePrecio(previews[i + 1..]);
        UpdatePreciosTx(previews[i].0, previews[i].1);
      }
    }

    /** One row of the CSV: an active product with this code is overwritten, or a new one created. */
    method UpsertProductoDesdeCSV(barcode: string, nombre: string, precio: int, categoria: string) returns (creado: bool)
      requires Valid()
      modifies this`fichas
      ensures var f := Ficha(barcode, nombre, precio, categoria, 0, true);
              Valid() && Abs() == Suceder(old(Abs()), EventoDeFila(old(fichas), f)) &&
              (creado ==> fichas == old(fichas) + [f])
    {
      var f := Ficha(barcode, nombre, precio, categoria, 0, true);
      Guarda(Abs(), EventoDeFila(fichas, f));
      var existing := PorBarcode(fichas, barcode);
      if existing.None? {
        creado := Crear(f);
        return;
      }
      var p := fichas[existing.value];
      fichas := fichas[existing.value := p.(nombre := nombre, precio := precio, categoria := categoria)];
      return false;
    }
  }
}
