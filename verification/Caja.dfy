/** What caja_service.go does to the store, and how it totals the cash ledger. */
module Caja {
  import opened Datos
  import opened Desvio
  import opened Sumas

  /** The amount a ledger row adds to one method of one session. */
  function MontoEn(sesion: nat, metodo: Metodo): MovCaja -> int {
    (m: MovCaja) => if m.sesion == sesion && m.metodo == metodo then m.monto else 0
  }

  /** The amount a ledger row adds to one session. */
  function MontoDeSesion(sesion: nat): MovCaja -> int {
    (m: MovCaja) => if m.sesion == sesion then m.monto else 0
  }

  function SumaMetodo(caja: seq<MovCaja>, sesion: nat, metodo: Metodo): int {
    Suma(MontoEn(sesion, metodo), caja)
  }

  /** One row of SELECT metodo_pago, SUM(monto) ... GROUP BY metodo_pago. */
  datatype Fila = Fila(metodo: Metodo, total: int)

  /** The grouped rows of a session, for the methods listed; a method with no rows has none. */
  function Agrupar(caja: seq<MovCaja>, sesion: nat, ms: seq<Metodo>): seq<Fila> {
    if ms == [] then []
    else
      (if exists m | m in caja :: m.sesion == sesion && m.metodo == ms[0]
       then [Fila(ms[0], SumaMetodo(caja, sesion, ms[0]))] else []) +
      Agrupar(caja, sesion, ms[1..])
  }

  const METODOS := [Efectivo, Debito, Credito, Transferencia, QR]

  function FilaEn(m: Metodo): Fila -> int {
    (f: Fila) => if f.metodo == m then f.total else 0
  }

  /** The rows of a method add up to its sum, rows or no rows. */
  lemma {:induction false} AgruparExacto(caja: seq<MovCaja>, sesion: nat, ms: seq<Metodo>, m: Metodo)
    requires forall i, j | 0 <= i < j < |ms| :: ms[i] != ms[j]
    ensures Suma(FilaEn(m), Agrupar(caja, sesion, ms)) == if m in ms then SumaMetodo(caja, sesion, m) else 0
  {
    if ms != [] {
      var resto := Agrupar(caja, sesion, ms[1..]);
      AgruparExacto(caja, sesion, ms[1..], m);
      if exists x | x in caja :: x.sesion == sesion && x.metodo == ms[0] {
        SumaPrimero(FilaEn(m), [Fila(ms[0], SumaMetodo(caja, sesion, ms[0]))] + resto);
      } else {
        SumaNula(MontoEn(sesion, ms[0]), caja);
        assert Agrupar(caja, sesion, ms) == resto;
      }
    }
  }

  /** The expected amounts: the opening float is cash, the rest comes from the ledger. */
  function Esperado(s: Estado, sesion: nat): Montos
    requires sesion < |s.sesiones|
  {
    Montos(s.sesiones[sesion].montoInicial + SumaMetodo(s.caja, sesion, Efectivo),
           SumaMetodo(s.caja, sesion, Debito), SumaMetodo(s.caja, sesion, Credito),
           SumaMetodo(s.caja, sesion, Transferencia), SumaMetodo(s.caja, sesion, QR))
  }

  function AbiertaPorPDV(ss: seq<Sesion>, pdv: int): (r: Option<nat>)
    ensures r.Some? ==> r.value < |ss| && ss[r.value].abierta && ss[r.value].puntoDeVenta == pdv
    ensures r.None? ==> forall i | 0 <= i < |ss| :: !(ss[i].abierta && ss[i].puntoDeVenta == pdv)
  {
    if ss == [] then None
    else
      var n := |ss| - 1;
      match AbiertaPorPDV(ss[..n], pdv)
      case Some(i) => Some(i)
      case None => if ss[n].abierta && ss[n].puntoDeVenta == pdv then Some(n) else None
  }

  function AbiertaPorUsuario(ss: seq<Sesion>, usuario: nat): (r: Option<nat>)
    ensures r.Some? ==> r.value < |ss| && ss[r.value].abierta && ss[r.value].usuario == usuario
    ensures r.None? ==> forall i | 0 <= i < |ss| :: !(ss[i].abierta && ss[i].usuario == usuario)
  {
    if ss == [] then None
    else
      var n := |ss| - 1;
      match AbiertaPorUsuario(ss[..n], usuario)
      case Some(i) => Some(i)
      case None => if ss[n].abierta && ss[n].usuario == usuario then Some(n) else None
  }

  /** Abrir: an already open session of the point of sale is returned as it is. */
  function Abrir(s: Estado, pdv: int, usuario: nat, montoInicial: int): (Estado, nat) {
    match AbiertaPorPDV(s.sesiones, pdv)
    case Some(i) => (s, i)
    case None => (s.(sesiones := s.sesiones + [Sesion(pdv, usuario, montoInicial, true, None)]), |s.sesiones|)
  }

  function ErrorDeSesion(s: Estado, sesion: nat): Option<Error> {
    if sesion >= |s.sesiones| then Some(SesionNoEncontrada)
    else if !s.sesiones[sesion].abierta then Some(SesionCerrada)
    else None
  }

  /** RegistrarMovimiento: an expense is stored negated. */
  function RegistrarMovimiento(s: Estado, sesion: nat, egreso: bool, metodo: Metodo, monto: int): Result<Estado, Error> {
    match ErrorDeSesion(s, sesion)
    case Some(e) => Err(e)
    case None =>
      Ok(s.(caja := s.caja + [if egreso then MovCaja(sesion, EgresoManual, metodo, -monto, None)
                              else MovCaja(sesion, IngresoManual, metodo, monto, None)]))
  }

  predicate SinObservaciones(obs: Option<string>) {
    obs.None? || obs.value == ""
  }

  function CierreDe(esperado: int, declarado: Montos, obs: Option<string>): Cierre {
    var desvio := declarado.Total() - esperado;
    var pct := Porcentaje(desvio, esperado);
    Cierre(esperado, declarado, desvio, pct, ClasificarDesvio(pct), obs)
  }

  /** The session an arqueo closes: the one named, or the user's open one. */
  function SesionDelArqueo(s: Estado, sesion: Option<nat>, usuario: Option<nat>): Option<nat> {
    if sesion.Some? then sesion
    else if usuario.None? then None
    else AbiertaPorUsuario(s.sesiones, usuario.value)
  }

  function Arqueo(s: Estado, sesion: Option<nat>, usuario: Option<nat>, declarado: Montos, obs: Option<string>)
    : Result<Estado, Error>
  {
    var objetivo := SesionDelArqueo(s, sesion, usuario);
    if objetivo.None? then Err(SesionNoEncontrada)
    else
      var i := objetivo.value;
      match ErrorDeSesion(s, i)
      case Some(e) => Err(e)
      case None =>
        var c := CierreDe(Esperado(s, i).Total(), declarado, obs);
        if c.clase == Critico && SinObservaciones(obs) then Err(ObservacionesRequeridas)
        else Ok(s.(sesiones := s.sesiones[i := s.sesiones[i].(abierta := false, cierre := Some(c))]))
  }
}
