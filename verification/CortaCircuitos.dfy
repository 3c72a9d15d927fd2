/**
 * The circuit breaker.  Execute is two atomic halves -- asking for the state, then recording
 * the outcome -- with the protected operation running outside the lock in between, so the
 * halves of many calls interleave.  Times are integers on the process's clock.
 */
module CortaCircuitos {
  import opened Aritmetica

  datatype CBState = Closed | Open | HalfOpen

  datatype Config = Config(failureThreshold: Positivo, successThreshold: Positivo, openTimeout: Positivo)

  /** NewCircuitBreaker replaces non-positive settings by 5, 2 and sixty seconds. */
  function ConfigDe(failures: int, successes: int, timeout: int, segundo: Positivo): Config {
    Config(if failures <= 0 then 5 else failures, if successes <= 0 then 2 else successes,
           if timeout <= 0 then 60 * segundo else timeout)
  }

  datatype CB = CB(state: CBState, failureCount: int, successCount: int, lastFailureTime: int)

  function Nuevo(): CB {
    CB(Closed, 0, 0, 0)
  }

  /** State(): an open breaker whose timeout has passed becomes half-open. */
  function Observar(c: Config, b: CB, now: int): CB {
    if b.state == Open && now - b.lastFailureTime >= c.openTimeout then b.(state := HalfOpen, successCount := 0) else b
  }

  function OnFailure(c: Config, b: CB, now: int): CB {
    var b' := b.(failureCount := b.failureCount + 1, lastFailureTime := now);
    match b.state
    case Closed => if b'.failureCount >= c.failureThreshold then b'.(state := Open, successCount := 0) else b'
    case HalfOpen => b'.(state := Open, failureCount := 0)
    case Open => b'
  }

  function OnSuccess(c: Config, b: CB): CB {
    match b.state
    case Closed => b.(failureCount := 0)
    case HalfOpen =>
      if b.successCount + 1 >= c.successThreshold then b.(state := Closed, failureCount := 0, successCount := 0)
      else b.(successCount := b.successCount + 1)
    case Open => b
  }

  // ---- The outcome history -----------------------------------------------------------------

  /** Outcomes as they are recorded, and the transitions as they happen. */
  datatype Suceso = Fallo(t: int) | Exito | Abre | Prueba(ahora: int) | Cierra

  /** The state the history tells: its last transition. */
  function EstadoDe(h: seq<Suceso>): CBState {
    if h == [] then Closed
    else
      match h[|h| - 1]
      case Abre => Open
      case Prueba(_) => HalfOpen
      case Cierra => Closed
      case _ => EstadoDe(h[..|h| - 1])
  }

  /** Failures since the last success, transition or start. */
  function FallosSeguidos(h: seq<Suceso>): nat {
    if h == [] || !h[|h| - 1].Fallo? then 0 else FallosSeguidos(h[..|h| - 1]) + 1
  }

  /** Successes since the last failure, transition or start. */
  function ExitosSeguidos(h: seq<Suceso>): nat {
    if h == [] || h[|h| - 1] != Exito then 0 else ExitosSeguidos(h[..|h| - 1]) + 1
  }

  /** The latest recorded failure, late ones included. */
  function UltimoFallo(h: seq<Suceso>): int {
    if h == [] then 0 else if h[|h| - 1].Fallo? then h[|h| - 1].t else UltimoFallo(h[..|h| - 1])
  }

  /** A failure after h trips the breaker. */
  predicate Dispara(c: Config, h: seq<Suceso>) {
    EstadoDe(h) == HalfOpen || (EstadoDe(h) == Closed && FallosSeguidos(h) + 1 >= c.failureThreshold)
  }

  /** A success after h closes the breaker. */
  predicate Recupera(c: Config, h: seq<Suceso>) {
    EstadoDe(h) == HalfOpen && ExitosSeguidos(h) + 1 >= c.successThreshold
  }

  /**
   * The protocol, told on histories alone: when each transition may and must follow.
   */
  predicate Legal(c: Config, h: seq<Suceso>) {
    h == [] ||
    var n := |h| - 1;
    var antes := h[..n];
    Legal(c, antes) && Completa(c, antes) == !(h[n].Abre? || h[n].Cierra?) &&
    match h[n]
    case Abre => n > 0 && h[n - 1].Fallo? && Dispara(c, h[..n - 1])
    case Cierra => n > 0 && h[n - 1].Exito? && Recupera(c, h[..n - 1])
    case Prueba(ahora) => EstadoDe(antes) == Open && ahora - UltimoFallo(antes) >= c.openTimeout
    case _ => true
  }

  /** No transition is owed. */
  predicate Completa(c: Config, h: seq<Suceso>) {
    h == [] ||
    var antes := h[..|h| - 1];
    match h[|h| - 1]
    case Fallo(_) => !Dispara(c, antes)
    case Exito => !Recupera(c, antes)
    case _ => true
  }

  /** While half-open, everything since the probe began was a success. */
  predicate SoloExitos(h: seq<Suceso>) {
    h != [] && (h[|h| - 1].Prueba? || (h[|h| - 1] == Exito && SoloExitos(h[..|h| - 1])))
  }

  // ---- Interleaved calls -----------------------------------------------------------------------

  datatype Sistema = Sistema(b: CB, h: seq<Suceso>, enVuelo: nat)

  /** The two halves of Execute, and a bare look at the state. */
  datatype Evento = Mirar(ahora: int) | Comenzar(ahora: int) | Terminar(ok: bool, ahora: int)

  function TrasObservar(c: Config, m: Sistema, now: int): Sistema {
    var b' := Observar(c, m.b, now);
    m.(b := b', h := if b'.state != m.b.state then m.h + [Prueba(now)] else m.h)
  }

  function TrasFallo(c: Config, m: Sistema, now: int): Sistema {
    var b' := OnFailure(c, m.b, now);
    m.(b := b', h := m.h + [Fallo(now)] + (if b'.state != m.b.state then [Abre] else []))
  }

  function TrasExito(c: Config, m: Sistema): Sistema {
    var b' := OnSuccess(c, m.b);
    m.(b := b', h := m.h + [Exito] + (if b'.state != m.b.state then [Cierra] else []))
  }

  function Suceder(c: Config, m: Sistema, ev: Evento): Sistema {
    match ev
    case Mirar(now) => TrasObservar(c, m, now)
    case Comenzar(now) =>
      var m' := TrasObservar(c, m, now);
      if m'.b.state == Open then m' else m'.(enVuelo := m'.enVuelo + 1)
    case Terminar(ok, now) =>
      if m.enVuelo == 0 then m
      else (if ok then TrasExito(c, m) else TrasFallo(c, m, now)).(enVuelo := m.enVuelo - 1)
  }

  function Ejecutar(c: Config, m: Sistema, evs: seq<Evento>): Sistema
    decreases |evs|
  {
    if evs == [] then m else Ejecutar(c, Suceder(c, m, evs[0]), evs[1..])
  }

  /** The breaker's fields are exactly what its history says. */
  predicate Refina(c: Config, m: Sistema) {
    && Legal(c, m.h) && Completa(c, m.h)
    && m.b.state == EstadoDe(m.h)
    && (m.b.state == Closed ==> m.b.failureCount == FallosSeguidos(m.h) < c.failureThreshold)
    && (m.b.state == HalfOpen ==> m.b.successCount == ExitosSeguidos(m.h) < c.successThreshold && SoloExitos(m.h))
    && (m.b.state == Open ==> m.b.lastFailureTime == UltimoFallo(m.h))
  }

  lemma Ultimo(h: seq<Suceso>, e: Suceso)
    ensures (h + [e])[..|h|] == h
  {
  }

  lemma ObservarRefina(c: Config, m: Sistema, now: int)
    requires Refina(c, m)
    ensures Refina(c, TrasObservar(c, m, now))
  {
    Ultimo(m.h, Prueba(now));
  }

  lemma FalloRefina(c: Config, m: Sistema, now: int)
    requires Refina(c, m)
    ensures Refina(c, TrasFallo(c, m, now))
  {
    UnFallo(c, m.h, now);
    if m.b.state != Open && OnFailure(c, m.b, now).state == Open {
      FalloYAbre(c, m.h, now);
      assert TrasFallo(c, m, now).h == m.h + [Fallo(now)] + [Abre];
    } else {
      assert TrasFallo(c, m, now).h == m.h + [Fallo(now)];
    }
  }

  /** What a failure adds to the history. */
  lemma UnFallo(c: Config, h: seq<Suceso>, now: int)
    requires Legal(c, h) && Completa(c, h)
    ensures var h1 := h + [Fallo(now)];
            Legal(c, h1) && (Completa(c, h1) <==> !Dispara(c, h)) &&
            FallosSeguidos(h1) == FallosSeguidos(h) + 1 && UltimoFallo(h1) == now && EstadoDe(h1) == EstadoDe(h)
  {
    Ultimo(h, Fallo(now));
  }

  /** A failure that trips the breaker is followed by its opening. */
  lemma FalloYAbre(c: Config, h: seq<Suceso>, now: int)
    requires Legal(c, h) && Completa(c, h) && Dispara(c, h)
    ensures var h2 := h + [Fallo(now)] + [Abre];
            Legal(c, h2) && Completa(c, h2) && UltimoFallo(h2) == now && EstadoDe(h2) == Open
  {
    var h1 := h + [Fallo(now)];
    var h2 := h1 + [Abre];
    UnFallo(c, h, now);
    Ultimo(h1, Abre);
    assert h2[..|h2| - 2] == h && h2[|h2| - 2] == Fallo(now);
  }

  lemma ExitoRefina(c: Config, m: Sistema)
    requires Refina(c, m)
    ensures Refina(c, TrasExito(c, m))
  {
    var h1 := m.h + [Exito];
    Ultimo(m.h, Exito);
    assert Legal(c, h1);
    assert ExitosSeguidos(h1) == ExitosSeguidos(m.h) + 1 && EstadoDe(h1) == EstadoDe(m.h) && UltimoFallo(h1) == UltimoFallo(m.h);
    var h2 := h1 + [Cierra];
    Ultimo(h1, Cierra);
    assert h2[..|h2| - 2] == m.h && h2[|h2| - 2] == Exito;
    if m.b.state == HalfOpen && OnSuccess(c, m.b).state == Closed {
      assert TrasExito(c, m).h == h2;
    } else {
      assert TrasExito(c, m).h == h1;
    }
  }

  /**
   * Under any interleaving of in-flight calls and any readings of the clock, the breaker
   * refines its outcome history and the history obeys the protocol.
   */
  lemma {:induction false} SiempreRefina(c: Config, m: Sistema, evs: seq<Evento>)
    requires Refina(c, m)
    ensures Refina(c, Ejecutar(c, m, evs))
    decreases |evs|
  {
    if evs != [] {
      match evs[0] {
        case Mirar(now) => ObservarRefina(c, m, now);
        case Comenzar(now) => ObservarRefina(c, m, now);
        case Terminar(ok, now) =>
          if ok {
            ExitoRefina(c, m);
          } else {
            FalloRefina(c, m, now);
          }
      }
      SiempreRefina(c, Suceder(c, m, evs[0]), evs[1..]);
    }
  }

  lemma NuevoRefina(c: Config, evs: seq<Evento>)
    ensures Refina(c, Ejecutar(c, Sistema(Nuevo(), [], 0), evs))
  {
    SiempreRefina(c, Sistema(Nuevo(), [], 0), evs);
  }

  // ---- What each half does -------------------------------------------------------------------

  /** Non-positive settings are five failures, two successes and sixty seconds; others are kept. */
  lemma ConfigPorDefecto(failures: int, successes: int, timeout: int, segundo: Positivo)
    ensures var c := ConfigDe(failures, successes, timeout, segundo);
            (failures <= 0 ==> c.failureThreshold == 5) && (failures > 0 ==> c.failureThreshold == failures) &&
            (successes <= 0 ==> c.successThreshold == 2) && (successes > 0 ==> c.successThreshold == successes) &&
            (timeout <= 0 ==> c.openTimeout == 60 * segundo) && (timeout > 0 ==> c.openTimeout == timeout)
  {
  }

  /**
   * Looking at an open breaker makes it half-open exactly when its timeout has passed since
   * the latest failure, and then with no success counted; any other is left as it is.
   */
  lemma MirarExacto(c: Config, m: Sistema, now: int)
    requires Refina(c, m)
    ensures var m' := Suceder(c, m, Mirar(now));
            m'.enVuelo == m.enVuelo && m'.b.failureCount == m.b.failureCount && m'.b.lastFailureTime == m.b.lastFailureTime &&
            if EstadoDe(m.h) == Open && now - UltimoFallo(m.h) >= c.openTimeout
            then m'.h == m.h + [Prueba(now)] && EstadoDe(m'.h) == m'.b.state == HalfOpen && m'.b.successCount == 0
            else m' == m
  {
    ObservarRefina(c, m, now);
  }

  /** A call is admitted exactly when the breaker is not open, or is open and its timeout has passed. */
  lemma ComenzarExacto(c: Config, m: Sistema, now: int)
    requires Refina(c, m)
    ensures var m' := Suceder(c, m, Comenzar(now));
            var abierto := EstadoDe(m.h) == Open;
            var vencido := now - UltimoFallo(m.h) >= c.openTimeout;
            m'.enVuelo == m.enVuelo + (if abierto && !vencido then 0 else 1) &&
            EstadoDe(m'.h) == (if abierto && vencido then HalfOpen else EstadoDe(m.h)) &&
            m' == Suceder(c, m, Mirar(now)).(enVuelo := m'.enVuelo)
  {
    MirarExacto(c, m, now);
  }

  /**
   * An outcome is always recorded, late ones included, and it trips or closes the breaker
   * exactly when the history calls for it.
   */
  lemma TerminarExacto(c: Config, m: Sistema, ok: bool, now: int)
    requires Refina(c, m) && m.enVuelo > 0
    ensures var m' := Suceder(c, m, Terminar(ok, now));
            m'.enVuelo == m.enVuelo - 1 &&
            m'.h == m.h + (if ok then [Exito] else [Fallo(now)]) +
                    (if !ok && Dispara(c, m.h) then [Abre] else if ok && Recupera(c, m.h) then [Cierra] else [])
  {
    if ok {
      ExitoRefina(c, m);
    } else {
      FalloRefina(c, m, now);
    }
  }

  // ---- The call bound ---------------------------------------------------------------------------

  /** A call of an operation that fails: when it asks, and when the failure is recorded. */
  datatype Llamada = Llamada(inicio: nat, fin: nat)

  predicate EnOrden(ls: seq<Llamada>, limite: nat) {
    forall i | 0 <= i < |ls| :: ls[i].inicio <= ls[i].fin && ls[i].inicio <= limite
  }

  /** How many of the calls start the operation, one caller after another. */
  function Iniciadas(c: Config, b: CB, ls: seq<Llamada>): nat
    decreases |ls|
  {
    if ls == [] then 0
    else
      var b' := Observar(c, b, ls[0].inicio);
      if b'.state == Open then Iniciadas(c, b', ls[1..])
      else 1 + Iniciadas(c, OnFailure(c, b', ls[0].fin), ls[1..])
  }

  lemma DivisionCrece(x: int, y: int, d: Positivo)
    requires x <= y
    ensures x / d <= y / d
  {
    Cocientes(x / d, x % d, y / d, y % d, d);
  }

  lemma Cocientes(qx: int, rx: int, qy: int, ry: int, d: Positivo)
    requires qx * d + rx <= qy * d + ry && 0 <= rx && ry < d
    ensures qx <= qy
  {
    if qy < qx {
      assert (qy + 1) * d == qy * d + d;
      Crece(qy + 1, qx, d);
    }
  }

  lemma UnaMas(x: int, y: int, d: Positivo)
    requires y >= x + d
    ensures x / d + 1 <= y / d
  {
    assert (x / d + 1) * d == (x / d) * d + d;
    Cocientes(x / d + 1, x % d, y / d, y % d, d);
  }

  /** How many whole timeouts fit between the last failure and the limit. */
  function Sondables(limite: int, fallo: int, timeout: Positivo): int {
    if limite < fallo then 0 else (limite - fallo) / timeout
  }

  /** A start at `inicio` that fails at `fin` uses up one of them. */
  lemma UnArranqueMas(limite: int, fallo: int, inicio: int, fin: int, timeout: Positivo)
    requires inicio - fallo >= timeout && inicio <= fin && inicio <= limite
    ensures Sondables(limite, fin, timeout) + 1 <= Sondables(limite, fallo, timeout)
  {
    if limite < fin {
      UnaMas(0, limite - fallo, timeout);
    } else {
      UnaMas(limite - fin, limite - fallo, timeout);
    }
  }

  /** Once open, each further start costs a whole timeout since the last failure. */
  lemma {:induction false} AbiertoAcotado(c: Config, b: CB, ls: seq<Llamada>, limite: nat)
    requires b.state == Open && EnOrden(ls, limite)
    ensures Iniciadas(c, b, ls) <= Sondables(limite, b.lastFailureTime, c.openTimeout)
    decreases |ls|
  {
    if ls != [] {
      var l := ls[0];
      var b' := Observar(c, b, l.inicio);
      if b'.state == Open {
        AbiertoAcotado(c, b, ls[1..], limite);
      } else {
        AbiertoAcotado(c, OnFailure(c, b', l.fin), ls[1..], limite);
        UnArranqueMas(limite, b.lastFailureTime, l.inicio, l.fin, c.openTimeout);
      }
    }
  }

  /**
   * From a new breaker, sequential calls to an operation that always fails start it at most
   * failureThreshold + floor(T / openTimeout) times by time T, whatever the schedule.
   */
  lemma CotaDeLlamadas(c: Config, ls: seq<Llamada>, limite: nat)
    requires EnOrden(ls, limite)
    ensures Iniciadas(c, Nuevo(), ls) <= c.failureThreshold + limite / c.openTimeout
  {
    CerradoAcotado(c, Nuevo(), ls, limite);
  }

  lemma {:induction false} CerradoAcotado(c: Config, b: CB, ls: seq<Llamada>, limite: nat)
    requires b.state == Closed && b.failureCount < c.failureThreshold && EnOrden(ls, limite)
    ensures Iniciadas(c, b, ls) <= c.failureThreshold - b.failureCount + limite / c.openTimeout
    decreases |ls|
  {
    DivisionCrece(0, limite, c.openTimeout);
    if ls != [] {
      var b' := OnFailure(c, b, ls[0].fin);
      if b'.state == Open {
        AbiertoAcotado(c, b', ls[1..], limite);
        if limite >= ls[0].fin {
          DivisionCrece(limite - ls[0].fin, limite, c.openTimeout);
        }
      } else {
        CerradoAcotado(c, b', ls[1..], limite);
      }
    }
  }

  /** k failing calls at time zero. */
  function Tropiezos(k: nat): seq<Llamada> {
    if k == 0 then [] else [Llamada(0, 0)] + Tropiezos(k - 1)
  }

  /** n calls, each one timeout after the one before. */
  function Sondeos(c: Config, desde: nat, n: nat): seq<Llamada>
    decreases n
  {
    if n == 0 then []
    else
      var t := desde + c.openTimeout;
      [Llamada(t, t)] + Sondeos(c, t, n - 1)
  }

  lemma {:induction false} SondeosInician(c: Config, b: CB, desde: nat, n: nat)
    requires b.state == Open && b.lastFailureTime == desde
    ensures Iniciadas(c, b, Sondeos(c, desde, n)) == n
    ensures EnOrden(Sondeos(c, desde, n), desde + n * c.openTimeout)
    decreases n
  {
    if n != 0 {
      var t := desde + c.openTimeout;
      var ls := Sondeos(c, desde, n);
      var b' := OnFailure(c, Observar(c, b, t), t);
      assert ls[1..] == Sondeos(c, t, n - 1);
      SondeosInician(c, b', t, n - 1);
      assert n * c.openTimeout == (n - 1) * c.openTimeout + c.openTimeout;
      Crece(0, n - 1, c.openTimeout);
      forall i | 0 <= i < |ls| ensures ls[i].inicio <= ls[i].fin && ls[i].inicio <= desde + n * c.openTimeout {
        if i > 0 {
          assert ls[i] == ls[1..][i - 1];
        }
      }
    }
  }

  /** The first k calls trip the breaker, and then each of the others probes it. */
  lemma {:induction false} TropiezosInician(c: Config, b: CB, k: nat, n: nat)
    requires b.state == Closed && 0 <= b.failureCount < c.failureThreshold && k == c.failureThreshold - b.failureCount
    ensures Iniciadas(c, b, Tropiezos(k) + Sondeos(c, 0, n)) == k + n
    decreases k
  {
    var b' := OnFailure(c, b, 0);
    UnTropiezo(k, Sondeos(c, 0, n));
    if k == 1 {
      assert Tropiezos(0) + Sondeos(c, 0, n) == Sondeos(c, 0, n);
      SondeosInician(c, b', 0, n);
    } else {
      TropiezosInician(c, b', k - 1, n);
    }
  }

  lemma UnTropiezo(k: nat, resto: seq<Llamada>)
    requires k > 0
    ensures Tropiezos(k) + resto == [Llamada(0, 0)] + (Tropiezos(k - 1) + resto)
  {
  }

  lemma {:induction false} TropiezosEnOrden(k: nat, resto: seq<Llamada>, limite: nat)
    requires EnOrden(resto, limite)
    ensures EnOrden(Tropiezos(k) + resto, limite)
  {
    if k == 0 {
      assert Tropiezos(0) + resto == resto;
    } else {
      TropiezosEnOrden(k - 1, resto, limite);
      UnTropiezo(k, resto);
      var ls, cola := Tropiezos(k) + resto, Tropiezos(k - 1) + resto;
      forall i | 0 <= i < |ls| ensures ls[i].inicio <= ls[i].fin && ls[i].inicio <= limite {
        assert i > 0 ==> ls[i] == cola[i - 1];
      }
    }
  }

  /** The bound is met: by time n * openTimeout a schedule starts that many calls. */
  lemma CotaAlcanzada(c: Config, n: nat)
    ensures var ls := Tropiezos(c.failureThreshold) + Sondeos(c, 0, n);
            EnOrden(ls, n * c.openTimeout) && Iniciadas(c, Nuevo(), ls) == c.failureThreshold + n
  {
    TropiezosInician(c, Nuevo(), c.failureThreshold, n);
    SondeosInician(c, CB(Open, 0, 0, 0), 0, n);
    Crece(0, n, c.openTimeout);
    TropiezosEnOrden(c.failureThreshold, Sondeos(c, 0, n), n * c.openTimeout);
  }

  // ---- The calls of a run --------------------------------------------------------------------

  /** How many calls of the run were let through to the operation. */
  function Arranques(c: Config, m: Sistema, evs: seq<Evento>): nat
    decreases |evs|
  {
    if evs == [] then 0
    else
      var m' := Suceder(c, m, evs[0]);
      (if evs[0].Comenzar? && m'.b.state != Open then 1 else 0) + Arranques(c, m', evs[1..])
  }

  /** Sequential calls of an operation that fails, as a run; a refused call has no second half. */
  function EventosDe(ls: seq<Llamada>): seq<Evento> {
    if ls == [] then [] else [Comenzar(ls[0].inicio), Terminar(false, ls[0].fin)] + EventosDe(ls[1..])
  }

  /** Counting starts on the breaker alone is counting them in the run. */
  lemma {:induction false} IniciadasSonArranques(c: Config, m: Sistema, ls: seq<Llamada>)
    requires m.enVuelo == 0
    ensures Arranques(c, m, EventosDe(ls)) == Iniciadas(c, m.b, ls)
    decreases |ls|
  {
    if ls != [] {
      var evs, l := EventosDe(ls), ls[0];
      var m1 := Suceder(c, m, Comenzar(l.inicio));
      var m2 := Suceder(c, m1, Terminar(false, l.fin));
      assert evs[0] == Comenzar(l.inicio) && evs[1..][0] == Terminar(false, l.fin) && evs[1..][1..] == EventosDe(ls[1..]);
      assert Arranques(c, m1, evs[1..]) == Arranques(c, m2, EventosDe(ls[1..]));
      IniciadasSonArranques(c, m2, ls[1..]);
    }
  }

  /** The call bound, on runs of the breaker and its history. */
  lemma CotaDeArranques(c: Config, ls: seq<Llamada>, limite: nat)
    requires EnOrden(ls, limite)
    ensures Arranques(c, Sistema(Nuevo(), [], 0), EventosDe(ls)) <= c.failureThreshold + limite / c.openTimeout
  {
    IniciadasSonArranques(c, Sistema(Nuevo(), [], 0), ls);
    CotaDeLlamadas(c, ls, limite);
  }

  function Comienzos(n: nat, ahora: int): seq<Evento> {
    seq(n, i requires 0 <= i < n => Comenzar(ahora))
  }

  /** A half-open breaker lets any number of calls through at once, not a single probe. */
  lemma {:induction false} SinLimiteDePruebas(c: Config, m: Sistema, n: nat, ahora: int)
    requires m.b.state == HalfOpen
    ensures Arranques(c, m, Comienzos(n, ahora)) == n
    ensures Ejecutar(c, m, Comienzos(n, ahora)) == m.(enVuelo := m.enVuelo + n)
    decreases n
  {
    if n != 0 {
      assert Comienzos(n, ahora)[1..] == Comienzos(n - 1, ahora);
      SinLimiteDePruebas(c, m.(enVuelo := m.enVuelo + 1), n - 1, ahora);
    }
  }

  // ---- The object ---------------------------------------------------------------------------------

  class CircuitBreaker {
    var state: CBState
    var failureCount: int
    var successCount: int
    var lastFailureTime: int
    const config: Config
    ghost var historia: seq<Suceso>
    ghost var enVuelo: nat

    ghost function Abs(): Sistema
      reads this
    {
      Sistema(CB(state, failureCount, successCount, lastFailureTime), historia, enVuelo)
    }

    ghost predicate Valid()
      reads this
    {
      Refina(config, Abs())
    }

    constructor (failures: int, successes: int, timeout: int, segundo: Positivo)
      ensures Valid() && Abs() == Sistema(Nuevo(), [], 0)
      ensures config == ConfigDe(failures, successes, timeout, segundo)
    {
      config := Config(if failures <= 0 then 5 else failures, if successes <= 0 then 2 else successes,
                       if timeout <= 0 then 60 * segundo else timeout);
      state, failureCount, successCount, lastFailureTime := Closed, 0, 0, 0;
      historia, enVuelo := [], 0;
    }

    method State(now: int) returns (s: CBState)
      requires Valid()
      modifies this
      ensures Valid() && Abs() == Suceder(config, old(Abs()), Mirar(now))
      ensures s == state == (if old(state) == Open && now - old(lastFailureTime) >= config.openTimeout then HalfOpen else old(state))
    {
      ObservarRefina(config, Abs(), now);
      if state == Open && now - lastFailureTime >= config.openTimeout {
        state := HalfOpen;
        successCount := 0;
        historia := historia + [Prueba(now)];
      }
      s := state;
    }

    /** The first half of Execute: false is ErrCircuitOpen. */
    method Begin(now: int) returns (admitida: bool)
      requires Valid()
      modifies this
      ensures Valid() && Abs() == Suceder(config, old(Abs()), Comenzar(now))
      ensures admitida <==> state != Open
    {
      var s := State(now);
      admitida := s != Open;
      if admitida {
        enVuelo := enVuelo + 1;
      }
    }

    /** The second half of Execute, under the lock. */
    method End(ok: bool, now: int)
      requires Valid() && enVuelo > 0
      modifies this
      ensures Valid() && Abs() == Suceder(config, old(Abs()), Terminar(ok, now))
    {
      if ok {
        ExitoRefina(config, Abs());
        OnSuccess();
      } else {
        FalloRefina(config, Abs(), now);
        OnFailure(now);
      }
      enVuelo := enVuelo - 1;
    }

    method OnFailure(now: int)
      modifies this
      ensures Abs() == TrasFallo(config, old(Abs()), now)
    {
      failureCount := failureCount + 1;
      lastFailureTime := now;
      historia := historia + [Fallo(now)];
      match state
      case Closed =>
        if failureCount >= config.failureThreshold {
          state := Open;
          successCount := 0;
          historia := historia + [Abre];
        }
      case HalfOpen =>
        state := Open;
        failureCount := 0;
        historia := historia + [Abre];
      case Open =>
    }

    method OnSuccess()
      modifies this
      ensures Abs() == TrasExito(config, old(Abs()))
    {
      historia := historia + [Exito];
      match state
      case Closed =>
        failureCount := 0;
      case HalfOpen =>
        successCount := successCount + 1;
        if successCount >= config.successThreshold {
          state := Closed;
          failureCount := 0;
          successCount := 0;
          historia := historia + [Cierra];
        }
      case Open =>
    }
  }
}
