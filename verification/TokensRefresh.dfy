/**
 * Login, refresh rotation and logout.  A token is an unforgeable record named by its jti;
 * times are in nanoseconds and `exp` is in whole seconds, as in section 4.1.4 of RFC 7519.
 * A call reads the clock several times, and each reading is a time of its own here.
 */
module TokensRefresh {
  import opened Aritmetica

  /** Lifetimes of access and refresh tokens. */
  datatype Config = Config(acceso: Positivo, refresco: Positivo)

  datatype Token = Token(esRefresh: bool, exp: int)

  /**
   * `revocados` maps a jti to the instant its Redis key lapses.  `usados`, `logins` and
   * `repetidos` are history: the refresh tokens accepted so far, the successful logins, and
   * how many of the acceptances were of a token accepted before.
   */
  datatype Estado = Estado(emitidos: seq<Token>, revocados: map<nat, int>, reloj: int, usados: seq<nat>, logins: nat,
                           repetidos: nat)

  function Inicial(): Estado {
    Estado([], map[], 0, [], 0, 0)
  }

  /** The readings of one Refresh: parsing, Exists, Set, and issuing the two tokens. */
  datatype Lecturas = Lecturas(parse: int, existe: int, fija: int, acceso: int, refresco: int)

  predicate EnOrden(t: Lecturas) {
    t.parse <= t.existe <= t.fija <= t.acceso <= t.refresco
  }

  function ExpDe(ahora: int, duracion: Positivo): int {
    (ahora + duracion) / SEGUNDO
  }

  /** The parser's check: now is before exp. */
  predicate Vigente(tok: Token, ahora: int) {
    ahora < tok.exp * SEGUNDO
  }

  /** The key of a revoked token is still in Redis. */
  predicate Revocado(s: Estado, jti: nat, ahora: int) {
    jti in s.revocados && ahora < s.revocados[jti]
  }

  /** A new pair: the access token and then the refresh token. */
  function Emitir(c: Config, s: Estado, acceso: int, refresco: int): Estado {
    s.(emitidos := s.emitidos + [Token(false, ExpDe(acceso, c.acceso)), Token(true, ExpDe(refresco, c.refresco))])
  }

  function TrasLogin(c: Config, s: Estado, acceso: int, refresco: int): Estado {
    Emitir(c, s, acceso, refresco).(reloj := refresco, logins := s.logins + 1)
  }

  /** Every check of Refresh up to the revocation. */
  predicate Aceptable(s: Estado, jti: nat, t: Lecturas, activo: bool) {
    && jti < |s.emitidos| && Vigente(s.emitidos[jti], t.parse) && s.emitidos[jti].esRefresh
    && !Revocado(s, jti, t.existe) && activo
  }

  /** What Redis answers: whether each call did, and whether a failed write was applied. */
  datatype Redis = Redis(lee: bool, graba: bool, aplicada: bool)

  function Revocar(c: Config, s: Estado, jti: nat, t: Lecturas): Estado {
    s.(reloj := t.refresco, revocados := s.revocados[jti := t.fija + c.refresco])
  }

  /** The exchange itself, once everything passed. */
  function Canje(c: Config, s: Estado, jti: nat, t: Lecturas): Estado {
    Emitir(c, Revocar(c, s, jti, t), t.acceso, t.refresco)
      .(usados := s.usados + [jti], repetidos := s.repetidos + (if jti in s.usados then 1 else 0))
  }

  function TrasRefresh(c: Config, s: Estado, jti: nat, t: Lecturas, activo: bool, r: Redis): (Estado, bool) {
    if !r.lee || !Aceptable(s, jti, t, activo) then (s.(reloj := t.refresco), false)
    else if !r.graba then (if r.aplicada then Revocar(c, s, jti, t) else s.(reloj := t.refresco), false)
    else (Canje(c, s, jti, t), true)
  }

  /** Logout of a valid access token: revoked for its remaining lifetime. */
  function TrasLogout(s: Estado, jti: nat, ahora: int): Estado {
    if jti < |s.emitidos| && !s.emitidos[jti].esRefresh && Vigente(s.emitidos[jti], ahora) then
      s.(reloj := ahora, revocados := s.revocados[jti := s.emitidos[jti].exp * SEGUNDO])
    else s.(reloj := ahora)
  }

  datatype Evento =
    | Entrar(acceso: int, refresco: int)
    | Renovar(jti: nat, t: Lecturas, activo: bool, redis: Redis)
    | Salir(jti: nat, ahora: int)

  function Suceder(c: Config, s: Estado, ev: Evento): Estado {
    match ev
    case Entrar(a, r) => TrasLogin(c, s, a, r)
    case Renovar(j, t, activo, redis) => TrasRefresh(c, s, j, t, activo, redis).0
    case Salir(j, t) => TrasLogout(s, j, t)
  }

  function Correr(c: Config, s: Estado, evs: seq<Evento>): Estado
    decreases |evs|
  {
    if evs == [] then s else Correr(c, Suceder(c, s, evs[0]), evs[1..])
  }

  /** The clock does not go back within a call, nor from the last reading. */
  predicate Despues(reloj: int, ev: Evento) {
    match ev
    case Entrar(a, r) => reloj <= a <= r
    case Renovar(_, t, _, _) => reloj <= t.parse && EnOrden(t)
    case Salir(_, t) => reloj <= t
  }

  predicate Cronologico(c: Config, s: Estado, evs: seq<Evento>)
    decreases |evs|
  {
    evs == [] || (Despues(s.reloj, evs[0]) && Cronologico(c, Suceder(c, s, evs[0]), evs[1..]))
  }

  // ---- Single use -----------------------------------------------------------------------------

  predicate SinRepetidos(xs: seq<nat>) {
    forall i, j | 0 <= i < j < |xs| :: xs[i] != xs[j]
  }

  /** Refresh tokens not yet exchanged. */
  function SinUsar(s: Estado): set<nat> {
    set j | 0 <= j < |s.emitidos| && s.emitidos[j].esRefresh && j !in s.usados
  }

  /**
   * A used token is revoked until its exp at least; each acceptance beyond the first of a
   * token leaves one unused token more than there were logins.
   */
  predicate Coherente(c: Config, s: Estado) {
    && (SinRepetidos(s.usados) <==> s.repetidos == 0)
    && (forall j | j in s.usados ::
          j < |s.emitidos| && j in s.revocados && s.emitidos[j].exp * SEGUNDO <= s.revocados[j])
    && (forall j | 0 <= j < |s.emitidos| && s.emitidos[j].esRefresh :: s.emitidos[j].exp * SEGUNDO <= s.reloj + c.refresco)
    && |SinUsar(s)| == s.logins + s.repetidos
  }

  /**
   * The one way in for a used token: it was parsed before its exp, and Exists was asked only
   * once the revocation had lapsed.
   */
  predicate LlegaTarde(s: Estado, ev: Evento) {
    && ev.Renovar? && ev.jti in s.usados && ev.jti < |s.emitidos|
    && Vigente(s.emitidos[ev.jti], ev.t.parse) && !Revocado(s, ev.jti, ev.t.existe)
    && s.emitidos[ev.jti].esRefresh && ev.activo && ev.redis.lee && ev.redis.graba
  }

  function Tardes(c: Config, s: Estado, evs: seq<Evento>): nat
    decreases |evs|
  {
    if evs == [] then 0 else (if LlegaTarde(s, evs[0]) then 1 else 0) + Tardes(c, Suceder(c, s, evs[0]), evs[1..])
  }

  /** In every refresh, Redis is asked before the token's exp if it was parsed before it. */
  predicate Puntual(c: Config, s: Estado, evs: seq<Evento>)
    decreases |evs|
  {
    evs == [] ||
    ((evs[0].Renovar? && evs[0].jti < |s.emitidos| && Vigente(s.emitidos[evs[0].jti], evs[0].t.parse) ==>
        Vigente(s.emitidos[evs[0].jti], evs[0].t.existe)) &&
     Puntual(c, Suceder(c, s, evs[0]), evs[1..]))
  }

  lemma ExpCabe(ahora: int, d: Positivo)
    ensures ExpDe(ahora, d) * SEGUNDO <= ahora + d
  {
  }

  lemma SinUsarAgrega(c: Config, s: Estado, a: int, r: int)
    requires forall j | j in s.usados :: j < |s.emitidos|
    ensures SinUsar(Emitir(c, s, a, r)) == SinUsar(s) + {|s.emitidos| + 1}
    ensures |s.emitidos| + 1 !in SinUsar(s)
  {
    var s' := Emitir(c, s, a, r);
    var n := |s.emitidos|;
    assert s'.emitidos[n] == Token(false, ExpDe(a, c.acceso));
    assert s'.emitidos[n + 1].esRefresh && n + 1 !in s.usados;
    forall j ensures j in SinUsar(s') <==> j in SinUsar(s) + {n + 1} {
      if 0 <= j < n {
        assert s'.emitidos[j] == s.emitidos[j];
      }
    }
  }

  lemma EntrarCoherente(c: Config, s: Estado, a: int, r: int)
    requires Coherente(c, s) && s.reloj <= a <= r
    ensures Coherente(c, TrasLogin(c, s, a, r))
  {
    var s' := TrasLogin(c, s, a, r);
    SinUsarAgrega(c, s, a, r);
    assert SinUsar(s') == SinUsar(Emitir(c, s, a, r));
    ExpCabe(r, c.refresco);
  }

  /** An exchange issues a token, and spends one the first time. */
  lemma CanjeCuenta(c: Config, s: Estado, j: nat, t: Lecturas)
    requires forall x | x in s.usados :: x < |s.emitidos|
    requires j < |s.emitidos| && s.emitidos[j].esRefresh
    ensures |SinUsar(Canje(c, s, j, t))| == |SinUsar(s)| + (if j in s.usados then 1 else 0)
  {
    CanjeSinUsar(c, s, j, t);
    CambiaUno(SinUsar(s), j, |s.emitidos| + 1);
  }

  lemma CanjeSinUsar(c: Config, s: Estado, j: nat, t: Lecturas)
    requires (forall x | x in s.usados :: x < |s.emitidos|) && j < |s.emitidos|
    ensures SinUsar(Canje(c, s, j, t)) == SinUsar(s) - {j} + {|s.emitidos| + 1}
    ensures |s.emitidos| + 1 !in SinUsar(s)
  {
    var s1 := Revocar(c, s, j, t);
    SinUsarAgrega(c, s1, t.acceso, t.refresco);
    assert SinUsar(s1) == SinUsar(s);
    assert SinUsar(Canje(c, s, j, t)) == SinUsar(Emitir(c, s1, t.acceso, t.refresco)) - {j};
  }

  lemma CambiaUno(a: set<nat>, j: nat, x: nat)
    requires x !in a && x != j
    ensures |a - {j} + {x}| == |a| + (if j in a then 0 else 1)
  {
    if j !in a {
      assert a - {j} == a;
    }
  }

  lemma UsadosAgrega(xs: seq<nat>, j: nat)
    ensures SinRepetidos(xs + [j]) <==> SinRepetidos(xs) && j !in xs
  {
    var ys := xs + [j];
    assert forall i | 0 <= i < |xs| :: ys[i] == xs[i];
    assert ys[|xs|] == j;
    if j in xs {
      var i :| 0 <= i < |xs| && xs[i] == j;
      assert ys[i] == ys[|xs|];
    }
    if SinRepetidos(ys) {
      forall i, k | 0 <= i < k < |xs| ensures xs[i] != xs[k] {
        assert ys[i] != ys[k];
      }
    }
  }

  /** The spent token is revoked for longer than it could live. */
  lemma CanjeCoherente(c: Config, s: Estado, j: nat, t: Lecturas)
    requires Coherente(c, s) && s.reloj <= t.parse && EnOrden(t)
    requires j < |s.emitidos| && s.emitidos[j].esRefresh
    ensures Coherente(c, Canje(c, s, j, t))
  {
    var s' := Canje(c, s, j, t);
    CanjeCuenta(c, s, j, t);
    UsadosAgrega(s.usados, j);
    ExpCabe(t.refresco, c.refresco);
    forall x | x in s'.usados
      ensures x < |s'.emitidos| && x in s'.revocados && s'.emitidos[x].exp * SEGUNDO <= s'.revocados[x]
    {
      assert x == j || x in s.usados;
    }
  }

  lemma RenovarCoherente(c: Config, s: Estado, ev: Evento)
    requires Coherente(c, s) && ev.Renovar? && Despues(s.reloj, ev)
    ensures var (s', acepta) := TrasRefresh(c, s, ev.jti, ev.t, ev.activo, ev.redis);
            Coherente(c, s') && (acepta && ev.jti in s.usados <==> LlegaTarde(s, ev)) &&
            s'.repetidos == s.repetidos + (if LlegaTarde(s, ev) then 1 else 0)
  {
    var s' := Suceder(c, s, ev);
    if ev.redis.lee && Aceptable(s, ev.jti, ev.t, ev.activo) && ev.redis.graba {
      CanjeCoherente(c, s, ev.jti, ev.t);
    } else {
      assert SinUsar(s') == SinUsar(s);
    }
  }

  lemma SalirCoherente(c: Config, s: Estado, j: nat, t: int)
    requires Coherente(c, s) && s.reloj <= t
    ensures Coherente(c, TrasLogout(s, j, t))
  {
    assert SinUsar(TrasLogout(s, j, t)) == SinUsar(s);
  }

  lemma {:induction false} SiempreCoherente(c: Config, s: Estado, evs: seq<Evento>)
    requires Coherente(c, s) && Cronologico(c, s, evs)
    ensures Coherente(c, Correr(c, s, evs))
    ensures Correr(c, s, evs).repetidos == s.repetidos + Tardes(c, s, evs)
    decreases |evs|
  {
    if evs != [] {
      match evs[0] {
        case Entrar(a, r) => EntrarCoherente(c, s, a, r);
        case Renovar(_, _, _, _) => RenovarCoherente(c, s, evs[0]);
        case Salir(j, t) => SalirCoherente(c, s, j, t);
      }
      SiempreCoherente(c, Suceder(c, s, evs[0]), evs[1..]);
    }
  }

  /** A call that asks Redis in time never lets a used token in. */
  lemma {:induction false} PuntualSinTardes(c: Config, s: Estado, evs: seq<Evento>)
    requires Coherente(c, s) && Cronologico(c, s, evs) && Puntual(c, s, evs)
    ensures Tardes(c, s, evs) == 0
    decreases |evs|
  {
    if evs != [] {
      SiempreCoherente(c, s, [evs[0]]);
      assert Correr(c, s, [evs[0]]) == Correr(c, Suceder(c, s, evs[0]), []);
      PuntualSinTardes(c, Suceder(c, s, evs[0]), evs[1..]);
    }
  }

  /** The refresh tokens that Refresh would still take from an active user. */
  function Vivos(s: Estado, ahora: int): set<nat> {
    set j | 0 <= j < |s.emitidos| && Aceptable(s, j, Lecturas(ahora, ahora, ahora, ahora, ahora), true)
  }

  /**
   * Over any serial run, exactly when no refresh token was ever accepted twice: when no call
   * parsed a used token before its exp and asked for its revocation after that had lapsed.
   * The live unrevoked tokens outnumber the logins by those late calls at most.
   */
  lemma UnSoloUsoSiSoloSi(c: Config, evs: seq<Evento>, ahora: int)
    requires Cronologico(c, Inicial(), evs)
    ensures var s := Correr(c, Inicial(), evs);
            (SinRepetidos(s.usados) <==> Tardes(c, Inicial(), evs) == 0) &&
            (forall j | j in s.usados :: j !in Vivos(s, ahora)) &&
            |Vivos(s, ahora)| <= s.logins + Tardes(c, Inicial(), evs)
  {
    assert SinUsar(Inicial()) == {};
    SiempreCoherente(c, Inicial(), evs);
    var s := Correr(c, Inicial(), evs);
    assert Vivos(s, ahora) <= SinUsar(s);
    Subconjunto(Vivos(s, ahora), SinUsar(s));
  }

  /**
   * When every call that parses a token before its exp also asks Redis before it -- in
   * particular when a call reads the clock once -- no refresh token is accepted twice, ever,
   * and the live unrevoked ones never outnumber the successful logins.
   */
  lemma UnSoloUso(c: Config, evs: seq<Evento>, ahora: int)
    requires Cronologico(c, Inicial(), evs) && Puntual(c, Inicial(), evs)
    ensures var s := Correr(c, Inicial(), evs);
            SinRepetidos(s.usados) &&
            (forall j | j in s.usados :: j !in Vivos(s, ahora)) &&
            |Vivos(s, ahora)| <= s.logins
  {
    assert SinUsar(Inicial()) == {};
    PuntualSinTardes(c, Inicial(), evs);
    UnSoloUsoSiSoloSi(c, evs, ahora);
  }

  /** A late call: parsed one nanosecond before exp, and asked when the revocation has lapsed. */
  lemma TardeEntra()
    ensures var c := Config(SEGUNDO, 10 * SEGUNDO);
            var bien := Redis(true, true, false);
            var fin := 10 * SEGUNDO;
            var evs := [Entrar(0, 0), Renovar(1, Lecturas(0, 0, 0, 0, 0), true, bien),
                        Renovar(1, Lecturas(fin - 1, fin, fin, fin, fin), true, bien)];
            Cronologico(c, Inicial(), evs) && Correr(c, Inicial(), evs).usados == [1, 1]
  {
    var c := Config(SEGUNDO, 10 * SEGUNDO);
    var bien := Redis(true, true, false);
    var fin := 10 * SEGUNDO;
    var e1, e2 := Renovar(1, Lecturas(0, 0, 0, 0, 0), true, bien), Renovar(1, Lecturas(fin - 1, fin, fin, fin, fin), true, bien);
    var evs := [Entrar(0, 0), e1, e2];
    var s1 := Suceder(c, Inicial(), Entrar(0, 0));
    assert s1.emitidos == [Token(false, 1), Token(true, 10)];
    var s2 := Suceder(c, s1, e1);
    assert s2.usados == [1] && s2.emitidos[1] == Token(true, 10) && s2.revocados[1] == fin;
    var s3 := Suceder(c, s2, e2);
    assert s3.usados == [1, 1];
    assert evs[1..] == [e1, e2] && [e1, e2][1..] == [e2] && [e2][1..] == [];
    assert Cronologico(c, s3, []);
    assert Cronologico(c, s2, [e2]);
    assert Cronologico(c, s1, [e1, e2]);
    assert Correr(c, s2, [e2]) == Correr(c, s3, []);
    assert Correr(c, s1, [e1, e2]) == Correr(c, s2, [e2]);
  }

  lemma {:induction false} Subconjunto(a: set<nat>, b: set<nat>)
    requires a <= b
    ensures |a| <= |b|
    decreases |a|
  {
    if a != {} {
      var x :| x in a;
      Subconjunto(a - {x}, b - {x});
    }
  }

  // ---- What each call does -------------------------------------------------------------------

  /** A token of this type that expires `duracion` from now, to the second below. */
  predicate Dura(tok: Token, esRefresh: bool, ahora: int, duracion: Positivo) {
    tok.esRefresh == esRefresh && tok.exp * SEGUNDO <= ahora + duracion < tok.exp * SEGUNDO + SEGUNDO
  }

  /** s' is s with a new pair: an access token and then a refresh token. */
  predicate EmitePar(c: Config, s: Estado, s': Estado, a: int, r: int) {
    && |s'.emitidos| == |s.emitidos| + 2 && s'.emitidos[..|s.emitidos|] == s.emitidos
    && Dura(s'.emitidos[|s.emitidos|], false, a, c.acceso) && Dura(s'.emitidos[|s.emitidos| + 1], true, r, c.refresco)
  }

  lemma ExpExacta(ahora: int, d: Positivo)
    ensures ExpDe(ahora, d) * SEGUNDO <= ahora + d < ExpDe(ahora, d) * SEGUNDO + SEGUNDO
  {
  }

  lemma LoginExacto(c: Config, s: Estado, a: int, r: int)
    ensures var s' := TrasLogin(c, s, a, r);
            EmitePar(c, s, s', a, r) && s'.revocados == s.revocados && s'.usados == s.usados && s'.logins == s.logins + 1
  {
    ExpExacta(a, c.acceso);
    ExpExacta(r, c.refresco);
  }

  /**
   * A refresh is accepted exactly when its token was issued, is a refresh token, is parsed
   * before its exp and looked up outside any revocation, its user is active, and Redis answers
   * both calls.  Then the old token is revoked for one refresh lifetime from the write, and a
   * pair is issued.  A refused one issues nothing, and revokes at most by a write unanswered.
   */
  lemma RefreshExacto(c: Config, s: Estado, j: nat, t: Lecturas, activo: bool, r: Redis)
    ensures var (s', acepta) := TrasRefresh(c, s, j, t, activo, r);
            var pasa := j < |s.emitidos| && s.emitidos[j].esRefresh && t.parse < s.emitidos[j].exp * SEGUNDO && activo &&
                        r.lee && (j in s.revocados ==> s.revocados[j] <= t.existe);
            (acepta <==> pasa && r.graba) && s'.logins == s.logins &&
            (acepta ==>
               EmitePar(c, s, s', t.acceso, t.refresco) && s'.usados == s.usados + [j] &&
               s'.revocados == s.revocados[j := t.fija + c.refresco]) &&
            (!acepta ==>
               s'.emitidos == s.emitidos && s'.usados == s.usados &&
               s'.revocados == (if pasa && r.aplicada then s.revocados[j := t.fija + c.refresco] else s.revocados))
  {
    ExpExacta(t.acceso, c.acceso);
    ExpExacta(t.refresco, c.refresco);
  }

  /** Logout leaves a live access token revoked exactly until its exp, and any other token alone. */
  lemma LogoutExacto(s: Estado, j: nat, ahora: int)
    ensures var s' := TrasLogout(s, j, ahora);
            s'.emitidos == s.emitidos && s'.usados == s.usados && s'.logins == s.logins &&
            if j < |s.emitidos| && !s.emitidos[j].esRefresh && ahora < s.emitidos[j].exp * SEGUNDO
            then (forall x: int :: Revocado(s', j, x) <==> x < s.emitidos[j].exp * SEGUNDO) &&
                 (forall k: nat, x: int | k != j :: Revocado(s', k, x) <==> Revocado(s, k, x))
            else s'.revocados == s.revocados
  {
  }

  /** Only exchanged refresh tokens are revoked. */
  predicate SoloUsadosRevocados(s: Estado) {
    forall j | j in s.revocados :: j < |s.emitidos| && (s.emitidos[j].esRefresh ==> j in s.usados)
  }

  /** No revocation of the run was applied without being answered. */
  predicate SinEscriturasPerdidas(evs: seq<Evento>) {
    forall i | 0 <= i < |evs| && evs[i].Renovar? :: evs[i].redis.graba || !evs[i].redis.aplicada
  }

  lemma {:induction false} CorrerSoloUsados(c: Config, s: Estado, evs: seq<Evento>)
    requires SoloUsadosRevocados(s) && SinEscriturasPerdidas(evs)
    ensures SoloUsadosRevocados(Correr(c, s, evs))
    decreases |evs|
  {
    if evs != [] {
      UnoSoloUsados(c, s, evs[0]);
      CorrerSoloUsados(c, Suceder(c, s, evs[0]), evs[1..]);
    }
  }

  lemma UnoSoloUsados(c: Config, s: Estado, ev: Evento)
    requires SoloUsadosRevocados(s) && (ev.Renovar? ==> ev.redis.graba || !ev.redis.aplicada)
    ensures SoloUsadosRevocados(Suceder(c, s, ev))
  {
    var s' := Suceder(c, s, ev);
    forall j | j in s'.revocados ensures j < |s'.emitidos| && (s'.emitidos[j].esRefresh ==> j in s'.usados) {
      if j in s.revocados {
        assert s'.emitidos[j] == s.emitidos[j];
      }
    }
  }

  /**
   * After any run without lost writes, a refresh token not yet exchanged is accepted from an
   * active user whenever it is parsed before its exp and Redis answers.
   */
  lemma NuncaUsadoEntra(c: Config, evs: seq<Evento>, j: nat, t: Lecturas)
    requires SinEscriturasPerdidas(evs)
    requires var s := Correr(c, Inicial(), evs);
             j < |s.emitidos| && s.emitidos[j].esRefresh && j !in s.usados && t.parse < s.emitidos[j].exp * SEGUNDO
    ensures TrasRefresh(c, Correr(c, Inicial(), evs), j, t, true, Redis(true, true, true)).1
  {
    CorrerSoloUsados(c, Inicial(), evs);
    RefreshExacto(c, Correr(c, Inicial(), evs), j, t, true, Redis(true, true, true));
  }

  // ---- The service ---------------------------------------------------------------------------------

  class AuthService {
    const config: Config
    var emitidos: seq<Token>
    var revocados: map<nat, int>
    ghost var reloj: int
    ghost var usados: seq<nat>
    ghost var logins: nat
    ghost var repetidos: nat

    ghost function Abs(): Estado
      reads this
    {
      Estado(emitidos, revocados, reloj, usados, logins, repetidos)
    }

    ghost predicate Valid()
      reads this
    {
      Coherente(config, Abs())
    }

    constructor (config: Config)
      ensures Valid() && this.config == config && Abs() == Inicial()
    {
      this.config := config;
      emitidos, revocados, reloj, usados, logins, repetidos := [], map[], 0, [], 0, 0;
      new;
      assert SinUsar(Abs()) == {};
    }

    method GenerateToken(duracion: Positivo, esRefresh: bool, ahora: int) returns (jti: nat)
      modifies this`emitidos
      ensures jti == |old(emitidos)| && emitidos == old(emitidos) + [Token(esRefresh, ExpDe(ahora, duracion))]
    {
      jti := |emitidos|;
      emitidos := emitidos + [Token(esRefresh, (ahora + duracion) / SEGUNDO)];
    }

    method Login(t1: int, t2: int) returns (acceso: nat, refresco: nat)
      requires Valid() && reloj <= t1 <= t2
      modifies this
      ensures Valid() && Abs() == TrasLogin(config, old(Abs()), t1, t2)
      ensures refresco !in old(SinUsar(Abs())) && refresco in SinUsar(Abs())
    {
      EntrarCoherente(config, Abs(), t1, t2);
      acceso := GenerateToken(config.acceso, false, t1);
      refresco := GenerateToken(config.refresco, true, t2);
      reloj, logins := t2, logins + 1;
      assert emitidos == old(emitidos) + [Token(false, ExpDe(t1, config.acceso)), Token(true, ExpDe(t2, config.refresco))];
    }

    method Refresh(jti: nat, t: Lecturas, activo: bool, redis: Redis) returns (acepta: bool)
      requires Valid() && reloj <= t.parse && EnOrden(t)
      modifies this
      ensures Valid()
      ensures (Abs(), acepta) == TrasRefresh(config, old(Abs()), jti, t, activo, redis)
      ensures acepta && jti in old(usados) <==> old(LlegaTarde(Abs(), Renovar(jti, t, activo, redis)))
    {
      RenovarCoherente(config, Abs(), Renovar(jti, t, activo, redis));
      var pasa := Verificar(jti, t, activo, redis.lee);
      reloj := t.refresco;
      if pasa {
        acepta := Canjear(jti, t, redis);
      } else {
        acepta := false;
      }
    }

    /** Revoking the old token and then issuing the new pair. */
    method Canjear(jti: nat, t: Lecturas, redis: Redis) returns (acepta: bool)
      modifies this
      ensures acepta == redis.graba
      ensures Abs() == if acepta then Canje(config, old(Abs()), jti, t)
                       else if redis.aplicada then Revocar(config, old(Abs()), jti, t)
                       else old(Abs()).(reloj := t.refresco)
    {
      reloj := t.refresco;
      if redis.graba || redis.aplicada {
        revocados := revocados[jti := t.fija + config.refresco];
      }
      if !redis.graba {
        return false;
      }
      EmitirPar(t.acceso, t.refresco);
      repetidos := repetidos + (if jti in usados then 1 else 0);
      usados := usados + [jti];
      return true;
    }

    method EmitirPar(t1: int, t2: int)
      modifies this`emitidos
      ensures emitidos == old(emitidos) + [Token(false, ExpDe(t1, config.acceso)), Token(true, ExpDe(t2, config.refresco))]
    {
      var a := GenerateToken(config.acceso, false, t1);
      var r := GenerateToken(config.refresco, true, t2);
      assert emitidos == old(emitidos) + [Token(false, ExpDe(t1, config.acceso)), Token(true, ExpDe(t2, config.refresco))];
    }

    /** The checks of Refresh, in order. */
    method Verificar(jti: nat, t: Lecturas, activo: bool, lee: bool) returns (pasa: bool)
      ensures pasa <==> lee && Aceptable(Abs(), jti, t, activo)
    {
      if jti >= |emitidos| || t.parse >= emitidos[jti].exp * SEGUNDO {
        return false;
      }
      if !emitidos[jti].esRefresh {
        return false;
      }
      if !lee {
        return false;
      }
      if jti in revocados && t.existe < revocados[jti] {
        return false;
      }
      return activo;
    }

    /** Logout, reached only with an access token: the key lives as long as the token would. */
    method Logout(jti: nat, ahora: int)
      requires Valid() && reloj <= ahora
      modifies this
      ensures Valid() && Abs() == TrasLogout(old(Abs()), jti, ahora)
    {
      SalirCoherente(config, Abs(), jti, ahora);
      reloj := ahora;
      if jti < |emitidos| && !emitidos[jti].esRefresh {
        var remaining := emitidos[jti].exp * SEGUNDO - ahora;
        if remaining > 0 {
          revocados := revocados[jti := ahora + remaining];
        }
      }
    }
  }
}
