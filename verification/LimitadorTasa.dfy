/**
 * The fixed-window rate limiter: counters in Redis, with a stricter in-memory fallback when
 * Redis errs.  Times and windows are in nanoseconds, and each request reads the clock once.
 */
module LimitadorTasa {
  import opened Aritmetica

  /** The window in whole seconds, truncated; sixty when it has none. */
  function SegundosDe(ventana: Positivo): Positivo {
    if ventana / SEGUNDO < 1 then 60 else ventana / SEGUNDO
  }

  function Bucket(ventana: Positivo, ahora: nat): nat {
    (ahora / SEGUNDO) / SegundosDe(ventana)
  }

  /** limit / 2, at most 3 and at least 1. */
  function MemLimit(limite: nat): Positivo {
    var m := limite / 2;
    var n := if m > 3 then 3 else m;
    if n < 1 then 1 else n
  }

  datatype Clave = Clave(prefijo: string, ip: string, bucket: nat)
  datatype Entrada = Entrada(cuenta: int, expira: int)

  /** What Redis answers: none configured, an error, or the value of INCR. */
  datatype Redis = SinCliente | Falla(aplicada: bool) | Responde(ajenas: nat)

  datatype Solicitud = Solicitud(prefijo: string, ip: string, limite: nat, ahora: nat, redis: Redis)

  /** The process's memory store and the counters of the Redis server. */
  datatype Proceso = Proceso(mem: map<Clave, Entrada>, servidor: map<Clave, nat>)

  function ClaveDe(ventana: Positivo, r: Solicitud): Clave {
    Clave(r.prefijo, r.ip, Bucket(ventana, r.ahora))
  }

  function EnServidor(p: Proceso, k: Clave): nat {
    if k in p.servidor then p.servidor[k] else 0
  }

  /** memIncr: a fresh entry when there is none or it has expired. */
  function MemIncr(mem: map<Clave, Entrada>, k: Clave, ventana: Positivo, ahora: nat): map<Clave, Entrada> {
    if k !in mem || ahora > mem[k].expira then mem[k := Entrada(1, ahora + ventana)]
    else mem[k := mem[k].(cuenta := mem[k].cuenta + 1)]
  }

  /** One request: the new counters, and whether it is let through. */
  function Atender(ventana: Positivo, p: Proceso, r: Solicitud): (Proceso, bool) {
    var k := ClaveDe(ventana, r);
    match r.redis
    case SinCliente =>
      var mem := MemIncr(p.mem, k, ventana, r.ahora);
      (p.(mem := mem), mem[k].cuenta <= r.limite)
    case Falla(aplicada) =>
      var mem := MemIncr(p.mem, k, ventana, r.ahora);
      (Proceso(mem, if aplicada then p.servidor[k := EnServidor(p, k) + 1] else p.servidor),
       mem[k].cuenta <= MemLimit(r.limite))
    case Responde(ajenas) =>
      var n := EnServidor(p, k) + ajenas + 1;
      (p.(servidor := p.servidor[k := n]), n <= r.limite)
  }

  // ---- A memory entry lives through its own bucket ---------------------------------------

  /** Two instants of one bucket are less than its whole seconds apart. */
  lemma MismoBucket(ventana: Positivo, t0: nat, t1: nat)
    requires Bucket(ventana, t0) == Bucket(ventana, t1)
    ensures t1 - t0 < SegundosDe(ventana) * SEGUNDO
  {
    var w := SegundosDe(ventana);
    var s0, s1 := t0 / SEGUNDO, t1 / SEGUNDO;
    CotaCociente(s0, w);
    CotaCociente(s1, w);
    assert s1 - s0 < w;
    CotaCociente(t0, SEGUNDO);
    CotaCociente(t1, SEGUNDO);
  }

  lemma CotaCociente(x: nat, d: Positivo)
    ensures (x / d) * d <= x < (x / d) * d + d
  {
  }

  lemma SegundosCaben(ventana: Positivo)
    ensures SegundosDe(ventana) * SEGUNDO <= ventana <==> ventana >= SEGUNDO
  {
    CotaCociente(ventana, SEGUNDO);
  }

  /**
   * Exactly when no memory entry can expire inside its own bucket: when the window is at
   * least one second.  A shorter one is counted in buckets of sixty seconds.
   */
  lemma EntradaViveSiSoloSi(ventana: Positivo)
    ensures (forall t0: nat, t1: nat | Bucket(ventana, t0) == Bucket(ventana, t1) :: t1 <= t0 + ventana) <==>
            ventana >= SEGUNDO
  {
    SegundosCaben(ventana);
    if ventana >= SEGUNDO {
      forall t0: nat, t1: nat | Bucket(ventana, t0) == Bucket(ventana, t1) ensures t1 <= t0 + ventana {
        MismoBucket(ventana, t0, t1);
      }
    } else {
      assert SegundosDe(ventana) == 60;
      assert Bucket(ventana, 0) == 0;
      assert Bucket(ventana, ventana + 1) == 0;
    }
  }

  /** With a window below a second the limit fails: one per bucket, and two get through. */
  lemma VentanaCortaNoLimita(ventana: Positivo, prefijo: string, ip: string)
    requires ventana < SEGUNDO
    ensures var r0 := Solicitud(prefijo, ip, 1, 0, SinCliente);
            var r1 := Solicitud(prefijo, ip, 1, ventana + 1, SinCliente);
            ClaveDe(ventana, r0) == ClaveDe(ventana, r1) &&
            var (p, a0) := Atender(ventana, Proceso(map[], map[]), r0);
            a0 && Atender(ventana, p, r1).1
  {
    assert SegundosDe(ventana) == 60;
    assert Bucket(ventana, 0) == 0 && Bucket(ventana, ventana + 1) == 0;
  }

  // ---- Counting the requests let through ----------------------------------------------------

  /** Requests of one limiter (prefix and limit) for one key that get through. */
  function Admitidas(ventana: Positivo, p: Proceso, rs: seq<Solicitud>, k: Clave, limite: nat): nat
    decreases |rs|
  {
    if rs == [] then 0
    else
      var (p', pasa) := Atender(ventana, p, rs[0]);
      (if pasa && ClaveDe(ventana, rs[0]) == k && rs[0].limite == limite then 1 else 0) +
      Admitidas(ventana, p', rs[1..], k, limite)
  }

  /** Every memory entry was created inside its key's bucket. */
  predicate EnSuBucket(ventana: Positivo, mem: map<Clave, Entrada>) {
    forall k | k in mem :: mem[k].expira >= ventana && mem[k].cuenta >= 1 && Bucket(ventana, mem[k].expira - ventana) == k.bucket
  }

  /** A request counts one more on its key and leaves the other keys alone. */
  lemma MemCuenta(ventana: Positivo, mem: map<Clave, Entrada>, r: Solicitud)
    requires ventana >= SEGUNDO && EnSuBucket(ventana, mem)
    ensures var k := ClaveDe(ventana, r);
            var mem' := MemIncr(mem, k, ventana, r.ahora);
            EnSuBucket(ventana, mem') &&
            EnMemoria(mem', k) == EnMemoria(mem, k) + 1 == mem'[k].cuenta &&
            forall x | x != k :: EnMemoria(mem', x) == EnMemoria(mem, x)
  {
    var k := ClaveDe(ventana, r);
    if k in mem {
      MismoBucket(ventana, mem[k].expira - ventana, r.ahora);
      SegundosCaben(ventana);
    }
  }

  function EnMemoria(mem: map<Clave, Entrada>, k: Clave): int {
    if k in mem then mem[k].cuenta else 0
  }

  function Cupo(limite: nat, usado: int): nat {
    if usado >= limite then 0 else if usado < 0 then limite else limite - usado
  }

  /** What is left of the limit in Redis plus what is left of the fallback limit in memory. */
  function Margen(p: Proceso, k: Clave, limite: nat): nat {
    Cupo(limite, EnServidor(p, k)) + Cupo(MemLimit(limite), EnMemoria(p.mem, k))
  }

  predicate ConRedis(rs: seq<Solicitud>) {
    forall i | 0 <= i < |rs| :: !rs[i].redis.SinCliente?
  }

  predicate SinRedis(rs: seq<Solicitud>) {
    forall i | 0 <= i < |rs| :: rs[i].redis.SinCliente?
  }

  /**
   * Under any pattern of Redis failures, what remains to be let through is at most what
   * remains of the limit in Redis plus what remains of the fallback limit in memory.
   */
  lemma {:induction false} CupoConRedis(ventana: Positivo, p: Proceso, rs: seq<Solicitud>, k: Clave, limite: nat)
    requires ventana >= SEGUNDO && EnSuBucket(ventana, p.mem) && ConRedis(rs)
    ensures Admitidas(ventana, p, rs, k, limite) <= Margen(p, k, limite)
    decreases |rs|
  {
    if rs != [] {
      UnaConRedis(ventana, p, rs[0], k, limite);
      CupoConRedis(ventana, Atender(ventana, p, rs[0]).0, rs[1..], k, limite);
    }
  }

  /** One request lets through no more than the room it takes. */
  lemma UnaConRedis(ventana: Positivo, p: Proceso, r: Solicitud, k: Clave, limite: nat)
    requires ventana >= SEGUNDO && EnSuBucket(ventana, p.mem) && !r.redis.SinCliente?
    ensures var (p', pasa) := Atender(ventana, p, r);
            EnSuBucket(ventana, p'.mem) &&
            (if pasa && ClaveDe(ventana, r) == k && r.limite == limite then 1 else 0) + Margen(p', k, limite) <= Margen(p, k, limite)
  {
    MemCuenta(ventana, p.mem, r);
  }

  /** One process lets through at most limit + memLimit requests per address and bucket. */
  lemma CotaConRedis(ventana: Positivo, servidor: map<Clave, nat>, rs: seq<Solicitud>, k: Clave, limite: nat)
    requires ventana >= SEGUNDO && ConRedis(rs)
    ensures Admitidas(ventana, Proceso(map[], servidor), rs, k, limite) <= limite + MemLimit(limite)
  {
    CupoConRedis(ventana, Proceso(map[], servidor), rs, k, limite);
  }

  lemma {:induction false} CupoSinRedis(ventana: Positivo, p: Proceso, rs: seq<Solicitud>, k: Clave, limite: nat)
    requires ventana >= SEGUNDO && EnSuBucket(ventana, p.mem) && SinRedis(rs)
    ensures Admitidas(ventana, p, rs, k, limite) <= Cupo(limite, EnMemoria(p.mem, k))
    decreases |rs|
  {
    if rs != [] {
      MemCuenta(ventana, p.mem, rs[0]);
      CupoSinRedis(ventana, Atender(ventana, p, rs[0]).0, rs[1..], k, limite);
    }
  }

  /** Without Redis: at most limit per bucket. */
  lemma CotaSinRedis(ventana: Positivo, rs: seq<Solicitud>, k: Clave, limite: nat)
    requires ventana >= SEGUNDO && SinRedis(rs)
    ensures Admitidas(ventana, Proceso(map[], map[]), rs, k, limite) <= limite
  {
    CupoSinRedis(ventana, Proceso(map[], map[]), rs, k, limite);
  }

  // ---- The exact verdict -----------------------------------------------------------------------

  /** The window in whole seconds, and the fallback limit for each limit. */
  lemma ValoresExactos(ventana: Positivo, limite: nat)
    ensures ventana < SEGUNDO ==> SegundosDe(ventana) == 60
    ensures ventana >= SEGUNDO ==> SegundosDe(ventana) * SEGUNDO <= ventana < SegundosDe(ventana) * SEGUNDO + SEGUNDO
    ensures MemLimit(limite) == if limite < 4 then 1 else if limite < 6 then 2 else 3
  {
    CotaCociente(ventana, SEGUNDO);
  }

  /** The key of a request: its prefix, its address, and the bucket of its instant. */
  lemma ClaveExacta(ventana: Positivo, r: Solicitud)
    ensures var k, d := ClaveDe(ventana, r), SegundosDe(ventana) * SEGUNDO;
            k.prefijo == r.prefijo && k.ip == r.ip && k.bucket * d <= r.ahora < k.bucket * d + d
  {
    BucketEnNanos(ventana, r.ahora);
  }

  /** Requests of the run that counted in memory on key k. */
  function EnMemoriaDe(ventana: Positivo, rs: seq<Solicitud>, k: Clave): nat {
    if rs == [] then 0
    else EnMemoriaDe(ventana, rs[..|rs| - 1], k) +
         (if ClaveDe(ventana, rs[|rs| - 1]) == k && !rs[|rs| - 1].redis.Responde? then 1 else 0)
  }

  /** What the run put on the server's counter of key k, other processes' requests included. */
  function EnServidorDe(ventana: Positivo, rs: seq<Solicitud>, k: Clave): nat {
    if rs == [] then 0
    else
      var r := rs[|rs| - 1];
      EnServidorDe(ventana, rs[..|rs| - 1], k) +
      (if ClaveDe(ventana, r) != k then 0
       else match r.redis case SinCliente => 0 case Falla(aplicada) => if aplicada then 1 else 0 case Responde(ajenas) => ajenas + 1)
  }

  /** The process after a run. */
  function Tras(ventana: Positivo, p: Proceso, rs: seq<Solicitud>): Proceso {
    if rs == [] then p else Atender(ventana, Tras(ventana, p, rs[..|rs| - 1]), rs[|rs| - 1]).0
  }

  /** What one request adds to the two counters of a key. */
  lemma UnaCuenta(ventana: Positivo, p: Proceso, r: Solicitud, k: Clave)
    requires ventana >= SEGUNDO && EnSuBucket(ventana, p.mem)
    ensures var p' := Atender(ventana, p, r).0;
            EnSuBucket(ventana, p'.mem) &&
            EnMemoria(p'.mem, k) == EnMemoria(p.mem, k) + (if ClaveDe(ventana, r) == k && !r.redis.Responde? then 1 else 0) &&
            EnServidor(p', k) == EnServidor(p, k) +
              (if ClaveDe(ventana, r) != k then 0
               else match r.redis case SinCliente => 0 case Falla(aplicada) => if aplicada then 1 else 0 case Responde(ajenas) => ajenas + 1)
  {
    MemCuenta(ventana, p.mem, r);
  }

  /** Every counter is the requests counted on it, and other keys are left alone. */
  lemma {:induction false} CuentaExacta(ventana: Positivo, servidor: map<Clave, nat>, rs: seq<Solicitud>, k: Clave)
    requires ventana >= SEGUNDO
    ensures var p := Tras(ventana, Proceso(map[], servidor), rs);
            EnSuBucket(ventana, p.mem) && EnMemoria(p.mem, k) == EnMemoriaDe(ventana, rs, k) &&
            EnServidor(p, k) == (if k in servidor then servidor[k] else 0) + EnServidorDe(ventana, rs, k)
  {
    if rs != [] {
      var n := |rs| - 1;
      CuentaExacta(ventana, servidor, rs[..n], k);
      UnaCuenta(ventana, Tras(ventana, Proceso(map[], servidor), rs[..n]), rs[n], k);
    }
  }

  /**
   * Exactly when a request is let through, after any run of a process: with no Redis, when it
   * is within the limit of those counted on its key; when Redis fails, within the fallback
   * limit; when Redis answers, when its count is within the limit.
   */
  lemma PasaSiSoloSi(ventana: Positivo, servidor: map<Clave, nat>, rs: seq<Solicitud>, r: Solicitud)
    requires ventana >= SEGUNDO
    ensures var p, k := Tras(ventana, Proceso(map[], servidor), rs), ClaveDe(ventana, r);
            Atender(ventana, p, r).1 <==>
            match r.redis
            case SinCliente => EnMemoriaDe(ventana, rs, k) + 1 <= r.limite
            case Falla(_) => EnMemoriaDe(ventana, rs, k) + 1 <= (if r.limite < 4 then 1 else if r.limite < 6 then 2 else 3)
            case Responde(ajenas) =>
              (if k in servidor then servidor[k] else 0) + EnServidorDe(ventana, rs, k) + ajenas + 1 <= r.limite
  {
    CuentaExacta(ventana, servidor, rs, ClaveDe(ventana, r));
    MemCuenta(ventana, Tras(ventana, Proceso(map[], servidor), rs).mem, r);
  }

  /** An entry counts through the instant its window ends, and starts again after it. */
  lemma EntradaExacta(ventana: Positivo, mem: map<Clave, Entrada>, k: Clave, t0: nat, t1: nat)
    requires k !in mem
    ensures var mem1 := MemIncr(mem, k, ventana, t0);
            var mem2 := MemIncr(mem1, k, ventana, t1);
            k in mem1 && mem1[k].cuenta == 1 && k in mem2 && mem2[k].cuenta == (if t1 <= t0 + ventana then 2 else 1) &&
            (forall x | x != k :: (x in mem2 <==> x in mem) && (x in mem ==> mem2[x] == mem[x]))
  {
  }

  // ---- Windows below one second ---------------------------------------------------------------

  /** n requests at one instant. */
  function Rafaga(prefijo: string, ip: string, limite: nat, ahora: nat, n: nat): seq<Solicitud> {
    seq(n, i requires 0 <= i < n => Solicitud(prefijo, ip, limite, ahora, SinCliente))
  }

  /** The process after n more requests on a key. */
  function TrasRafaga(ventana: Positivo, p: Proceso, k: Clave, ahora: nat, n: nat): Proceso
    decreases n
  {
    if n == 0 then p else TrasRafaga(ventana, p.(mem := MemIncr(p.mem, k, ventana, ahora)), k, ahora, n - 1)
  }

  /** What the memory says of a key at an instant: nothing once its entry has expired. */
  function CuentaViva(mem: map<Clave, Entrada>, k: Clave, ahora: nat): int {
    if k !in mem || ahora > mem[k].expira then 0 else mem[k].cuenta
  }

  /** A burst is let through whole while the limit allows it, and its entry outlives it. */
  lemma {:induction false} RafagaCuenta(ventana: Positivo, p: Proceso, prefijo: string, ip: string, limite: nat,
                                        ahora: nat, n: nat, resto: seq<Solicitud>)
    requires var k := Clave(prefijo, ip, Bucket(ventana, ahora));
             CuentaViva(p.mem, k, ahora) + n <= limite && (k in p.mem ==> p.mem[k].expira <= ahora + ventana)
    ensures var k := Clave(prefijo, ip, Bucket(ventana, ahora));
            var p' := TrasRafaga(ventana, p, k, ahora, n);
            (k in p'.mem ==> p'.mem[k].expira <= ahora + ventana) &&
            Admitidas(ventana, p, Rafaga(prefijo, ip, limite, ahora, n) + resto, k, limite) ==
            n + Admitidas(ventana, p', resto, k, limite)
    decreases n
  {
    var rs := Rafaga(prefijo, ip, limite, ahora, n) + resto;
    if n == 0 {
      assert rs == resto;
    } else {
      var r := Solicitud(prefijo, ip, limite, ahora, SinCliente);
      assert rs[0] == r;
      assert rs[1..] == Rafaga(prefijo, ip, limite, ahora, n - 1) + resto;
      RafagaCuenta(ventana, Atender(ventana, p, r).0, prefijo, ip, limite, ahora, n - 1, resto);
    }
  }

  /** The whole limit at instant 0, and one request more once its entry has expired. */
  function UnaDeMas(ventana: Positivo, prefijo: string, ip: string, limite: nat): seq<Solicitud> {
    Rafaga(prefijo, ip, limite, 0, limite) + [Solicitud(prefijo, ip, limite, ventana + 1, SinCliente)]
  }

  /** With a window below a second, every limit lets one more through in one bucket. */
  lemma UnaDeMasPasa(ventana: Positivo, prefijo: string, ip: string, limite: Positivo)
    requires ventana < SEGUNDO
    ensures SinRedis(UnaDeMas(ventana, prefijo, ip, limite))
    ensures Admitidas(ventana, Proceso(map[], map[]), UnaDeMas(ventana, prefijo, ip, limite), Clave(prefijo, ip, 0), limite)
            == limite + 1
  {
    var r := Solicitud(prefijo, ip, limite, ventana + 1, SinCliente);
    var k := Clave(prefijo, ip, 0);
    assert SegundosDe(ventana) == 60 && Bucket(ventana, 0) == 0 && Bucket(ventana, ventana + 1) == 0;
    RafagaCuenta(ventana, Proceso(map[], map[]), prefijo, ip, limite, 0, limite, [r]);
    var p' := TrasRafaga(ventana, Proceso(map[], map[]), k, 0, limite);
    assert [r][1..] == [] && Atender(ventana, p', r).1;
  }

  /** Every run keeps to the limit in every bucket. */
  ghost predicate LimiteBasta(ventana: Positivo, prefijo: string, ip: string, limite: nat) {
    forall rs, b: nat | SinRedis(rs) :: Admitidas(ventana, Proceso(map[], map[]), rs, Clave(prefijo, ip, b), limite) <= limite
  }

  /** Exactly when the limit is one: when the window is at least one second. */
  lemma LimiteSiSoloSi(ventana: Positivo, prefijo: string, ip: string, limite: Positivo)
    ensures LimiteBasta(ventana, prefijo, ip, limite) <==> ventana >= SEGUNDO
  {
    if ventana >= SEGUNDO {
      forall rs, b: nat | SinRedis(rs)
        ensures Admitidas(ventana, Proceso(map[], map[]), rs, Clave(prefijo, ip, b), limite) <= limite
      {
        CotaSinRedis(ventana, rs, Clave(prefijo, ip, b), limite);
      }
    } else {
      UnaDeMasPasa(ventana, prefijo, ip, limite);
    }
  }

  // ---- Intervals one window long --------------------------------------------------------------

  /** Requests let through in the half-open interval one window long that starts at `desde`. */
  function AdmitidasDesde(ventana: Positivo, p: Proceso, rs: seq<Solicitud>, prefijo: string, ip: string,
                          limite: nat, desde: nat): nat
    decreases |rs|
  {
    if rs == [] then 0
    else
      var (p', pasa) := Atender(ventana, p, rs[0]);
      var r := rs[0];
      (if pasa && r.prefijo == prefijo && r.ip == ip && r.limite == limite && desde <= r.ahora < desde + ventana then 1 else 0) +
      AdmitidasDesde(ventana, p', rs[1..], prefijo, ip, limite, desde)
  }

  /**
   * The window is its whole seconds, or one nanosecond more, so that an interval one window
   * long touches two buckets at most.
   */
  predicate Entera(ventana: Positivo) {
    ventana <= SegundosDe(ventana) * SEGUNDO + 1
  }

  /** How many buckets an interval one window long can touch. */
  function BucketsTocados(ventana: Positivo): nat {
    if Entera(ventana) then 2 else 3
  }

  lemma BucketEnNanos(ventana: Positivo, t: nat)
    ensures var d := SegundosDe(ventana) * SEGUNDO;
            Bucket(ventana, t) * d <= t < Bucket(ventana, t) * d + d
  {
    var w, b := SegundosDe(ventana), Bucket(ventana, t);
    var s := t / SEGUNDO;
    CotaCociente(t, SEGUNDO);
    CotaCociente(s, w);
    Nanos(t, s, b, w);
  }

  lemma Nanos(t: nat, s: int, b: int, w: int)
    requires b * w <= s < b * w + w && s * SEGUNDO <= t < s * SEGUNDO + SEGUNDO
    ensures b * (w * SEGUNDO) <= t < b * (w * SEGUNDO) + w * SEGUNDO
  {
    assert b * (w * SEGUNDO) == (b * w) * SEGUNDO;
  }

  /** An interval one window long touches two buckets, or three when the window has a fraction. */
  lemma BucketsContiguos(ventana: Positivo, desde: nat, t: nat)
    requires ventana >= SEGUNDO && desde <= t < desde + ventana
    ensures Bucket(ventana, desde) <= Bucket(ventana, t) < Bucket(ventana, desde) + BucketsTocados(ventana)
  {
    var d := SegundosDe(ventana) * SEGUNDO;
    BucketEnNanos(ventana, desde);
    BucketEnNanos(ventana, t);
    CotaCociente(ventana, SEGUNDO);
    Contiguos(Bucket(ventana, desde), Bucket(ventana, t), desde, t, d, BucketsTocados(ventana));
  }

  lemma Contiguos(b0: int, b1: int, t0: int, t1: int, d: Positivo, n: nat)
    requires b0 * d <= t0 < b0 * d + d && b1 * d <= t1 < b1 * d + d && 2 <= n <= 3
    requires t0 <= t1 <= t0 + d || (n == 3 && t0 <= t1 <= t0 + 2 * d)
    ensures b0 <= b1 < b0 + n
  {
    assert (b1 + 1) * d == b1 * d + d && (b0 + 2) * d == b0 * d + 2 * d && (b0 + 3) * d == b0 * d + 3 * d;
    if b1 < b0 {
      Crece(b1 + 1, b0, d);
    } else if b1 >= b0 + n {
      Crece(b0 + n, b1, d);
    }
  }

  /** Requests let through in the n buckets from b on. */
  function AdmitidasEnBuckets(ventana: Positivo, p: Proceso, rs: seq<Solicitud>, prefijo: string, ip: string,
                              limite: nat, b: nat, n: nat): nat
    decreases n
  {
    if n == 0 then 0
    else AdmitidasEnBuckets(ventana, p, rs, prefijo, ip, limite, b, n - 1) +
         Admitidas(ventana, p, rs, Clave(prefijo, ip, b + n - 1), limite)
  }

  lemma {:induction false} EnBucketsPaso(ventana: Positivo, p: Proceso, rs: seq<Solicitud>, prefijo: string, ip: string,
                                         limite: nat, b: nat, n: nat)
    requires rs != []
    ensures var (p', pasa) := Atender(ventana, p, rs[0]);
            var k := ClaveDe(ventana, rs[0]);
            AdmitidasEnBuckets(ventana, p, rs, prefijo, ip, limite, b, n) ==
            AdmitidasEnBuckets(ventana, p', rs[1..], prefijo, ip, limite, b, n) +
            (if pasa && k.prefijo == prefijo && k.ip == ip && rs[0].limite == limite && b <= k.bucket < b + n then 1 else 0)
    decreases n
  {
    if n != 0 {
      EnBucketsPaso(ventana, p, rs, prefijo, ip, limite, b, n - 1);
    }
  }

  lemma {:induction false} IntervaloEnBuckets(ventana: Positivo, p: Proceso, rs: seq<Solicitud>, prefijo: string,
                                              ip: string, limite: nat, desde: nat)
    requires ventana >= SEGUNDO
    ensures AdmitidasDesde(ventana, p, rs, prefijo, ip, limite, desde) <=
            AdmitidasEnBuckets(ventana, p, rs, prefijo, ip, limite, Bucket(ventana, desde), BucketsTocados(ventana))
    decreases |rs|
  {
    if rs != [] {
      if desde <= rs[0].ahora < desde + ventana {
        BucketsContiguos(ventana, desde, rs[0].ahora);
      }
      EnBucketsPaso(ventana, p, rs, prefijo, ip, limite, Bucket(ventana, desde), BucketsTocados(ventana));
      IntervaloEnBuckets(ventana, Atender(ventana, p, rs[0]).0, rs[1..], prefijo, ip, limite, desde);
    }
  }

  lemma {:induction false} BucketsAcotados(ventana: Positivo, rs: seq<Solicitud>, prefijo: string, ip: string,
                                           limite: nat, b: nat, n: nat)
    requires ventana >= SEGUNDO && SinRedis(rs)
    ensures AdmitidasEnBuckets(ventana, Proceso(map[], map[]), rs, prefijo, ip, limite, b, n) <= n * limite
    decreases n
  {
    if n != 0 {
      BucketsAcotados(ventana, rs, prefijo, ip, limite, b, n - 1);
      CotaSinRedis(ventana, rs, Clave(prefijo, ip, b + n - 1), limite);
      assert n * limite == (n - 1) * limite + limite;
    }
  }

  /**
   * Without Redis: in any half-open interval one window long at most twice the limit, or
   * three times when the window has a fraction of a second.
   */
  lemma CotaPorIntervalo(ventana: Positivo, rs: seq<Solicitud>, prefijo: string, ip: string, limite: nat, desde: nat)
    requires ventana >= SEGUNDO && SinRedis(rs)
    ensures AdmitidasDesde(ventana, Proceso(map[], map[]), rs, prefijo, ip, limite, desde) <= BucketsTocados(ventana) * limite
  {
    IntervaloEnBuckets(ventana, Proceso(map[], map[]), rs, prefijo, ip, limite, desde);
    BucketsAcotados(ventana, rs, prefijo, ip, limite, Bucket(ventana, desde), BucketsTocados(ventana));
  }

  // A schedule that attains three times the limit.

  /** A burst inside the interval is let through whole while the limit allows it. */
  lemma {:induction false} RafagaPasa(ventana: Positivo, p: Proceso, prefijo: string, ip: string, limite: nat,
                                      ahora: nat, n: nat, resto: seq<Solicitud>, desde: nat)
    requires ventana >= SEGUNDO && EnSuBucket(ventana, p.mem) && desde <= ahora < desde + ventana
    requires EnMemoria(p.mem, Clave(prefijo, ip, Bucket(ventana, ahora))) + n <= limite
    ensures var k := Clave(prefijo, ip, Bucket(ventana, ahora));
            var p' := TrasRafaga(ventana, p, k, ahora, n);
            EnSuBucket(ventana, p'.mem) && (forall x | x != k :: EnMemoria(p'.mem, x) == EnMemoria(p.mem, x)) &&
            AdmitidasDesde(ventana, p, Rafaga(prefijo, ip, limite, ahora, n) + resto, prefijo, ip, limite, desde) ==
            n + AdmitidasDesde(ventana, p', resto, prefijo, ip, limite, desde)
    decreases n
  {
    var rs := Rafaga(prefijo, ip, limite, ahora, n) + resto;
    if n == 0 {
      assert rs == resto;
    } else {
      var r := Solicitud(prefijo, ip, limite, ahora, SinCliente);
      assert rs[0] == r;
      assert rs[1..] == Rafaga(prefijo, ip, limite, ahora, n - 1) + resto;
      MemCuenta(ventana, p.mem, r);
      RafagaPasa(ventana, Atender(ventana, p, r).0, prefijo, ip, limite, ahora, n - 1, resto, desde);
    }
  }

  /** The last instant of bucket 0 and the first ones of buckets 1 and 2. */
  function TresInstantes(ventana: Positivo): (nat, nat, nat) {
    var d := SegundosDe(ventana) * SEGUNDO;
    (d - 1, d, 2 * d)
  }

  lemma TresBuckets(ventana: Positivo)
    ensures var (t0, t1, t2) := TresInstantes(ventana);
            Bucket(ventana, t0) == 0 && Bucket(ventana, t1) == 1 && Bucket(ventana, t2) == 2
  {
    var d := SegundosDe(ventana) * SEGUNDO;
    var (t0, t1, t2) := TresInstantes(ventana);
    BucketEnNanos(ventana, t0);
    BucketEnNanos(ventana, t1);
    BucketEnNanos(ventana, t2);
    BucketUnico(Bucket(ventana, t0), 0, t0, d);
    BucketUnico(Bucket(ventana, t1), 1, t1, d);
    BucketUnico(Bucket(ventana, t2), 2, t2, d);
  }

  lemma BucketUnico(b: int, n: int, t: int, d: Positivo)
    requires b * d <= t < b * d + d && n * d <= t < n * d + d
    ensures b == n
  {
    assert (b + 1) * d == b * d + d && (n + 1) * d == n * d + d;
    if b < n {
      Crece(b + 1, n, d);
    } else if b > n {
      Crece(n + 1, b, d);
    }
  }

  function TresRafagas(ventana: Positivo, prefijo: string, ip: string, limite: nat): seq<Solicitud> {
    var (t0, t1, t2) := TresInstantes(ventana);
    Rafaga(prefijo, ip, limite, t0, limite) +
    (Rafaga(prefijo, ip, limite, t1, limite) + (Rafaga(prefijo, ip, limite, t2, limite) + []))
  }

  lemma TresRafagasPasan(ventana: Positivo, prefijo: string, ip: string, limite: nat)
    requires ventana >= SEGUNDO && !Entera(ventana)
    ensures SinRedis(TresRafagas(ventana, prefijo, ip, limite))
    ensures AdmitidasDesde(ventana, Proceso(map[], map[]), TresRafagas(ventana, prefijo, ip, limite), prefijo, ip, limite,
                           TresInstantes(ventana).0) == 3 * limite
  {
    var (t0, t1, t2) := TresInstantes(ventana);
    var p := Proceso(map[], map[]);
    var p1 := TrasRafaga(ventana, p, Clave(prefijo, ip, 0), t0, limite);
    var p2 := TrasRafaga(ventana, p1, Clave(prefijo, ip, 1), t1, limite);
    var r2 := Rafaga(prefijo, ip, limite, t2, limite) + [];
    var r1 := Rafaga(prefijo, ip, limite, t1, limite) + r2;
    TresBuckets(ventana);
    RafagaPasa(ventana, p, prefijo, ip, limite, t0, limite, r1, t0);
    RafagaPasa(ventana, p1, prefijo, ip, limite, t1, limite, r2, t0);
    RafagaPasa(ventana, p2, prefijo, ip, limite, t2, limite, [], t0);
  }

  /** Every run keeps to twice the limit in every interval one window long. */
  ghost predicate DobleBasta(ventana: Positivo, prefijo: string, ip: string, limite: nat) {
    forall rs, desde | SinRedis(rs) ::
      AdmitidasDesde(ventana, Proceso(map[], map[]), rs, prefijo, ip, limite, desde) <= 2 * limite
  }

  /** Exactly when twice the limit is a bound: when the window is whole seconds, to the nanosecond. */
  lemma DobleSiSoloSi(ventana: Positivo, prefijo: string, ip: string, limite: Positivo)
    requires ventana >= SEGUNDO
    ensures DobleBasta(ventana, prefijo, ip, limite) <==> Entera(ventana)
  {
    if Entera(ventana) {
      forall rs, desde | SinRedis(rs)
        ensures AdmitidasDesde(ventana, Proceso(map[], map[]), rs, prefijo, ip, limite, desde) <= 2 * limite
      {
        CotaPorIntervalo(ventana, rs, prefijo, ip, limite, desde);
      }
    } else {
      TresRafagasPasan(ventana, prefijo, ip, limite);
    }
  }

  // ---- The process -------------------------------------------------------------------------------

  class Limitador {
    const ventana: Positivo
    var memStore: map<Clave, Entrada>
    ghost var servidor: map<Clave, nat>

    ghost function Abs(): Proceso
      reads this
    {
      Proceso(memStore, servidor)
    }

    constructor (ventana: Positivo)
      ensures this.ventana == ventana && Abs() == Proceso(map[], map[])
    {
      this.ventana := ventana;
      memStore, servidor := map[], map[];
    }

    method MemIncrementar(k: Clave, ahora: nat) returns (cuenta: int)
      modifies this`memStore
      ensures memStore == MemIncr(old(memStore), k, ventana, ahora) && cuenta == memStore[k].cuenta
    {
      if k !in memStore || ahora > memStore[k].expira {
        memStore := memStore[k := Entrada(1, ahora + ventana)];
        return 1;
      }
      cuenta := memStore[k].cuenta + 1;
      memStore := memStore[k := Entrada(cuenta, memStore[k].expira)];
    }

    /** The handler; `valor` is what INCR returned when it answered. */
    method Manejar(r: Solicitud, valor: nat) returns (pasa: bool)
      requires r.redis.Responde? ==> valor == EnServidor(Abs(), ClaveDe(ventana, r)) + r.redis.ajenas + 1
      modifies this
      ensures (Abs(), pasa) == Atender(ventana, old(Abs()), r)
    {
      var segundos := ventana / SEGUNDO;
      if segundos < 1 {
        segundos := 60;
      }
      var memLimit := r.limite / 2;
      if memLimit > 3 {
        memLimit := 3;
      }
      if memLimit < 1 {
        memLimit := 1;
      }
      var k := Clave(r.prefijo, r.ip, (r.ahora / SEGUNDO) / segundos);
      match r.redis
      case SinCliente =>
        var cuenta := MemIncrementar(k, r.ahora);
        pasa := cuenta <= r.limite;
      case Falla(aplicada) =>
        if aplicada {
          servidor := servidor[k := EnServidor(Abs(), k) + 1];
        }
        var cuenta := MemIncrementar(k, r.ahora);
        pasa := cuenta <= memLimit;
      case Responde(_) =>
        servidor := servidor[k := valor];
        pasa := valor <= r.limite;
    }
  }
}
