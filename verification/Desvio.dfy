/**
 * The drift percentage of an arqueo and its classification.  Amounts are integers in a
 * common decimal unit; a percentage is an integer number of hundredths of a percent.
 */
module Desvio {
  import opened Aritmetica

  datatype Clase = Normal | Advertencia | Critico

  const DIEZ_16 := 10_000_000_000_000_000
  const DIEZ_14 := 100_000_000_000_000
  const DIEZ_12 := 1_000_000_000_000

  function Abs(x: int): int {
    if x < 0 then -x else x
  }

  function Gravedad(c: Clase): nat {
    match c
    case Normal => 0
    case Advertencia => 1
    case Critico => 2
  }

  /** a / b rounded to the nearest integer, halves up. */
  function MedioArriba(a: nat, b: nat): nat
    requires b > 0
  {
    if 2 * (a % b) >= b then a / b + 1 else a / b
  }

  /** n / d rounded to the nearest integer, halves away from zero. */
  function Redondear(n: int, d: int): int
    requires d != 0
  {
    var m: int := MedioArriba(Abs(n), Abs(d));
    if (n < 0) != (d < 0) then -m else m
  }

  /** desvio / esperado at sixteen decimals, times one hundred, at two decimals. */
  function Porcentaje(desvio: int, esperado: int): int {
    if esperado == 0 then 0
    else Redondear(Redondear(desvio * DIEZ_16, esperado) * 100, DIEZ_14)
  }

  function ClasificarDesvio(pct: int): Clase {
    if Abs(pct) <= 100 then Normal
    else if Abs(pct) <= 500 then Advertencia
    else Critico
  }

  /** MedioArriba(a, b) is the one integer m with 2a - b < 2mb <= 2a + b. */
  lemma MedioArribaCota(a: nat, b: nat)
    requires b > 0
    ensures 2 * a - b < 2 * (MedioArriba(a, b) * b) <= 2 * a + b
  {
    var q, r := a / b, a % b;
    assert a == q * b + r;
    assert (q + 1) * b == q * b + b;
  }

  /** MedioArriba(a, b) is at most k exactly when 2a < (2k + 1) b. */
  lemma MedioArribaHasta(a: nat, b: nat, k: nat)
    requires b > 0
    ensures MedioArriba(a, b) <= k <==> 2 * a < (2 * k + 1) * b
  {
    var m := MedioArriba(a, b);
    MedioArribaCota(a, b);
    assert (2 * k + 1) * b == 2 * (k * b) + b;
    if m <= k {
      Crece(m, k, b);
    } else {
      Crece(k + 1, m, b);
      assert (k + 1) * b == k * b + b;
    }
  }

  lemma ProductoAbs(x: int, y: int)
    ensures Abs(x * y) == Abs(x) * Abs(y)
    ensures x != 0 && y != 0 ==> ((x * y < 0) <==> ((x < 0) != (y < 0)))
  {
    if x >= 0 && y >= 0 {
      assert x * y >= 0;
    } else if x < 0 && y < 0 {
      assert x * y == (-x) * (-y);
    } else if x < 0 {
      assert x * y == -((-x) * y);
    } else {
      assert x * y == -(x * (-y));
    }
    if x != 0 && y != 0 {
      assert Abs(x) * Abs(y) > 0;
    }
  }

  /** Rounding moves a quotient by at most one half. */
  lemma RedondearCota(n: int, d: int)
    requires d != 0
    ensures 2 * Abs(Redondear(n, d) * d - n) <= Abs(d)
  {
    var r := Redondear(n, d);
    var m: int := MedioArriba(Abs(n), Abs(d));
    MedioArribaCota(Abs(n), Abs(d));
    assert r * d == if n < 0 then -(m * Abs(d)) else m * Abs(d) by {
      Signos(r, m, d);
    }
  }

  lemma Signos(r: int, m: int, d: int)
    requires r == m || r == -m
    ensures r * d == if (r == m) == (d >= 0) then m * Abs(d) else -(m * Abs(d))
  {
    assert (-m) * d == -(m * d);
    assert m * (-d) == -(m * d);
  }

  /**
   * The percentage is 100 * desvio / esperado to within 0.005 + 5e-15, through both
   * rounding steps.  In the integer units here both sides are multiplied by 2e14.
   */
  lemma PorcentajeCota(desvio: int, esperado: int)
    requires esperado != 0
    ensures 2 * DIEZ_12 * Abs(Porcentaje(desvio, esperado) * esperado - 10_000 * desvio) <= (DIEZ_12 + 1) * Abs(esperado)
  {
    var q := Redondear(desvio * DIEZ_16, esperado);
    var p := Redondear(q * 100, DIEZ_14);
    RedondearCota(desvio * DIEZ_16, esperado);
    RedondearCota(q * 100, DIEZ_14);
    DosErrores(p, q, desvio, esperado);
  }

  /** Two half-unit errors, one after the other, in units of 1e-14. */
  lemma DosErrores(p: int, q: int, d: int, e: int)
    requires 2 * Abs(q * e - d * DIEZ_16) <= Abs(e)
    requires 2 * Abs(p * DIEZ_14 - q * 100) <= DIEZ_14
    ensures 2 * DIEZ_12 * Abs(p * e - 10_000 * d) <= (DIEZ_12 + 1) * Abs(e)
  {
    ProductoPorAmbos(p, q, e);
    ErroresLineales(p * e, q * e, d, Abs(e));
  }

  lemma ProductoPorAmbos(p: int, q: int, e: int)
    requires 2 * Abs(p * DIEZ_14 - q * 100) <= DIEZ_14
    ensures 2 * Abs(DIEZ_14 * (p * e) - 100 * (q * e)) <= DIEZ_14 * Abs(e)
  {
    var x := p * DIEZ_14 - q * 100;
    ProductoAbs(x, e);
    Crece(2 * Abs(x), DIEZ_14, Abs(e));
    Reordena(2, Abs(x), Abs(e));
    Distribuye(p, q, e);
  }

  lemma Reordena(a: int, b: int, c: int)
    ensures a * b * c == a * (b * c)
  {
  }

  lemma Distribuye(p: int, q: int, e: int)
    ensures (p * DIEZ_14 - q * 100) * e == DIEZ_14 * (p * e) - 100 * (q * e)
  {
    var pe, qe := p * DIEZ_14, q * 100;
    assert (pe - qe) * e == pe * e - qe * e;
    Reordena(DIEZ_14, p, e);
    Reordena(100, q, e);
  }

  lemma ErroresLineales(pe: int, qe: int, d: int, e: nat)
    requires 2 * Abs(qe - d * DIEZ_16) <= e
    requires 2 * Abs(DIEZ_14 * pe - 100 * qe) <= DIEZ_14 * e
    ensures 2 * DIEZ_12 * Abs(pe - 10_000 * d) <= (DIEZ_12 + 1) * e
  {
  }

  /** The magnitude of the percentage depends only on the two magnitudes. */
  lemma PorcentajeAbs(desvio: int, esperado: int)
    requires esperado != 0
    ensures Abs(Porcentaje(desvio, esperado)) ==
            MedioArriba(100 * MedioArriba(Abs(desvio) * DIEZ_16, Abs(esperado)), DIEZ_14)
  {
    var q := Redondear(desvio * DIEZ_16, esperado);
    assert Abs(desvio * DIEZ_16) == Abs(desvio) * DIEZ_16;
    assert Abs(q) == MedioArriba(Abs(desvio) * DIEZ_16, Abs(esperado));
    assert Abs(q * 100) == 100 * Abs(q);
  }

  /**
   * Exactly when a drift is normal, and when it is not critical.  The limits are 1.005%
   * and 5.005% less five parts in 1e17, not the 1% and 5% of the comment above
   * clasificarDesvio: the percentage is rounded before it is compared.  With nothing
   * expected, every drift is normal.
   */
  lemma ClasificacionExacta(desvio: int, esperado: int)
    ensures ClasificarDesvio(Porcentaje(desvio, esperado)) == Normal <==>
            esperado == 0 || 2 * DIEZ_16 * Abs(desvio) < 200_999_999_999_999 * Abs(esperado)
    ensures ClasificarDesvio(Porcentaje(desvio, esperado)) != Critico <==>
            esperado == 0 || 2 * DIEZ_16 * Abs(desvio) < 1_000_999_999_999_999 * Abs(esperado)
  {
    if esperado == 0 {
      return;
    }
    PorcentajeAbs(desvio, esperado);
    var q := MedioArriba(Abs(desvio) * DIEZ_16, Abs(esperado));
    MedioArribaHasta(100 * q, DIEZ_14, 100);
    MedioArribaHasta(100 * q, DIEZ_14, 500);
    MedioArribaHasta(Abs(desvio) * DIEZ_16, Abs(esperado), 100_499_999_999_999);
    MedioArribaHasta(Abs(desvio) * DIEZ_16, Abs(esperado), 500_499_999_999_999);
  }

  /** For a fixed expected total, a larger drift never gets a milder class. */
  lemma ClasificacionMonotona(d1: int, d2: int, esperado: int)
    requires Abs(d1) <= Abs(d2)
    ensures Gravedad(ClasificarDesvio(Porcentaje(d1, esperado))) <= Gravedad(ClasificarDesvio(Porcentaje(d2, esperado)))
  {
    ClasificacionExacta(d1, esperado);
    ClasificacionExacta(d2, esperado);
  }

  /** A drift of 1.004% is classified normal. */
  lemma NormalSobreUnoPorCiento()
    ensures ClasificarDesvio(Porcentaje(1_004, 100_000)) == Normal
    ensures 100 * 1_004 > 1 * 100_000
  {
    ClasificacionExacta(1_004, 100_000);
  }
}
