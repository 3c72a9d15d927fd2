/**
 * The two money printers.  An amount is a sign, a whole number of cents, and a fraction
 * resto / unidad of a cent beyond them; the fraction is zero for two decimals.
 */
module FormatoMonto {

  datatype Monto = Monto(negativo: bool, centavos: nat, resto: nat, unidad: nat)

  /** Every decimal is one of these; zero has no sign. */
  predicate Valido(m: Monto) {
    m.resto < m.unidad && (m.negativo ==> m.centavos > 0 || m.resto > 0)
  }

  // ---- Strings of digits ---------------------------------------------------------------------

  const CIFRAS := "0123456789"

  function Cifra(d: nat): (c: char)
    requires d < 10
    ensures c != '.' && c != ',' && c != '-' && c != '$'
  {
    CIFRAS[d]
  }

  function ValorCifra(c: char): nat {
    if '0' <= c <= '9' then c as int - '0' as int else 0
  }

  /** Decimal digits, without leading zeros. */
  function Digitos(n: nat): (s: string)
    ensures |s| >= 1
  {
    if n < 10 then [Cifra(n)] else Digitos(n / 10) + [Cifra(n % 10)]
  }

  /** %02d of a number below one hundred. */
  function DosDigitos(c: nat): string
    requires c < 100
  {
    [Cifra(c / 10), Cifra(c % 10)]
  }

  function Valor(s: string): nat {
    if s == "" then 0 else 10 * Valor(s[..|s| - 1]) + ValorCifra(s[|s| - 1])
  }

  /** strings.Split on one character. */
  function Split(s: string, c: char): (ps: seq<string>)
    ensures |ps| >= 1
  {
    if s == "" then [""]
    else
      var n := |s| - 1;
      var ps := Split(s[..n], c);
      if s[n] == c then ps + [""] else ps[..|ps| - 1] + [ps[|ps| - 1] + [s[n]]]
  }

  /** Groups of three from the right, joined by dots: the reference for both loops. */
  function Grupos(s: string): string {
    if |s| <= 3 then s else Grupos(s[..|s| - 3]) + "." + s[|s| - 3..]
  }

  // ---- The two printers ------------------------------------------------------------------------

  /** Sprintf("%d") of the truncated integer part, which has no sign when it is zero. */
  function Entero(m: Monto): string {
    if m.negativo && m.centavos >= 100 then "-" + Digitos(m.centavos / 100) else Digitos(m.centavos / 100)
  }

  /** formatMoney: truncated to two decimals. */
  function FormatMoney(m: Monto): string {
    "$" + Grupos(Entero(m)) + "," + DosDigitos(m.centavos % 100)
  }

  function FormatMoneyAFIP(m: Monto): string {
    var s := FormatMoney(m);
    if |s| > 0 && s[0] == '$' then s[1..] else s
  }

  /** Half-even rounding to two decimals goes away from zero. */
  predicate RedondeaArriba(m: Monto) {
    2 * m.resto > m.unidad || (2 * m.resto == m.unidad && m.centavos % 2 == 1)
  }

  /** RoundBank(2) of the absolute value, in cents. */
  function CentavosBanquero(m: Monto): nat {
    if RedondeaArriba(m) then m.centavos + 1 else m.centavos
  }

  /** Puts the point before the last two of the digits of a number of cents. */
  function ConPunto(s: string): string {
    if |s| > 2 then s[..|s| - 2] + "." + s[|s| - 2..]
    else if |s| == 2 then "0." + s
    else "0.0" + s
  }

  /** StringFixed(2) of a number of cents. */
  function StringFixed(c: nat): string {
    ConPunto(Digitos(c))
  }

  /** formatDecimalAFIP with two decimals. */
  function FormatDecimalAFIP(m: Monto): string {
    var partes := Split(StringFixed(CentavosBanquero(m)), '.');
    var fraccion := if |partes| > 1 then partes[1] else "";
    var s := Grupos(partes[0]) + "," + fraccion;
    if m.negativo then "-" + s else s
  }

  // ---- Facts about digits -----------------------------------------------------------------------

  predicate SonCifras(s: string) {
    forall i | 0 <= i < |s| :: '0' <= s[i] <= '9'
  }

  lemma {:induction false} DigitosSonCifras(n: nat)
    ensures SonCifras(Digitos(n)) && Valor(Digitos(n)) == n
  {
    if n >= 10 {
      DigitosSonCifras(n / 10);
      AgregaCifra(Digitos(n / 10), n % 10);
    }
  }

  lemma AgregaCifra(s: string, d: nat)
    requires SonCifras(s) && d < 10
    ensures SonCifras(s + [Cifra(d)]) && Valor(s + [Cifra(d)]) == 10 * Valor(s) + d
  {
    assert (s + [Cifra(d)])[..|s|] == s;
  }

  lemma DosDigitosValor(c: nat)
    requires c < 100
    ensures SonCifras(DosDigitos(c)) && Valor(DosDigitos(c)) == c
  {
    var s := DosDigitos(c);
    assert s[..1] == [Cifra(c / 10)] && s[..1][..0] == "";
    assert Valor(s[..1]) == c / 10;
  }

  /** The digits of c are those of c / 100 followed by the two digits of c % 100. */
  lemma DigitosPartidos(c: nat)
    requires c >= 100
    ensures Digitos(c) == Digitos(c / 100) + DosDigitos(c % 100)
  {
    var d := c / 10;
    assert Digitos(c) == Digitos(d) + [Cifra(c % 10)];
    assert Digitos(d) == Digitos(d / 10) + [Cifra(d % 10)];
    assert d / 10 == c / 100 && d % 10 == c % 100 / 10 && c % 10 == c % 100 % 10;
  }

  lemma DigitosCortos(c: nat)
    requires c < 100
    ensures (if c < 10 then "0" + Digitos(c) else Digitos(c)) == DosDigitos(c)
    ensures |Digitos(c)| == if c < 10 then 1 else 2
  {
    if c >= 10 {
      assert Digitos(c) == Digitos(c / 10) + [Cifra(c % 10)];
      assert Digitos(c / 10) == [Cifra(c / 10)];
    }
  }

  lemma {:induction false} SplitSin(s: string, c: char)
    requires c !in s
    ensures Split(s, c) == [s]
  {
    if s != "" {
      var n := |s| - 1;
      SplitSin(s[..n], c);
      assert s[n] in s;
      assert s[..n] + [s[n]] == s;
    }
  }

  lemma {:induction false} SplitConcatena(a: string, b: string, c: char)
    requires c !in b
    ensures Split(a + [c] + b, c) == Split(a, c) + [b]
  {
    var t := a + [c] + b;
    if b == "" {
      assert t[..|t| - 1] == a;
    } else {
      var b' := b[..|b| - 1];
      assert t[..|t| - 1] == a + [c] + b';
      SplitConcatena(a, b', c);
      assert b[|b| - 1] in b && t[|t| - 1] == b[|b| - 1];
      assert b' + [b[|b| - 1]] == b;
    }
  }

  /** Every group after the first has exactly three characters, and the first at most three. */
  lemma {:induction false} GruposDeTres(s: string)
    requires s != "" && '.' !in s
    ensures var gs := Split(Grupos(s), '.');
            1 <= |gs[0]| <= 3 && forall i | 1 <= i < |gs| :: |gs[i]| == 3
  {
    if |s| <= 3 {
      SplitSin(s, '.');
    } else {
      var a, b := s[..|s| - 3], s[|s| - 3..];
      GruposDeTres(a);
      SplitConcatena(Grupos(a), b, '.');
    }
  }

  function SinPuntos(s: string): string {
    if s == "" then ""
    else SinPuntos(s[..|s| - 1]) + (if s[|s| - 1] == '.' then "" else [s[|s| - 1]])
  }

  lemma {:induction false} SinPuntosConcatena(a: string, b: string)
    ensures SinPuntos(a + b) == SinPuntos(a) + SinPuntos(b)
  {
    if b == "" {
      assert a + b == a;
    } else {
      assert (a + b)[..|a + b| - 1] == a + b[..|b| - 1];
      SinPuntosConcatena(a, b[..|b| - 1]);
    }
  }

  lemma {:induction false} SinPuntosIgual(s: string)
    requires '.' !in s
    ensures SinPuntos(s) == s
  {
    if s != "" {
      SinPuntosIgual(s[..|s| - 1]);
    }
  }

  lemma GruposPaso(x: string, b: string)
    requires x != "" && |b| == 3
    ensures Grupos(x + b) == Grupos(x) + "." + b
  {
    assert (x + b)[..|x + b| - 3] == x && (x + b)[|x + b| - 3..] == b;
  }

  lemma PuntoFinal(g: string)
    ensures SinPuntos(g + ".") == SinPuntos(g)
  {
    assert (g + ".")[..|g|] == g;
  }

  lemma UnPunto(g: string, b: string)
    requires '.' !in b
    ensures SinPuntos(g + "." + b) == SinPuntos(g) + b
  {
    PuntoFinal(g);
    SinPuntosIgual(b);
    SinPuntosConcatena(g + ".", b);
  }

  lemma {:induction false} SinPuntosGrupos(s: string)
    requires '.' !in s
    ensures SinPuntos(Grupos(s)) == s
  {
    if |s| <= 3 {
      SinPuntosIgual(s);
    } else {
      var a, b := s[..|s| - 3], s[|s| - 3..];
      assert s == a + b;
      SinPuntosGrupos(a);
      GruposPaso(a, b);
      UnPunto(Grupos(a), b);
    }
  }

  // ---- Lossless -------------------------------------------------------------------------------

  /** Deletes the dots and reads the comma as the decimal point; in cents. */
  function Leer(s: string): int {
    var partes := Split(SinPuntos(s), ',');
    if |partes| == 2 then 100 * Valor(partes[0]) + Valor(partes[1]) else -1
  }

  /** What both printers write for a non-negative number of cents. */
  function Impreso(c: nat): string {
    Grupos(Digitos(c / 100)) + "," + DosDigitos(c % 100)
  }

  lemma ImpresoSeLee(c: nat)
    ensures Leer(Impreso(c)) == c
  {
    var a, b := Digitos(c / 100), DosDigitos(c % 100);
    DigitosSonCifras(c / 100);
    DosDigitosValor(c % 100);
    SinPuntosImpreso(a, b);
    SplitConcatena(a, b, ',');
    SplitSin(a, ',');
  }

  lemma SinPuntosImpreso(a: string, b: string)
    requires '.' !in a && '.' !in b
    ensures SinPuntos(Grupos(a) + "," + b) == a + "," + b
  {
    SinPuntosGrupos(a);
    SinPuntosIgual(b);
    SinPuntosIgual(",");
    SinPuntosConcatena(Grupos(a) + ",", b);
    SinPuntosConcatena(Grupos(a), ",");
  }

  // ---- What each printer writes ------------------------------------------------------------------

  lemma FixedConPunto(c: nat)
    ensures StringFixed(c) == Digitos(c / 100) + "." + DosDigitos(c % 100)
  {
    if c >= 100 {
      FixedLargo(c, c / 100, c % 100);
    } else {
      FixedCorto(c);
    }
  }

  lemma FixedLargo(c: nat, q: nat, r: nat)
    requires c >= 100 && q == c / 100 && r == c % 100
    ensures StringFixed(c) == Digitos(q) + "." + DosDigitos(r)
  {
    DigitosPartidos(c);
    ConPuntoLargo(Digitos(q), DosDigitos(r));
  }

  lemma FixedCorto(c: nat)
    requires c < 100
    ensures StringFixed(c) == Digitos(0) + "." + DosDigitos(c)
  {
    DigitosCortos(c);
    ConPuntoCorto(Digitos(c), DosDigitos(c));
  }

  lemma ConPuntoLargo(a: string, b: string)
    requires a != "" && |b| == 2
    ensures ConPunto(a + b) == a + "." + b
  {
    UltimosDos(a, b);
  }

  lemma ConPuntoCorto(s: string, d: string)
    requires 1 <= |s| <= 2 && d == (if |s| == 1 then "0" + s else s)
    ensures ConPunto(s) == Digitos(0) + "." + d
  {
    CeroDelante(s);
  }

  lemma UltimosDos(a: string, b: string)
    requires |b| == 2
    ensures (a + b)[..|a + b| - 2] == a && (a + b)[|a + b| - 2..] == b
  {
  }

  lemma CeroDelante(s: string)
    ensures "0.0" + s == "0." + ("0" + s)
    ensures Digitos(0) == "0"
  {
  }

  lemma FixedPartido(c: nat)
    ensures Split(StringFixed(c), '.') == [Digitos(c / 100), DosDigitos(c % 100)]
  {
    FixedConPunto(c);
    DigitosSonCifras(c / 100);
    DosDigitosValor(c % 100);
    SplitConcatena(Digitos(c / 100), DosDigitos(c % 100), '.');
    SplitSin(Digitos(c / 100), '.');
  }

  lemma DecimalImprime(m: Monto)
    ensures FormatDecimalAFIP(m) == (if m.negativo then "-" else "") + Impreso(CentavosBanquero(m))
  {
    FixedPartido(CentavosBanquero(m));
  }

  function SignoDe(n: nat): string {
    if n % 3 == 0 then "-." else "-"
  }

  lemma SignoDelante(signo: string, a: string, b: string)
    ensures signo + a + "." + b == signo + (a + "." + b)
  {
  }

  lemma {:induction false} GruposNegativo(d: string)
    requires d != ""
    ensures Grupos("-" + d) == SignoDe(|d|) + Grupos(d)
  {
    if |d| > 3 {
      var a, b := d[..|d| - 3], d[|d| - 3..];
      assert a + b == d && ("-" + a) + b == "-" + d;
      GruposNegativo(a);
      GruposPaso(a, b);
      GruposPaso("-" + a, b);
      SignoDelante(SignoDe(|a|), Grupos(a), b);
      assert SignoDe(|d|) == SignoDe(|a|);
    } else if |d| == 3 {
      GruposPaso("-", d);
    }
  }

  /** What formatMoney writes before the digits. */
  function Signo(m: Monto): string {
    if !m.negativo || m.centavos < 100 then ""
    else if |Digitos(m.centavos / 100)| % 3 == 0 then "-." else "-"
  }

  lemma EnteroAgrupado(m: Monto)
    ensures Grupos(Entero(m)) == Signo(m) + Grupos(Digitos(m.centavos / 100))
  {
    GruposNegativo(Digitos(m.centavos / 100));
  }

  lemma QuitaPeso(signo: string, g: string, d: string)
    ensures var s := "$" + (signo + g) + "," + d;
            s[0] == '$' && s[1..] == signo + (g + "," + d)
  {
  }

  lemma MoneyImprime(m: Monto)
    ensures FormatMoneyAFIP(m) == Signo(m) + Impreso(m.centavos)
  {
    EnteroAgrupado(m);
    QuitaPeso(Signo(m), Grupos(Digitos(m.centavos / 100)), DosDigitos(m.centavos % 100));
  }

  lemma {:induction false} GruposEmpieza(s: string)
    requires s != ""
    ensures Grupos(s) != "" && Grupos(s)[0] == s[0]
  {
    if |s| > 3 {
      GruposEmpieza(s[..|s| - 3]);
    }
  }

  lemma ImpresoEmpiezaConCifra(c: nat)
    ensures Impreso(c) != "" && '0' <= Impreso(c)[0] <= '9'
  {
    DigitosSonCifras(c / 100);
    GruposEmpieza(Digitos(c / 100));
  }

  /** The integer part fits an int64, as IntPart() needs. */
  predicate CabeEnInt64(m: Monto) {
    m.centavos / 100 < 0x8000_0000_0000_0000
  }

  /**
   * Exactly when the two printers agree, for every amount in range: when half-even rounding
   * does not go up and the amount is either non-negative or has a whole part whose number of
   * digits is no multiple of three.  Otherwise formatMoney drops the minus sign of an amount
   * below one peso, or writes a dot right after it.
   */
  lemma ImpresorasConcuerdanSiSoloSi(m: Monto)
    requires Valido(m) && CabeEnInt64(m)
    ensures FormatMoneyAFIP(m) == FormatDecimalAFIP(m) <==>
            !RedondeaArriba(m) &&
            (!m.negativo || (m.centavos >= 100 && |Digitos(m.centavos / 100)| % 3 != 0))
  {
    MoneyImprime(m);
    DecimalImprime(m);
    SignosDistintos(Signo(m), if m.negativo then "-" else "", m.centavos, CentavosBanquero(m));
  }

  /** The printed amounts agree only if the signs and the cents do. */
  lemma SignosDistintos(x: string, y: string, q: nat, c: nat)
    requires x in {"", "-", "-."} && y in {"", "-"}
    ensures x + Impreso(q) == y + Impreso(c) <==> x == y && q == c
  {
    ImpresoEmpiezaConCifra(q);
    ImpresoEmpiezaConCifra(c);
    ImpresoSeLee(q);
    ImpresoSeLee(c);
    var a, b := x + Impreso(q), y + Impreso(c);
    assert a[|x|..] == Impreso(q) && b[|y|..] == Impreso(c);
    if x != y {
      if x == "" || y == "" {
        assert a[0] != b[0];
      } else {
        assert a[1] != b[1];
      }
    }
  }

  /**
   * For every non-negative amount of at most two decimals, below 2^63, the printers agree,
   * every group after the first has three digits, and reading the text gives the amount back.
   */
  lemma ImpresorasSinPerdida(n: nat)
    requires n / 100 < 0x8000_0000_0000_0000
    ensures var m := Monto(false, n, 0, 1);
            FormatMoneyAFIP(m) == FormatDecimalAFIP(m) && Leer(FormatMoneyAFIP(m)) == n
    ensures var gs := Split(Split(FormatMoneyAFIP(Monto(false, n, 0, 1)), ',')[0], '.');
            1 <= |gs[0]| <= 3 && forall i | 1 <= i < |gs| :: |gs[i]| == 3
  {
    var m := Monto(false, n, 0, 1);
    ImpresorasConcuerdanSiSoloSi(m);
    MoneyImprime(m);
    assert FormatMoneyAFIP(m) == Impreso(n);
    ImpresoSeLee(n);
    ImpresoPartido(n);
  }

  lemma ImpresoPartido(n: nat)
    ensures var gs := Split(Split(Impreso(n), ',')[0], '.');
            1 <= |gs[0]| <= 3 && forall i | 1 <= i < |gs| :: |gs[i]| == 3
  {
    var a, b := Digitos(n / 100), DosDigitos(n % 100);
    DigitosSonCifras(n / 100);
    DosDigitosValor(n % 100);
    GruposDeTres(a);
    GruposSinComa(a);
    SplitConcatena(Grupos(a), b, ',');
    SplitSin(Grupos(a), ',');
  }

  lemma {:induction false} GruposSinComa(s: string)
    requires ',' !in s
    ensures ',' !in Grupos(s)
  {
    if |s| > 3 {
      GruposSinComa(s[..|s| - 3]);
    }
  }

  // ---- What each text says -------------------------------------------------------------------

  /** formatMoney writes the sign of the peso and then what formatMoneyAFIP writes. */
  lemma PesoDelante(m: Monto)
    ensures FormatMoney(m) == "$" + FormatMoneyAFIP(m)
  {
    assert FormatMoney(m)[0] == '$';
    assert "$" + FormatMoney(m)[1..] == FormatMoney(m);
  }

  /** Half-even: the nearest number of cents, and of two as near the even one. */
  lemma BanqueroExacto(m: Monto)
    requires m.resto < m.unidad
    ensures var c: int, u: int := CentavosBanquero(m), m.unidad;
            var x := m.centavos * u + m.resto;
            -u <= 2 * (c * u) - 2 * x <= u && (2 * (c * u) - 2 * x == u || 2 * (c * u) - 2 * x == -u ==> c % 2 == 0)
  {
    assert (m.centavos + 1) * m.unidad == m.centavos * m.unidad + m.unidad;
  }

  /**
   * Reading back: formatMoneyAFIP gives the amount truncated to cents, formatDecimalAFIP the
   * amount rounded half-even, behind their signs.
   */
  lemma TextosSeLeen(m: Monto)
    ensures var signo := if !m.negativo || m.centavos < 100 then ""
                         else if |Digitos(m.centavos / 100)| % 3 == 0 then "-." else "-";
            FormatMoneyAFIP(m) == signo + Impreso(m.centavos)
    ensures FormatDecimalAFIP(m) == (if m.negativo then "-" else "") + Impreso(CentavosBanquero(m))
    ensures !m.negativo ==> Leer(FormatMoneyAFIP(m)) == m.centavos && Leer(FormatDecimalAFIP(m)) == CentavosBanquero(m)
  {
    MoneyImprime(m);
    DecimalImprime(m);
    ImpresoSeLee(m.centavos);
    ImpresoSeLee(CentavosBanquero(m));
    assert "" + Impreso(m.centavos) == Impreso(m.centavos);
    assert "" + Impreso(CentavosBanquero(m)) == Impreso(CentavosBanquero(m));
  }

  // ---- The loops ----------------------------------------------------------------------------------

  /** What either loop has written after i characters of s. */
  function Escrito(s: string, i: nat): string
    requires i <= |s|
  {
    if i == 0 then ""
    else Escrito(s, i - 1) + (if i - 1 > 0 && (|s| - (i - 1)) % 3 == 0 then "." else "") + [s[i - 1]]
  }

  lemma {:induction false} EscritoPrefijo(s: string, i: nat)
    requires |s| > 3 && i <= |s| - 3
    ensures Escrito(s, i) == Escrito(s[..|s| - 3], i)
  {
    if i > 0 {
      EscritoPrefijo(s, i - 1);
    }
  }

  lemma EscritoConPunto(s: string, i: nat)
    requires 0 < i < |s| && (|s| - i) % 3 == 0
    ensures Escrito(s, i + 1) == Escrito(s, i) + "." + [s[i]]
  {
  }

  lemma EscritoSinPunto(s: string, i: nat)
    requires i < |s| && (|s| - i) % 3 != 0
    ensures Escrito(s, i + 1) == Escrito(s, i) + [s[i]]
  {
    assert Escrito(s, i) + "" + [s[i]] == Escrito(s, i) + [s[i]];
  }

  lemma TresSeguidos(a: string, b: string, c: string, d: string, s: string)
    requires |s| >= 3
    requires b == a + "." + [s[|s| - 3]] && c == b + [s[|s| - 2]] && d == c + [s[|s| - 1]]
    ensures d == a + "." + s[|s| - 3..]
  {
    assert s[|s| - 3..] == [s[|s| - 3]] + [s[|s| - 2]] + [s[|s| - 1]];
  }

  /** The last three characters are written after a dot. */
  lemma UltimosTres(s: string, n: nat)
    requires n == |s| > 3
    ensures Escrito(s, n) == Escrito(s, n - 3) + "." + s[n - 3..]
  {
    EscritoConPunto(s, n - 3);
    EscritoSinPunto(s, n - 2);
    EscritoSinPunto(s, n - 1);
    TresSeguidos(Escrito(s, n - 3), Escrito(s, n - 2), Escrito(s, n - 1), Escrito(s, n), s);
  }

  lemma {:induction false} EscritoEsGrupos(s: string)
    ensures Escrito(s, |s|) == Grupos(s)
  {
    var n := |s|;
    if n > 3 {
      EscritoPrefijo(s, n - 3);
      EscritoEsGrupos(s[..n - 3]);
      UltimosTres(s, n);
    } else {
      EscritoCorto(s, n);
      assert s[..n] == s;
    }
  }

  lemma {:induction false} EscritoCorto(s: string, i: nat)
    requires |s| <= 3 && i <= |s|
    ensures Escrito(s, i) == s[..i]
  {
    if i > 0 {
      EscritoCorto(s, i - 1);
    }
  }

  method FormatearMoney(m: Monto) returns (r: string)
    ensures r == FormatMoney(m)
  {
    var s := Entero(m);
    var b := "";
    for i := 0 to |s|
      invariant b == Escrito(s, i)
    {
      if i > 0 && (|s| - i) % 3 == 0 {
        b := b + ".";
      }
      b := b + [s[i]];
    }
    EscritoEsGrupos(s);
    r := "$" + b + "," + DosDigitos(m.centavos % 100);
  }

  method FormatearDecimalAFIP(m: Monto) returns (r: string)
    ensures r == FormatDecimalAFIP(m)
  {
    var partes := Split(StringFixed(CentavosBanquero(m)), '.');
    var intPart := partes[0];
    var fracPart := "";
    if |partes| > 1 {
      fracPart := partes[1];
    }
    var grouped := "";
    for i := 0 to |intPart|
      invariant grouped == Escrito(intPart, i)
    {
      if i > 0 && (|intPart| - i) % 3 == 0 {
        grouped := grouped + ".";
      }
      grouped := grouped + [intPart[i]];
    }
    EscritoEsGrupos(intPart);
    r := grouped + "," + fracPart;
    if m.negativo {
      r := "-" + r;
    }
  }
}
