/**
 Normalisation of Peruvian phone numbers to the readable international form
 `+51 ddd ddd ddd` (utils/phones.py). A Peruvian mobile number is nine digits
 starting with 9; it may be written with a trunk `0` in front or with the
 country code `51` in front, and with any punctuation in between.
 */
module Telefonos {
  import opened Texto

  /** Nine digits starting with 9: a Peruvian mobile number without prefix. */
  predicate EsMovil(d: string) {
    |d| == 9 && Todos(Digito, d) && d[0] == '9'
  }

  /** The digit strings the normaliser recognises as a mobile number: the bare
      nine digits, the nine digits behind a trunk `0`, or the nine digits
      behind the country code `51`. In every case the mobile number is the
      last nine digits. */
  predicate AceptaMovil(d: string) {
    || EsMovil(d)
    || (|d| == 10 && d[0] == '0' && EsMovil(d[1..]))
    || (|d| == 11 && d[..2] == "51" && EsMovil(d[2..]))
  }

  /** `+51 ddd ddd ddd` for the nine digits `m`. */
  function Formatear(m: string): (r: string)
    requires |m| == 9
    ensures |r| == 15
    ensures r[..4] == "+51 " && r[7] == ' ' && r[11] == ' '
    ensures r[4..7] == m[..3] && r[8..11] == m[3..6] && r[12..] == m[6..]
  {
    "+51 " + m[..3] + " " + m[3..6] + " " + m[6..]
  }

  /** The two prefix reductions of the normaliser, applied in source order:
      a 10-digit string loses a leading `0`, then an 11-digit string loses a
      leading `51`. */
  function Reducir(d: string): (r: string)
    ensures |d| == 10 && d[0] == '0' ==> r == d[1..]
    ensures |d| == 11 && d[..2] == "51" ==> r == d[2..]
    ensures !(|d| == 10 && d[0] == '0') && !(|d| == 11 && d[..2] == "51") ==> r == d
  {
    var d1 := if |d| == 10 && d[0] == '0' then d[1..] else d;
    if |d1| == 11 && d1[..2] == "51" then d1[2..] else d1
  }

  /** `normalizar_telefono_peru`. */
  function NormalizarTelefonoPeru(t: string): (r: string)
    ensures t == [] ==> r == []
    ensures AceptaMovil(Digitos(t)) ==>
      |r| == 15 && r == Formatear(Digitos(t)[|Digitos(t)| - 9..])
    ensures !AceptaMovil(Digitos(t)) && Digitos(t) != [] ==>
      r != [] && Todos(Digito, r) && r == Reducir(Digitos(t))
    ensures Digitos(t) == [] ==> r == Recortar(t)
  {
    if t == [] then []
    else
      var d := Reducir(Digitos(t));
      if |d| == 9 && d[0] == '9' then Formatear(d)
      else if d != [] then d
      else Recortar(t)
  }

  /** Reducing is idempotent: the result of a reduction never qualifies for
      another one. */
  lemma ReducirIdempotente(d: string)
    ensures Reducir(Reducir(d)) == Reducir(d)
  {
  }

  /** The digits of a formatted number are the country code followed by the
      nine digits it was formatted from. */
  lemma DigitosFormateados(m: string)
    requires |m| == 9 && Todos(Digito, m)
    ensures Digitos(Formatear(m)) == "51" + m
  {
    var a, b, c := m[..3], m[3..6], m[6..];
    SoloDigitos(a);
    SoloDigitos(b);
    SoloDigitos(c);
    var x1 := "+51 " + a;
    assert Digitos(x1) == "51" + a by {
      DigitosPrefijo();
      FiltrarConcat(Digito, "+51 ", a);
    }
    var x3 := x1 + " " + b;
    DigitosConEspacio(x1, b);
    var x5 := x3 + " " + c;
    DigitosConEspacio(x3, c);
    assert Formatear(m) == x5;
    assert "51" + a + b + c == "51" + m;
  }

  /** A space contributes no digits. */
  lemma DigitosConEspacio(x: string, y: string)
    ensures Digitos(x + " " + y) == Digitos(x) + Digitos(y)
  {
    FiltrarConcat(Digito, x + " ", y);
    FiltrarConcat(Digito, x, " ");
    assert Digitos(" ") == [] by { assert " " == [' '] + []; }
  }

  /** The digits of the formatted prefix. */
  lemma DigitosPrefijo()
    ensures Digitos("+51 ") == "51"
  {
  }

  /** A formatted mobile number is a fixed point of the normaliser. */
  lemma FormateadoEstable(m: string)
    requires EsMovil(m)
    ensures NormalizarTelefonoPeru(Formatear(m)) == Formatear(m)
  {
    var f := Formatear(m);
    DigitosFormateados(m);
    var d := "51" + m;
    assert d[..2] == "51" && d[2..] == m;
    assert Reducir(Digitos(f)) == m;
  }

  /** A reduced digit string that is not a mobile number is a fixed point of
      the normaliser. */
  lemma DigitosEstables(d: string)
    requires d != [] && Todos(Digito, d) && Reducir(d) == d
    requires !(|d| == 9 && d[0] == '9')
    ensures NormalizarTelefonoPeru(d) == d
  {
    FiltrarTodos(Digito, d);
  }

  /** A trimmed digit-free string is a fixed point of the normaliser. */
  lemma RecorteEstable(t: string)
    requires Digitos(t) == []
    ensures NormalizarTelefonoPeru(Recortar(t)) == Recortar(t)
  {
    RecortarSinDigitos(t);
    RecortarIdempotente(t);
  }

  /** Normalising a normalised number gives it back unchanged: a formatted
      number's digits are `51` followed by the mobile, which the normaliser
      reduces and formats again; a digit fallback is already reduced; a
      digit-free fallback is already trimmed. */
  lemma NormalizarIdempotente(t: string)
    ensures NormalizarTelefonoPeru(NormalizarTelefonoPeru(t)) == NormalizarTelefonoPeru(t)
  {
    if t != [] {
      var d := Reducir(Digitos(t));
      if |d| == 9 && d[0] == '9' {
        FormateadoEstable(d);
      } else if d != [] {
        ReducirIdempotente(Digitos(t));
        DigitosEstables(d);
      } else {
        RecorteEstable(t);
      }
    }
  }

  /** A phone whose digits are a mobile number, bare or behind a trunk `0` or
      the country code `51`, normalises to that mobile number's format,
      whatever punctuation surrounds the digits. */
  lemma MovilReconocido(t: string, m: string)
    requires EsMovil(m)
    requires Digitos(t) == m || Digitos(t) == "0" + m || Digitos(t) == "51" + m
    ensures NormalizarTelefonoPeru(t) == Formatear(m)
  {
  }

  // The worked examples of the normaliser's documentation: five spellings of
  // one mobile number, and the form they all normalise to.
  const EjemploNueve: string := "947236123"
  const EjemploEspacios: string := "947 236 123"
  const EjemploMas: string := "+51947236123"
  const EjemploCero: string := "0947236123"
  const EjemploCodigo: string := "51947236123"
  const EjemploNormalizado: string := "+51 947 236 123"

  /** The documented example written as nine bare digits. */
  lemma EjemploNueveNormaliza()
    ensures NormalizarTelefonoPeru(EjemploNueve) == EjemploNormalizado
  {
    var m := EjemploNueve;
    assert EsMovil(m);
    assert Formatear(m) == EjemploNormalizado;
    SoloDigitos(m);
    MovilReconocido(EjemploNueve, m);
  }

  /** The documented example written with a trunk `0`. */
  lemma EjemploCeroNormaliza()
    ensures NormalizarTelefonoPeru(EjemploCero) == EjemploNormalizado
  {
    var m := EjemploNueve;
    assert EsMovil(m);
    assert Formatear(m) == EjemploNormalizado;
    assert EjemploCero == "0" + m;
    SoloDigitos("0" + m);
    MovilReconocido(EjemploCero, m);
  }

  /** The documented example written with the country code `51`. */
  lemma EjemploCodigoNormaliza()
    ensures NormalizarTelefonoPeru(EjemploCodigo) == EjemploNormalizado
  {
    var m := EjemploNueve;
    assert EsMovil(m);
    assert Formatear(m) == EjemploNormalizado;
    assert EjemploCodigo == "51" + m;
    SoloDigitos("51" + m);
    MovilReconocido(EjemploCodigo, m);
  }

  /** The documented example written with `+51`. */
  lemma EjemploMasNormaliza()
    ensures NormalizarTelefonoPeru(EjemploMas) == EjemploNormalizado
  {
    var m := EjemploNueve;
    assert EsMovil(m);
    assert Formatear(m) == EjemploNormalizado;
    assert EjemploMas == "+" + ("51" + m);
    assert Digitos("+") == [] by { assert "+" == ['+'] + []; }
    SoloDigitos("51" + m);
    FiltrarConcat(Digito, "+", "51" + m);
    MovilReconocido(EjemploMas, m);
  }

  /** The documented example written in space-separated groups. */
  lemma EjemploEspaciosNormaliza()
    ensures NormalizarTelefonoPeru(EjemploEspacios) == EjemploNormalizado
  {
    var m := EjemploNueve;
    assert EsMovil(m);
    assert Formatear(m) == EjemploNormalizado;
    var a, b, c := m[..3], m[3..6], m[6..];
    assert EjemploEspacios == a + " " + b + " " + c;
    DigitosAgrupados(m);
    MovilReconocido(EjemploEspacios, m);
  }

  /** Nine digits written as three space-separated groups have those nine
      digits as their digit string. */
  lemma DigitosAgrupados(m: string)
    requires |m| == 9 && Todos(Digito, m)
    ensures Digitos(m[..3] + " " + m[3..6] + " " + m[6..]) == m
  {
    var a, b, c := m[..3], m[3..6], m[6..];
    SoloDigitos(a);
    SoloDigitos(b);
    SoloDigitos(c);
    DigitosConEspacio(a, b);
    DigitosConEspacio(a + " " + b, c);
    assert a + b + c == m;
  }

  /** A string of ASCII digits is its own digit string. */
  lemma SoloDigitos(s: string)
    requires Todos(Digito, s)
    ensures Digitos(s) == s
  {
    FiltrarTodos(Digito, s);
  }
}
