/**
 Character classes and the two string operations the application leans on:
 keeping the characters of a class (a regular-expression substitution or a
 chain of `replace` calls) and trimming surrounding whitespace (`str.strip`).
 Only ASCII is modelled: a digit is '0'..'9' and whitespace is the ASCII
 subset of what Python's `str.isspace` accepts.
 */
module Texto {

  /** An ASCII decimal digit. */
  predicate EsDigito(c: char) {
    '0' <= c <= '9'
  }

  /** ASCII whitespace as `str.strip()` sees it: space, \t \n \v \f \r and
      the four separators \x1c..\x1f. */
  predicate EsEspacio(c: char) {
    c == ' ' || '\t' <= c <= '\r' || '\U{1C}' <= c <= '\U{1F}'
  }

  /** The character classes the application filters strings by: decimal
      digits (the phone normaliser) and everything but the separators ' ' and
      '-' (the WhatsApp number). */
  datatype Clase = Digito | NoSeparador

  /** `c` belongs to the class `p`. */
  predicate En(p: Clase, c: char) {
    match p
    case Digito => EsDigito(c)
    case NoSeparador => c != ' ' && c != '-'
  }

  /** Every character of `s` belongs to the class `p`. */
  predicate Todos(p: Clase, s: string) {
    forall i :: 0 <= i < |s| ==> En(p, s[i])
  }

  /** The characters of `s` that belong to `p`, in their original order. */
  function Filtrar(p: Clase, s: string): (r: string)
    ensures Todos(p, r)
    ensures |r| <= |s|
  {
    if s == [] then []
    else (if En(p, s[0]) then [s[0]] else []) + Filtrar(p, s[1..])
  }

  /** The digits of `s`, in order: `re.sub(r'\D', '', s)` on ASCII input. */
  function Digitos(s: string): (r: string)
    ensures Todos(Digito, r)
  {
    Filtrar(Digito, s)
  }

  /** Filtering commutes with concatenation: the kept characters of `a + b`
      are those of `a` followed by those of `b`. */
  lemma {:induction false} FiltrarConcat(p: Clase, a: string, b: string)
    ensures Filtrar(p, a + b) == Filtrar(p, a) + Filtrar(p, b)
  {
    if a == [] {
      assert a + b == b;
    } else {
      assert (a + b)[0] == a[0];
      assert (a + b)[1..] == a[1..] + b;
      FiltrarConcat(p, a[1..], b);
      var h := if En(p, a[0]) then [a[0]] else [];
      assert Filtrar(p, a + b) == h + Filtrar(p, a[1..] + b);
      assert Filtrar(p, a) == h + Filtrar(p, a[1..]);
    }
  }

  /** A string whose characters all belong to `p` is its own filtering. */
  lemma {:induction false} FiltrarTodos(p: Clase, s: string)
    requires Todos(p, s)
    ensures Filtrar(p, s) == s
  {
    if s != [] {
      FiltrarTodos(p, s[1..]);
    }
  }

  /** Filtering removes everything exactly when nothing belongs to `p`. */
  lemma {:induction false} FiltrarVacio(p: Clase, s: string)
    ensures Filtrar(p, s) == [] <==> forall i :: 0 <= i < |s| ==> !En(p, s[i])
  {
    if s != [] {
      FiltrarVacio(p, s[1..]);
      assert forall i :: 1 <= i < |s| ==> s[i] == s[1..][i - 1];
    }
  }

  /** Filtering twice keeps the same characters as filtering once. */
  lemma FiltrarIdempotente(p: Clase, s: string)
    ensures Filtrar(p, Filtrar(p, s)) == Filtrar(p, s)
  {
    FiltrarTodos(p, Filtrar(p, s));
  }

  /** Two classes that agree on every character of `s` keep the same ones. */
  lemma {:induction false} FiltrarCoincide(p: Clase, q: Clase, s: string)
    requires forall i :: 0 <= i < |s| ==> En(p, s[i]) == En(q, s[i])
    ensures Filtrar(p, s) == Filtrar(q, s)
  {
    if s != [] {
      assert forall i :: 0 <= i < |s[1..]| ==> s[1..][i] == s[i + 1];
      FiltrarCoincide(p, q, s[1..]);
    }
  }

  /** The first position at or after `i` that does not hold whitespace, or
      `|s|` when there is none. */
  function SaltarInicio(s: string, i: nat): (j: nat)
    requires i <= |s|
    ensures i <= j <= |s|
    ensures forall k :: i <= k < j ==> EsEspacio(s[k])
    ensures j == |s| || !EsEspacio(s[j])
    decreases |s| - i
  {
    if i < |s| && EsEspacio(s[i]) then SaltarInicio(s, i + 1) else i
  }

  /** The end of `s[i..j]` once its trailing whitespace is dropped. */
  function SaltarFin(s: string, i: nat, j: nat): (e: nat)
    requires i <= j <= |s|
    ensures i <= e <= j
    ensures forall k :: e <= k < j ==> EsEspacio(s[k])
    ensures e == i || !EsEspacio(s[e - 1])
    decreases j
  {
    if i < j && EsEspacio(s[j - 1]) then SaltarFin(s, i, j - 1) else j
  }

  /** `str.strip()`: `s` without leading and trailing whitespace. The result
      is the slice `s[i..i + |r|]` for the first non-whitespace position `i`,
      everything outside that slice is whitespace, and the slice neither
      starts nor ends with whitespace. */
  function Recortar(s: string): (r: string)
    ensures |r| <= |s|
    ensures r == [] || (!EsEspacio(r[0]) && !EsEspacio(r[|r| - 1]))
    ensures var i := SaltarInicio(s, 0);
      && i + |r| <= |s|
      && r == s[i..i + |r|]
      && (forall k :: 0 <= k < i ==> EsEspacio(s[k]))
      && (forall k :: i + |r| <= k < |s| ==> EsEspacio(s[k]))
  {
    var i := SaltarInicio(s, 0);
    s[i..SaltarFin(s, i, |s|)]
  }

  /** Trimming an already trimmed string changes nothing. */
  lemma RecortarIdempotente(s: string)
    ensures Recortar(Recortar(s)) == Recortar(s)
  {
  }

  /** Trimming removes only whitespace, so a string without digits stays
      without digits. */
  lemma RecortarSinDigitos(s: string)
    requires Digitos(s) == []
    ensures Digitos(Recortar(s)) == []
  {
    var r := Recortar(s);
    var i := SaltarInicio(s, 0);
    FiltrarVacio(Digito, s);
    forall k | 0 <= k < |r|
      ensures !En(Digito, r[k])
    {
      assert r[k] == s[i + k];
    }
    FiltrarVacio(Digito, r);
  }
}
