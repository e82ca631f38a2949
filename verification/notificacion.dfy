/**
 The phone number of the WhatsApp link built after an appointment is
 authorized (`enviar_whatsapp_notificacion` in app.py): the stored phone with
 its spaces and hyphens removed, with the country code 51 put in front of a
 bare nine-digit mobile number. The message text and the link itself are
 library formatting and are not modelled.
 */
module Notificacion {
  import opened Opcion
  import opened Texto
  import opened Telefonos

  /** The stored phone without its spaces and hyphens. */
  function SinSeparadores(s: string): (r: string)
    ensures forall i :: 0 <= i < |r| ==> r[i] != ' ' && r[i] != '-'
  {
    Filtrar(NoSeparador, s)
  }

  /** The number of the WhatsApp link for a row whose phone is `telefono`, or
      nothing when the phone is missing or empty (no link is built). The
      number holds no separator and ends with the phone's non-separator
      characters `s`; it is two characters longer, starting with the country
      code `51`, exactly when `s` is nine characters starting with 9, and is
      `s` itself otherwise. */
  function NumeroWhatsApp(telefono: Option<string>): (r: Option<string>)
    ensures r.None? <==> telefono.None? || telefono.value == []
    ensures r.Some? ==> Todos(NoSeparador, r.value)
    ensures r.Some? ==>
      var s := SinSeparadores(telefono.value);
      && |s| <= |r.value| && r.value[|r.value| - |s|..] == s
      && (|r.value| == |s| + 2 <==> |s| == 9 && s[0] == '9')
      && (|r.value| != |s| ==> |r.value| == |s| + 2 && r.value[..2] == "51")
  {
    if telefono.None? || telefono.value == [] then None
    else
      var s := SinSeparadores(telefono.value);
      if |s| == 9 && s[0] == '9' then Some("51" + s) else Some(s)
  }

  /** Rewriting a link number again changes nothing, provided the phone had
      something besides separators: the number has no separators left, and a
      number that received the prefix has eleven characters. */
  lemma NumeroWhatsAppIdempotente(telefono: string)
    requires SinSeparadores(telefono) != []
    ensures NumeroWhatsApp(NumeroWhatsApp(Some(telefono))) == NumeroWhatsApp(Some(telefono))
  {
    var r := NumeroWhatsApp(Some(telefono)).value;
    var s := SinSeparadores(telefono);
    assert Todos(NoSeparador, s);
    if |s| == 9 && s[0] == '9' {
      assert Todos(NoSeparador, "51" + s);
    }
    FiltrarTodos(NoSeparador, r);
  }

  /** A non-empty phone made only of spaces and hyphens passes the emptiness
      check and yields an empty link number. */
  lemma SoloSeparadores(t: string)
    requires t != []
    requires forall i :: 0 <= i < |t| ==> t[i] == ' ' || t[i] == '-'
    ensures NumeroWhatsApp(Some(t)) == Some([])
  {
    FiltrarVacio(NoSeparador, t);
  }

  /** For a bare nine-digit mobile number written with digits, spaces and
      hyphens only, the link number is the digit string of the normalised
      number: both rewrites agree on the number they put after the country
      code. */
  lemma WhatsAppCoincideConNormalizado(telefono: string)
    requires forall i :: 0 <= i < |telefono| ==>
      EsDigito(telefono[i]) || telefono[i] == ' ' || telefono[i] == '-'
    requires EsMovil(Digitos(telefono))
    ensures NumeroWhatsApp(Some(telefono)) == Some(Digitos(NormalizarTelefonoPeru(telefono)))
  {
    var m := Digitos(telefono);
    FiltrarCoincide(NoSeparador, Digito, telefono);
    assert SinSeparadores(telefono) == m;
    MovilReconocido(telefono, m);
    DigitosFormateados(m);
  }

  /** The two rewrites disagree on a mobile number written behind the trunk
      `0`: the link keeps the `0` and gets no country code, while the
      normaliser drops the `0` and formats the number behind `+51`. */
  lemma WhatsAppConCeroDifiere(m: string)
    requires EsMovil(m)
    ensures NumeroWhatsApp(Some("0" + m)) == Some("0" + m)
    ensures Digitos(NormalizarTelefonoPeru("0" + m)) == "51" + m
  {
    var t := "0" + m;
    assert Todos(NoSeparador, t);
    FiltrarTodos(NoSeparador, t);
    SoloDigitos(t);
    MovilReconocido(t, m);
    DigitosFormateados(m);
  }
}
