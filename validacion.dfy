/** `validarFormulario` (script.js): the checks on the email and phone of the
    create and edit forms, and on the day and year inputs of the filter panel. */
module Validacion {
  import opened Texto

  /** The form handed to validarFormulario: its `id` attribute and the values
      of its `email` and `telefono` fields (None when it has no such field). */
  datatype Formulario = Formulario(id: string, email: Option<string>, telefono: Option<string>)

  /** The messages validarFormulario can push onto `errores`. */
  datatype Error =
    | ErrorEmail | ErrorTelefono | ErrorDia | ErrorDiaRango
    | ErrorAnioNoNumerico | ErrorAnioMinimo | ErrorAnioLargo

  /** The text of each message, as shown in the warning toast. */
  function TextoDe(e: Error): string {
    match e
    case ErrorEmail => "Por favor, introduce un correo electrónico válido."
    case ErrorTelefono => "Por favor, introduce un número telefónico válido (7 a 15 dígitos)."
    case ErrorDia => "El día debe ser un número entre 1 y 31."
    case ErrorDiaRango => "El día de filtro debe ser un número entre 1 y 31."
    case ErrorAnioNoNumerico => "El año de filtro debe contener solo números enteros."
    case ErrorAnioMinimo => "El año de filtro es inválido (mínimo 1925)."
    case ErrorAnioLargo => "El año de filtro no puede tener más de 4 dígitos."
  }

  // ---------------------------------------------------------------------------
  // What the regular expressions accept
  // ---------------------------------------------------------------------------

  /** `/^[^\s@]+@[^\s@]+\.[^\s@]+$/` split at its `@` (index `i`) and at the
      literal dot (index `j`): three non-empty runs of characters that are
      neither white space nor `@`. */
  ghost predicate EmailPartido(s: string, i: int, j: int) {
    && 0 < i && i + 1 < j && j + 1 < |s|
    && s[i] == '@' && s[j] == '.'
    && SinEspacios(s) && ArrobaUnica(s, i)
  }

  ghost predicate ArrobaUnica(s: string, i: int) {
    forall k :: 0 <= k < |s| && s[k] == '@' ==> k == i
  }

  ghost predicate EmailSegunRegex(s: string) {
    exists i, j :: EmailPartido(s, i, j)
  }

  predicate SinEspacios(s: string) {
    forall k :: 0 <= k < |s| ==> !IsJsSpace(s[k])
  }

  /** `emailRegex.test(s)`: the first `@` has text before it, no other `@`
      follows it, and a dot sits strictly inside the text after it. */
  function CoincideEmail(s: string): (r: bool)
    ensures r <==> EmailSegunRegex(s)
  {
    var i := IndexOf(s, '@');
    if 0 < i && i + 3 < |s| && '@' !in s[i + 1..] && SinEspacios(s) && Contains(s[i + 2..|s| - 1], ".") then
      EmailAceptado(s, i);
      true
    else
      EmailExigeForma(s, i);
      false
  }

  lemma EmailAceptado(s: string, i: nat)
    requires i == IndexOf(s, '@') && 0 < i && i + 3 < |s| && '@' !in s[i + 1..] && SinEspacios(s)
    requires Contains(s[i + 2..|s| - 1], ".")
    ensures EmailSegunRegex(s)
  {
    ArrobaSinRepetir(s, i);
    var j := PuntoDespues(s, i);
    assert EmailPartido(s, i, j);
  }

  /** With no `@` after the first one, that one is the only one. */
  lemma ArrobaSinRepetir(s: string, i: nat)
    requires i == IndexOf(s, '@') && i < |s| && '@' !in s[i + 1..]
    ensures ArrobaUnica(s, i)
  {
    forall k | 0 <= k < i ensures s[k] != '@' {
      assert s[k] == s[..i][k];
    }
    forall k | i < k < |s| ensures s[k] != '@' {
      assert s[k] == s[i + 1..][k - i - 1];
    }
  }

  /** A dot inside the text after the `@`, with a character on each side. */
  lemma PuntoDespues(s: string, i: nat) returns (j: int)
    requires i + 3 < |s| && Contains(s[i + 2..|s| - 1], ".")
    ensures i + 1 < j && j + 1 < |s| && s[j] == '.'
  {
    var t := s[i + 2..|s| - 1];
    var m :| OccursAt(t, ".", m);
    assert t[m..m + 1][0] == t[m];
    j := i + 2 + m;
  }

  lemma EmailExigeForma(s: string, i: nat)
    requires i == IndexOf(s, '@')
    ensures EmailSegunRegex(s) ==>
      && 0 < i && i + 3 < |s| && '@' !in s[i + 1..] && SinEspacios(s)
      && Contains(s[i + 2..|s| - 1], ".")
  {
    if EmailSegunRegex(s) {
      EmailEnSuSitio(s, i);
    }
  }

  lemma EmailEnSuSitio(s: string, i: nat)
    requires i == IndexOf(s, '@') && EmailSegunRegex(s)
    ensures 0 < i && i + 3 < |s| && '@' !in s[i + 1..] && SinEspacios(s)
    ensures Contains(s[i + 2..|s| - 1], ".")
  {
    var a, j :| EmailPartido(s, a, j);
    PrimeraArroba(s, i, a, j);
    SinOtraArroba(s, i, j);
    PuntoTrasArroba(s, i, j);
  }

  /** The only `@` of a matching address is its first one. */
  lemma PrimeraArroba(s: string, i: nat, a: int, j: int)
    requires i == IndexOf(s, '@') && EmailPartido(s, a, j)
    ensures a == i
  {
    assert s[a] in s;
  }

  lemma SinOtraArroba(s: string, i: nat, j: int)
    requires EmailPartido(s, i, j)
    ensures '@' !in s[i + 1..]
  {
    var u := s[i + 1..];
    forall k | 0 <= k < |u| ensures u[k] != '@' {
      assert u[k] == s[i + 1 + k];
    }
  }

  lemma PuntoTrasArroba(s: string, i: nat, j: int)
    requires EmailPartido(s, i, j)
    ensures Contains(s[i + 2..|s| - 1], ".")
  {
    var t := s[i + 2..|s| - 1];
    assert t[j - i - 2] == s[j];
    assert t[j - i - 2..j - i - 1] == [s[j]];
    assert OccursAt(t, ".", j - i - 2);
  }

  /** `/^[0-9]{7,15}$/`. */
  predicate CoincideTelefono(s: string) {
    7 <= |s| <= 15 && AllDigits(s)
  }

  /** `/^(0?[1-9]|[12]\d|3[01])$/`, one alternative per line. */
  predicate CoincideDia(s: string) {
    || (|s| == 1 && '1' <= s[0] <= '9')
    || (|s| == 2 && s[0] == '0' && '1' <= s[1] <= '9')
    || (|s| == 2 && (s[0] == '1' || s[0] == '2') && IsDigit(s[1]))
    || (|s| == 2 && s[0] == '3' && (s[1] == '0' || s[1] == '1'))
  }

  /** The day pattern accepts exactly the one- or two-digit texts worth 1 to 31. */
  lemma DiaEntre1y31(s: string)
    ensures CoincideDia(s) <==> 1 <= |s| <= 2 && AllDigits(s) && 1 <= DigitsValue(s) <= 31
  {
    if |s| == 2 && AllDigits(s) {
      assert s[..1] == [s[0]];
      assert DigitsValue(s) == DigitValue(s[0]) * 10 + DigitValue(s[1]);
    } else if |s| == 1 && AllDigits(s) {
      assert DigitsValue(s) == DigitValue(s[0]);
    }
  }

  /** `/^\d+$/`. */
  predicate CoincideAnio(s: string) {
    |s| >= 1 && AllDigits(s)
  }

  // ---------------------------------------------------------------------------
  // validarFormulario
  // ---------------------------------------------------------------------------

  /** The day and year inputs are examined only without a form or for the
      filter panel's own form. */
  predicate ValidaFechas(formulario: Option<Formulario>) {
    formulario.None? || formulario.value.id == "filtrar-opciones"
  }

  /** A truthy (present and non-empty) input value. */
  predicate Relleno(v: Option<string>) { v.Some? && v.value != "" }

  /** The trimmed day the filter accepts: "0", let through on purpose, or 1-31. */
  ghost predicate DiaAceptado(d: string) {
    d == "0" || (1 <= |d| <= 2 && AllDigits(d) && 1 <= DigitsValue(d) <= 31)
  }

  /** The trimmed year the filter accepts: digits only, at most four of them,
      and 1925 or later when there are exactly four. */
  ghost predicate AnioAceptado(a: string) {
    CoincideAnio(a) && |a| <= 4 && (|a| == 4 ==> DigitsValue(a) >= 1925)
  }

  /** The message the email field earns, if any. */
  function ErroresEmail(formulario: Option<Formulario>): (r: seq<Error>)
    ensures r == [] || r == [ErrorEmail]
    ensures r == [ErrorEmail] <==>
      formulario.Some? && Relleno(formulario.value.email) && !EmailSegunRegex(formulario.value.email.value)
  {
    if formulario.Some? && Relleno(formulario.value.email) && !CoincideEmail(formulario.value.email.value)
    then [ErrorEmail] else []
  }

  /** The message the phone field earns, if any. */
  function ErroresTelefono(formulario: Option<Formulario>): (r: seq<Error>)
    ensures r == [] || r == [ErrorTelefono]
    ensures r == [ErrorTelefono] <==>
      formulario.Some? && Relleno(formulario.value.telefono)
      && !(7 <= |formulario.value.telefono.value| <= 15 && AllDigits(formulario.value.telefono.value))
  {
    if formulario.Some? && Relleno(formulario.value.telefono) && !CoincideTelefono(formulario.value.telefono.value)
    then [ErrorTelefono] else []
  }

  /** The message the day filter earns, if any: "0" and the texts the day
      pattern accepts pass, and the range check after `parseInt` never fires. */
  function ErroresDia(diaFiltro: Option<string>): (r: seq<Error>)
    ensures r == [] || r == [ErrorDia]
    ensures r == [ErrorDia] <==> Relleno(diaFiltro) && !DiaAceptado(JsTrim(diaFiltro.value))
  {
    if !Relleno(diaFiltro) then []
    else
      var diaStr := JsTrim(diaFiltro.value);
      DiaEntre1y31(diaStr);
      if diaStr == "0" then []
      else if !CoincideDia(diaStr) then [ErrorDia]
      else
        var dia := DigitsValue(diaStr);
        if dia < 1 || dia > 31 then [ErrorDiaRango] else []
  }

  /** The message the year filter earns, if any. */
  function ErroresAnio(anioFiltro: Option<string>): (r: seq<Error>)
    ensures r == [] || r == [ErrorAnioNoNumerico] || r == [ErrorAnioMinimo] || r == [ErrorAnioLargo]
    ensures r == [] <==> !Relleno(anioFiltro) || AnioAceptado(JsTrim(anioFiltro.value))
    ensures r == [ErrorAnioNoNumerico] <==> Relleno(anioFiltro) && !CoincideAnio(JsTrim(anioFiltro.value))
    ensures r == [ErrorAnioMinimo] <==>
      Relleno(anioFiltro) && CoincideAnio(JsTrim(anioFiltro.value))
      && |JsTrim(anioFiltro.value)| == 4 && DigitsValue(JsTrim(anioFiltro.value)) < 1925
    ensures r == [ErrorAnioLargo] <==>
      Relleno(anioFiltro) && CoincideAnio(JsTrim(anioFiltro.value)) && |JsTrim(anioFiltro.value)| > 4
  {
    if !Relleno(anioFiltro) then []
    else
      var anioStr := JsTrim(anioFiltro.value);
      if !CoincideAnio(anioStr) then [ErrorAnioNoNumerico]
      else if |anioStr| == 4 then
        (if DigitsValue(anioStr) < 1925 then [ErrorAnioMinimo] else [])
      else if |anioStr| > 4 then [ErrorAnioLargo]
      else []
  }

  /** Every message of one validation, in the order the checks run. */
  function Errores(formulario: Option<Formulario>, diaFiltro: Option<string>, anioFiltro: Option<string>)
    : seq<Error>
  {
    var campos := ErroresEmail(formulario) + ErroresTelefono(formulario);
    if ValidaFechas(formulario) then campos + ErroresDia(diaFiltro) + ErroresAnio(anioFiltro) else campos
  }

  /** The result is false exactly when some check failed; a form that is
      neither absent nor the filter panel never has its dates examined. */
  lemma ErroresSegunCampos(formulario: Option<Formulario>, diaFiltro: Option<string>, anioFiltro: Option<string>)
    ensures Errores(formulario, diaFiltro, anioFiltro) == [] <==>
      && !(formulario.Some? && Relleno(formulario.value.email) && !EmailSegunRegex(formulario.value.email.value))
      && !(formulario.Some? && Relleno(formulario.value.telefono) && !CoincideTelefono(formulario.value.telefono.value))
      && (ValidaFechas(formulario) ==>
            && (Relleno(diaFiltro) ==> DiaAceptado(JsTrim(diaFiltro.value)))
            && (Relleno(anioFiltro) ==> AnioAceptado(JsTrim(anioFiltro.value))))
    ensures ErrorDiaRango !in Errores(formulario, diaFiltro, anioFiltro)
    ensures |Errores(formulario, diaFiltro, anioFiltro)| <= 4
  {
    var e, t := ErroresEmail(formulario), ErroresTelefono(formulario);
    var d, a := ErroresDia(diaFiltro), ErroresAnio(anioFiltro);
    assert |e + t + d + a| == |e| + |t| + |d| + |a|;
    assert ErrorDiaRango !in e && ErrorDiaRango !in t && ErrorDiaRango !in d && ErrorDiaRango !in a;
  }

  /** Runs the checks in the order validarFormulario does, pushing one message
      per failed check. `diaFiltro` and `anioFiltro` are the values of the
      filter panel's day and year inputs (None when the page has no such
      element). */
  method ValidarFormulario(formulario: Option<Formulario>, diaFiltro: Option<string>, anioFiltro: Option<string>)
    returns (valido: bool, errores: seq<Error>)
    ensures errores == Errores(formulario, diaFiltro, anioFiltro)
    ensures valido <==> errores == []
  {
    valido := true;
    errores := [];

    if formulario.Some? && Relleno(formulario.value.email) {
      if !CoincideEmail(formulario.value.email.value) {
        errores := errores + [ErrorEmail];
        valido := false;
      }
    }

    if formulario.Some? && Relleno(formulario.value.telefono) {
      if !CoincideTelefono(formulario.value.telefono.value) {
        errores := errores + [ErrorTelefono];
        valido := false;
      }
    }
    assert errores == ErroresEmail(formulario) + ErroresTelefono(formulario);
    assert valido <==> errores == [];

    if ValidaFechas(formulario) {
      valido, errores := ValidarFechas(valido, errores, diaFiltro, anioFiltro);
    }
  }

  /** The day and year block of validarFormulario, continuing from the flag and
      the messages the form fields left. */
  method ValidarFechas(valido0: bool, errores0: seq<Error>, diaFiltro: Option<string>, anioFiltro: Option<string>)
    returns (valido: bool, errores: seq<Error>)
    requires valido0 <==> errores0 == []
    ensures errores == errores0 + ErroresDia(diaFiltro) + ErroresAnio(anioFiltro)
    ensures valido <==> errores == []
  {
    valido, errores := valido0, errores0;
    if Relleno(diaFiltro) {
      var diaStr := JsTrim(diaFiltro.value);
      if diaStr == "0" {
      } else if !CoincideDia(diaStr) {
        errores := errores + [ErrorDia];
        valido := false;
      } else {
        var dia := DigitsValue(diaStr);
        if dia < 1 || dia > 31 {
          errores := errores + [ErrorDiaRango];
          valido := false;
        }
      }
    }
    assert errores == errores0 + ErroresDia(diaFiltro);
    ghost var medio := errores;

    if Relleno(anioFiltro) {
      var anioStr := JsTrim(anioFiltro.value);
      if !CoincideAnio(anioStr) {
        errores := errores + [ErrorAnioNoNumerico];
        valido := false;
      } else if |anioStr| == 4 {
        var anio := DigitsValue(anioStr);
        if anio < 1925 {
          errores := errores + [ErrorAnioMinimo];
          valido := false;
        }
      } else if |anioStr| > 4 {
        errores := errores + [ErrorAnioLargo];
        valido := false;
      }
    }
    assert errores == medio + ErroresAnio(anioFiltro);
  }

  /** Years of one to three digits pass the year check. */
  lemma AniosCortosAceptados(a: string)
    requires 1 <= |a| <= 3 && AllDigits(a)
    ensures AnioAceptado(a)
  {
  }
}
