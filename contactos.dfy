/** The contact record as the listing endpoint sends it and the browser script
    keeps it, the month table of the filter panel, and the birthday key the
    "sort by birthday" mode compares. */
module Contactos {
  import opened Texto

  /** One element of `contactos` in the JSON of obtener_contactos.php:
      `{id, nombre, telefono, email, fecha_cumple}`. `telefono` is a number or
      null, `email` and `fecha_cumple` a string or null. */
  datatype Contacto = Contacto(
    id: int,
    nombre: string,
    telefono: Option<int>,
    email: Option<string>,
    fechaCumple: Option<string>)

  // JavaScript truthiness of the optional fields (null, 0 and "" are falsy).
  predicate TieneTelefono(c: Contacto) { c.telefono.Some? && c.telefono.value != 0 }
  predicate TieneEmail(c: Contacto) { c.email.Some? && c.email.value != "" }
  predicate TieneFecha(c: Contacto) { c.fechaCumple.Some? && c.fechaCumple.value != "" }

  // ---------------------------------------------------------------------------
  // mesesMapping
  // ---------------------------------------------------------------------------

  /** The month abbreviations of the filter's <select>, January first. */
  const Meses: seq<string> :=
    ["Ene", "Feb", "Mar", "Abr", "May", "Jun", "Jul", "Ago", "Sep", "Oct", "Nov", "Dic"]

  const MesesMapping: map<string, string> := map[
    "Ene" := "01", "Feb" := "02", "Mar" := "03", "Abr" := "04", "May" := "05", "Jun" := "06",
    "Jul" := "07", "Ago" := "08", "Sep" := "09", "Oct" := "10", "Nov" := "11", "Dic" := "12"]

  /** `mesesMapping[abreviatura]`: undefined (None) for anything that is not
      one of the twelve abbreviations. */
  function MesNumero(abreviatura: string): (r: Option<string>)
    ensures r.Some? <==> abreviatura in Meses
  {
    if abreviatura in MesesMapping then Some(MesesMapping[abreviatura]) else None
  }

  /** The k-th abbreviation maps to month k written with two digits. */
  lemma MesesEnOrden(k: nat)
    requires 1 <= k <= 12
    ensures MesNumero(Meses[k - 1]) == Some(PadStart(Decimal(k), 2))
  {
    DosCifras(k);
    MesDeLaTabla(k);
  }

  /** The entry of `mesesMapping` for the k-th abbreviation, digit by digit. */
  lemma MesDeLaTabla(k: nat)
    requires 1 <= k <= 12
    ensures MesesMapping[Meses[k - 1]] == [DigitChar(k / 10), DigitChar(k % 10)]
  {
    match k
    case 1 => assert MesesMapping["Ene"] == "01";
    case 2 => assert MesesMapping["Feb"] == "02";
    case 3 => assert MesesMapping["Mar"] == "03";
    case 4 => assert MesesMapping["Abr"] == "04";
    case 5 => assert MesesMapping["May"] == "05";
    case 6 => assert MesesMapping["Jun"] == "06";
    case 7 => assert MesesMapping["Jul"] == "07";
    case 8 => assert MesesMapping["Ago"] == "08";
    case 9 => assert MesesMapping["Sep"] == "09";
    case 10 => assert MesesMapping["Oct"] == "10";
    case 11 => assert MesesMapping["Nov"] == "11";
    case 12 => assert MesesMapping["Dic"] == "12";
  }

  /** A month number written with two digits. */
  lemma DosCifras(k: nat)
    requires 1 <= k <= 12
    ensures PadStart(Decimal(k), 2) == [DigitChar(k / 10), DigitChar(k % 10)]
  {
    if k >= 10 {
      assert Decimal(k / 10) == [DigitChar(1)];
    }
  }

  // ---------------------------------------------------------------------------
  // The parts of fecha_cumple
  // ---------------------------------------------------------------------------

  /** `const [anio, mes, dia] = fecha_cumple.split('-')`: a part the string
      does not have is `undefined` (None). */
  datatype PartesFecha = PartesFecha(anio: Option<string>, mes: Option<string>, dia: Option<string>)

  function Parte(partes: seq<string>, k: nat): Option<string> {
    if k < |partes| then Some(partes[k]) else None
  }

  function PartesDe(fecha: string): PartesFecha {
    var partes := Split(fecha, '-');
    PartesFecha(Parte(partes, 0), Parte(partes, 1), Parte(partes, 2))
  }

  /** The `YYYY-MM-DD` text MySQL gives for a DATE value. */
  function FechaIso(anio: nat, mes: nat, dia: nat): string {
    PadStart(Decimal(anio), 4) + "-" + PadStart(Decimal(mes), 2) + "-" + PadStart(Decimal(dia), 2)
  }

  /** The three parts of an ISO date are its zero-padded year, month and day. */
  lemma {:induction false} PartesDeFechaIso(anio: nat, mes: nat, dia: nat)
    ensures PartesDe(FechaIso(anio, mes, dia)) == PartesFecha(
      Some(PadStart(Decimal(anio), 4)), Some(PadStart(Decimal(mes), 2)), Some(PadStart(Decimal(dia), 2)))
  {
    LeadingZerosValue(Decimal(anio), 4);
    LeadingZerosValue(Decimal(mes), 2);
    LeadingZerosValue(Decimal(dia), 2);
    PartesDeTres(PadStart(Decimal(anio), 4), PadStart(Decimal(mes), 2), PadStart(Decimal(dia), 2));
  }

  /** Three digit runs joined by dashes split back into those three runs. */
  lemma PartesDeTres(y: string, m: string, d: string)
    requires AllDigits(y) && AllDigits(m) && AllDigits(d)
    ensures PartesDe(y + "-" + m + "-" + d) == PartesFecha(Some(y), Some(m), Some(d))
  {
    NoDashInDigits(y);
    NoDashInDigits(m);
    NoDashInDigits(d);
    var partes := [y, m, d];
    assert Join(partes, '-') == y + "-" + m + "-" + d by {
      assert partes[1..][1..] == [d];
      assert Join(partes[1..], '-') == m + ['-'] + d;
      assert Join(partes, '-') == y + ['-'] + (m + ['-'] + d);
    }
    SplitJoin(partes, '-');
  }

  lemma NoDashInDigits(s: string)
    requires AllDigits(s)
    ensures '-' !in s
  {
  }

  // ---------------------------------------------------------------------------
  // The birthday sort key
  // ---------------------------------------------------------------------------

  /** A calendar date, compared year first, then month, then day. */
  datatype Fecha = Fecha(anio: nat, mes: nat, dia: nat)

  /** `new Date(0)`: 1970-01-01, what a contact without birthday is sorted as. */
  const Epoca := Fecha(1970, 1, 1)

  predicate FechaLe(a: Fecha, b: Fecha) {
    || a.anio < b.anio
    || (a.anio == b.anio && a.mes < b.mes)
    || (a.anio == b.anio && a.mes == b.mes && a.dia <= b.dia)
  }

  function ValorParte(p: Option<string>): nat {
    if p.Some? && AllDigits(p.value) then DigitsValue(p.value) else 0
  }

  /** The date a contact is sorted by: its birthday when it has one, and the
      epoch when `fecha_cumple` is null or empty. */
  function ClaveFecha(c: Contacto): Fecha {
    if TieneFecha(c) then
      var p := PartesDe(c.fechaCumple.value);
      Fecha(ValorParte(p.anio), ValorParte(p.mes), ValorParte(p.dia))
    else Epoca
  }

  /** A birthday in the form the DATE column returns is sorted by its own date. */
  lemma ClaveDeFechaIso(c: Contacto, anio: nat, mes: nat, dia: nat)
    requires c.fechaCumple == Some(FechaIso(anio, mes, dia))
    ensures ClaveFecha(c) == Fecha(anio, mes, dia)
  {
    PartesDeFechaIso(anio, mes, dia);
    LeadingZerosValue(Decimal(anio), 4);
    LeadingZerosValue(Decimal(mes), 2);
    LeadingZerosValue(Decimal(dia), 2);
    DecimalRoundTrip(anio);
    DecimalRoundTrip(mes);
    DecimalRoundTrip(dia);
  }
}
