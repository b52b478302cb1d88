/** The filter of `filtrarYRenderizarUsuarios` (script.js): which contacts of the
    loaded list stay visible for the current search term and birthday filters. */
module Filtro {
  import opened Texto
  import opened Contactos

  /** The raw values of the search box and of the day, month and year inputs
      of the filter panel ("" when empty). */
  datatype Filtros = Filtros(busqueda: string, dia: string, mes: string, anio: string)

  const SinFiltros := Filtros("", "", "", "")

  /** Some birthday filter holds a value. */
  predicate FiltrosFechaPuestos(f: Filtros) {
    f.dia != "" || f.mes != "" || f.anio != ""
  }

  /** `hayFiltrosActivos` of renderizarUsuarios: here the search term IS trimmed. */
  predicate HayFiltrosActivos(f: Filtros) {
    JsTrim(f.busqueda) != "" || FiltrosFechaPuestos(f)
  }

  /** `coincideBusqueda`: the lower-cased term occurs in the lower-cased name,
      in the lower-cased email when there is one, or in the phone's decimal
      text when there is a non-zero phone. */
  predicate CoincideBusqueda(c: Contacto, termino: string) {
    || Contains(ToLower(c.nombre), termino)
    || (TieneEmail(c) && Contains(ToLower(c.email.value), termino))
    || (TieneTelefono(c) && Contains(IntToString(c.telefono.value), termino))
  }

  /** The birthday filters. A contact without birthday passes them all; a
      dated one must match each filter that is set, part by part. A missing
      part is `undefined`, which equals an unknown month's `undefined`. */
  predicate PasaFiltrosFecha(c: Contacto, f: Filtros) {
    TieneFecha(c) ==>
      var p := PartesDe(c.fechaCumple.value);
      && (f.dia != "" ==> p.dia == Some(PadStart(f.dia, 2)))
      && (f.mes != "" ==> p.mes == MesNumero(f.mes))
      && (f.anio != "" ==> p.anio == Some(f.anio))
  }

  /** The callback given to `datosSimulados.filter`. The term is lower-cased
      but not trimmed. */
  predicate Coincide(c: Contacto, f: Filtros) {
    CoincideBusqueda(c, ToLower(f.busqueda)) && PasaFiltrosFecha(c, f)
  }

  /** `r` is `s` with some elements left out and the others in their order. */
  ghost predicate Subsecuencia<T>(r: seq<T>, s: seq<T>)
    decreases |s|
  {
    if r == [] then true
    else if s == [] then false
    else (r[0] == s[0] && Subsecuencia(r[1..], s[1..])) || Subsecuencia(r, s[1..])
  }

  /** `datosSimulados.filter(...)`: the contacts that match, in their order. */
  function Filtrar(datos: seq<Contacto>, f: Filtros): (r: seq<Contacto>)
    ensures forall c :: c in r <==> c in datos && Coincide(c, f)
    ensures Subsecuencia(r, datos)
    ensures forall c :: multiset(r)[c] == if Coincide(c, f) then multiset(datos)[c] else 0
  {
    if datos == [] then []
    else
      var resto := Filtrar(datos[1..], f);
      assert datos == [datos[0]] + datos[1..];
      if Coincide(datos[0], f) then
        var r := [datos[0]] + resto;
        assert r[1..] == resto;
        r
      else resto
  }

  // ---------------------------------------------------------------------------
  // Properties
  // ---------------------------------------------------------------------------

  /** Every string includes the empty string. */
  lemma ContainsEmpty(s: string)
    ensures Contains(s, "")
  {
    assert OccursAt(s, "", 0);
  }

  /** An empty term and no birthday filter keep the whole list, in order. */
  lemma {:induction false} FiltrarSinFiltros(datos: seq<Contacto>, f: Filtros)
    requires f.busqueda == "" && !FiltrosFechaPuestos(f)
    ensures Filtrar(datos, f) == datos
  {
    if datos != [] {
      ContainsEmpty(ToLower(datos[0].nombre));
      FiltrarSinFiltros(datos[1..], f);
    }
  }

  /** A contact without birthday is kept or dropped by the search term alone,
      whatever the day, month and year filters say. */
  lemma SinFechaSoloCuentaBusqueda(datos: seq<Contacto>, f: Filtros, c: Contacto)
    requires c in datos && !TieneFecha(c)
    ensures c in Filtrar(datos, f) <==> c in Filtrar(datos, f.(dia := "", mes := "", anio := ""))
  {
  }

  /** For a birthday as the DATE column gives it, the date filters compare the
      zero-padded day, the two-digit month and the four-digit year. */
  lemma FiltroDeFechaIso(c: Contacto, f: Filtros, anio: nat, mes: nat, dia: nat)
    requires c.fechaCumple == Some(FechaIso(anio, mes, dia))
    ensures PasaFiltrosFecha(c, f) <==>
      && (f.dia != "" ==> PadStart(f.dia, 2) == PadStart(Decimal(dia), 2))
      && (f.mes != "" ==> MesNumero(f.mes) == Some(PadStart(Decimal(mes), 2)))
      && (f.anio != "" ==> f.anio == PadStart(Decimal(anio), 4))
  {
    PartesDeFechaIso(anio, mes, dia);
  }

  /** Day 5 of March keeps a contact born on the 5th of March of any year and
      drops one born on the 6th (for 1990 the texts are those of
      `FechasDeMarzo`). */
  lemma DiaYMesDeMarzo(nacio5: Contacto, nacio6: Contacto, anio: nat)
    requires nacio5.fechaCumple == Some(FechaIso(anio, 3, 5))
    requires nacio6.fechaCumple == Some(FechaIso(anio, 3, 6))
    ensures PasaFiltrosFecha(nacio5, Filtros("", "5", "Mar", ""))
    ensures !PasaFiltrosFecha(nacio6, Filtros("", "5", "Mar", ""))
  {
    var f := Filtros("", "5", "Mar", "");
    FiltroDeFechaIso(nacio5, f, anio, 3, 5);
    FiltroDeFechaIso(nacio6, f, anio, 3, 6);
    CifrasDeMarzo();
    assert MesNumero("Mar") == Some("03");
  }

  lemma CifrasDeMarzo()
    ensures PadStart(Decimal(3), 2) == "03" && PadStart(Decimal(5), 2) == "05"
    ensures PadStart(Decimal(6), 2) == "06" && PadStart("5", 2) == "05"
  {
    assert Decimal(3) == "3" && Decimal(5) == "5" && Decimal(6) == "6";
  }

  lemma FechasDeMarzo()
    ensures FechaIso(1990, 3, 5) == "1990-03-05"
    ensures FechaIso(1990, 3, 6) == "1990-03-06"
  {
    Decimal1990();
    assert PadStart(Decimal(1990), 4) == "1990";
    CifrasDeMarzo();
  }

  lemma Decimal1990()
    ensures Decimal(1990) == "1990"
  {
    assert Decimal(1) == "1";
    assert Decimal(19) == Decimal(1) + "9";
    assert Decimal(199) == Decimal(19) + "9";
    assert Decimal(1990) == Decimal(199) + "0";
  }

  /** The day filter "0", which validation lets through, matches no real day:
      every contact with an ISO birthday on days 1-31 is dropped. */
  lemma DiaCeroNoCoincide(c: Contacto, f: Filtros, anio: nat, mes: nat, dia: nat)
    requires f.dia == "0" && 1 <= dia <= 31
    requires c.fechaCumple == Some(FechaIso(anio, mes, dia))
    ensures !PasaFiltrosFecha(c, f)
  {
    FiltroDeFechaIso(c, f, anio, mes, dia);
    var d := PadStart(Decimal(dia), 2);
    LeadingZerosValue(Decimal(dia), 2);
    DecimalRoundTrip(dia);
    if d == "00" {
      ZerosValue(d);
    }
  }

  /** A search box holding only a blank is not trimmed for matching, so it
      drops contacts while the cards still render as if no filter were active. */
  lemma BusquedaEnBlanco(ana: Contacto)
    requires ana == Contacto(1, "Ana", None, None, None)
    ensures !HayFiltrosActivos(Filtros(" ", "", "", ""))
    ensures Filtrar([ana], Filtros(" ", "", "", "")) == []
  {
    var f := Filtros(" ", "", "", "");
    assert JsTrim(" ") == "";
    assert ToLower(" ") == " ";
    assert ToLower("Ana") == "ana";
    assert !Contains("ana", " ");
    assert !Coincide(ana, f);
  }
}
