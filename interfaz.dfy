/** The browser-side state of script.js: the three side panels and the main
    area they push aside (`togglePanel`), and the agenda itself — the loaded
    contacts, the active sort, the filtered list and the rendered cards with
    their single edit mode (`filtrarYRenderizarUsuarios`, `renderizarUsuarios`,
    `mostrarFormularioEdicion`). */
module Interfaz {
  import opened Texto
  import opened Contactos
  import opened Filtro
  import opened Orden
  import opened Validacion

  // ---------------------------------------------------------------------------
  // Side panels
  // ---------------------------------------------------------------------------

  /** The ids of `sidebarPanels`: create, filter, sort. */
  const IdsPaneles: seq<string> := ["form-crear-usuario-panel", "filtrar-opciones", "ordenar-opciones"]

  /** The `mostrar` class of each side panel and the `desplazado` class of
      `<main>`. */
  class PanelesLaterales {
    const mostrar: array<bool>
    var desplazado: bool

    /** At most one panel is open, and the main area is pushed aside exactly
        when one is. */
    ghost predicate Valido()
      reads this, mostrar
    {
      && mostrar.Length == |IdsPaneles|
      && (forall i, j :: 0 <= i < j < mostrar.Length ==> !(mostrar[i] && mostrar[j]))
      && (desplazado <==> exists i :: 0 <= i < mostrar.Length && mostrar[i])
    }

    /** The page loads with every panel closed. */
    constructor ()
      ensures Valido() && fresh(mostrar)
      ensures forall i :: 0 <= i < mostrar.Length ==> !mostrar[i]
    {
      mostrar := new bool[|IdsPaneles|](_ => false);
      desplazado := false;
    }

    /** `togglePanel(panelId)`: closes every other panel, flips `panelId`,
        then sets `desplazado` to whether any panel is open. An id that is not
        a side panel finds no element and changes nothing. */
    method TogglePanel(panelId: string)
      requires mostrar.Length == |IdsPaneles|
      modifies this, mostrar
      ensures panelId !in IdsPaneles ==> mostrar[..] == old(mostrar[..]) && desplazado == old(desplazado)
      ensures panelId in IdsPaneles ==>
        && (forall i :: 0 <= i < mostrar.Length ==> mostrar[i] == (IdsPaneles[i] == panelId && !old(mostrar[i])))
        && Valido()
    {
      if panelId !in IdsPaneles {
        return;
      }
      var k := 0;
      while k < mostrar.Length
        invariant 0 <= k <= mostrar.Length
        invariant forall i :: 0 <= i < k ==> mostrar[i] == (IdsPaneles[i] == panelId && old(mostrar[i]))
        invariant forall i :: k <= i < mostrar.Length ==> mostrar[i] == old(mostrar[i])
      {
        if IdsPaneles[k] != panelId && mostrar[k] {
          mostrar[k] := false;
        }
        k := k + 1;
      }
      var objetivo := IndexOfPanel(panelId);
      mostrar[objetivo] := !mostrar[objetivo];

      var hayAbierto := false;
      k := 0;
      while k < mostrar.Length
        invariant 0 <= k <= mostrar.Length
        invariant hayAbierto <==> exists i :: 0 <= i < k && mostrar[i]
      {
        hayAbierto := hayAbierto || mostrar[k];
        k := k + 1;
      }
      desplazado := hayAbierto;
    }
  }

  /** The position of a side panel among `sidebarPanels`. */
  function IndexOfPanel(panelId: string): (k: nat)
    requires panelId in IdsPaneles
    ensures k < |IdsPaneles| && IdsPaneles[k] == panelId
  {
    if panelId == IdsPaneles[0] then 0 else if panelId == IdsPaneles[1] then 1 else 2
  }

  // ---------------------------------------------------------------------------
  // The agenda
  // ---------------------------------------------------------------------------

  const SinContactos := "No se encontraron contactos."
  const FiltrosInvalidos := "Filtros de fecha inválidos. Por favor, corrígelos."

  /** A rendered `.usuario-card`: the contact it shows, whether its
      `.info-oculta` details and its edit form are displayed, and whether it
      carries the `editando` class. */
  datatype Tarjeta = Tarjeta(contacto: Contacto, infoVisible: bool, formularioVisible: bool, editando: bool)

  /** The day and year filters pass `validarFormulario()`, called without a form. */
  ghost predicate FechasFiltroValidas(f: Filtros) {
    && (f.dia != "" ==> DiaAceptado(JsTrim(f.dia)))
    && (f.anio != "" ==> AnioAceptado(JsTrim(f.anio)))
  }

  /** The cards `renderizarUsuarios(usuarios)` draws: one per contact, in the
      sorted order, details shown iff a filter is active, no form open. */
  ghost predicate Dibujadas(tarjetas: seq<Tarjeta>, ordenados: seq<Contacto>, f: Filtros) {
    && |tarjetas| == |ordenados|
    && forall i :: 0 <= i < |tarjetas| ==> tarjetas[i] == Tarjeta(ordenados[i], HayFiltrosActivos(f), false, false)
  }

  /** A card whose edit form was closed: form and details hidden, no
      `editando` class. */
  function Cerrada(t: Tarjeta): (r: Tarjeta)
    ensures r.contacto == t.contacto && !r.editando
  {
    t.(formularioVisible := false, infoVisible := false, editando := false)
  }

  /** The index of the first card showing contact `usuarioId`, or the number
      of cards when there is none (`document.querySelector` finds the first). */
  function PrimeraTarjeta(tarjetas: seq<Tarjeta>, usuarioId: int): (k: nat)
    ensures k <= |tarjetas|
    ensures k < |tarjetas| ==> tarjetas[k].contacto.id == usuarioId
    ensures forall i :: 0 <= i < k ==> tarjetas[i].contacto.id != usuarioId
  {
    if tarjetas == [] then 0
    else if tarjetas[0].contacto.id == usuarioId then 0
    else 1 + PrimeraTarjeta(tarjetas[1..], usuarioId)
  }

  /** The state `script.js` keeps between events. */
  class Agenda {
    /** `datosSimulados`: the contacts of the last successful load. */
    var datos: seq<Contacto>
    /** `ordenamientoActivo`: "", "nombre" or "fecha_cumple". */
    var ordenamiento: string
    /** `listaUsuariosActual`: the last filtered list. */
    var listaActual: seq<Contacto>
    /** The values of the search box and of the day, month and year inputs. */
    var filtros: Filtros
    /** The text `#lista-usuarios` shows instead of, or before, the cards. */
    var aviso: Option<string>
    /** The cards inside `#lista-usuarios`, in order. */
    var tarjetas: array<Tarjeta>
    /** `localeCompare(a, b) <= 0`, left abstract. */
    const leNombre: (string, string) -> bool

    constructor (leNombre: (string, string) -> bool)
      requires PreordenTotal(leNombre)
      ensures this.leNombre == leNombre
      ensures datos == [] && ordenamiento == "" && listaActual == [] && filtros == SinFiltros
      ensures aviso == None && tarjetas.Length == 0
    {
      this.leNombre := leNombre;
      datos := [];
      ordenamiento := "";
      listaActual := [];
      filtros := SinFiltros;
      aviso := None;
      tarjetas := new Tarjeta[0];
    }

    /** `renderizarUsuarios(usuarios)`: sorts a copy for the active mode and
        replaces the cards; the lists it was given are left as they were. */
    method Renderizar(usuarios: seq<Contacto>)
      requires PreordenTotal(leNombre)
      modifies this
      ensures var ordenados := Ordenar(usuarios, ordenamiento, leNombre);
        && fresh(tarjetas)
        && Dibujadas(tarjetas[..], ordenados, filtros)
        && aviso == (if ordenados == [] then Some(SinContactos) else None)
      ensures datos == old(datos) && ordenamiento == old(ordenamiento)
      ensures listaActual == old(listaActual) && filtros == old(filtros)
    {
      var ordenados := Ordenar(usuarios, ordenamiento, leNombre);
      aviso := None;
      if |ordenados| == 0 {
        aviso := Some(SinContactos);
      }
      var hayFiltrosActivos := HayFiltrosActivos(filtros);
      var nuevas := new Tarjeta[|ordenados|];
      for i := 0 to |ordenados|
        modifies nuevas
        invariant forall j :: 0 <= j < i ==> nuevas[j] == Tarjeta(ordenados[j], hayFiltrosActivos, false, false)
      {
        nuevas[i] := Tarjeta(ordenados[i], hayFiltrosActivos, false, false);
      }
      tarjetas := nuevas;
    }

    /** `filtrarYRenderizarUsuarios()`: with a date filter set that fails
        validation, only the warning text is shown and the filtered list is
        kept; otherwise the loaded contacts are filtered and rendered. */
    method FiltrarYRenderizar()
      requires PreordenTotal(leNombre)
      modifies this
      ensures datos == old(datos) && ordenamiento == old(ordenamiento) && filtros == old(filtros)
      ensures fresh(tarjetas)
      ensures FiltrosFechaPuestos(filtros) && !FechasFiltroValidas(filtros) ==>
        && aviso == Some(FiltrosInvalidos)
        && tarjetas.Length == 0
        && listaActual == old(listaActual)
      ensures !(FiltrosFechaPuestos(filtros) && !FechasFiltroValidas(filtros)) ==>
        && listaActual == Filtrar(datos, filtros)
        && Dibujadas(tarjetas[..], Ordenar(listaActual, ordenamiento, leNombre), filtros)
        && aviso == (if listaActual == [] then Some(SinContactos) else None)
    {
      if FiltrosFechaPuestos(filtros) {
        var valido, errores := ValidarFormulario(None, Some(filtros.dia), Some(filtros.anio));
        ErroresSegunCampos(None, Some(filtros.dia), Some(filtros.anio));
        if !valido {
          aviso := Some(FiltrosInvalidos);
          tarjetas := new Tarjeta[0];
          return;
        }
      }
      listaActual := Filtrar(datos, filtros);
      Renderizar(listaActual);
    }

    /** The success branch of `cargarContactosDesdeDB`: the loaded list
        replaces `datosSimulados` and is filtered and rendered. */
    method RecibirContactos(contactos: seq<Contacto>)
      requires PreordenTotal(leNombre)
      modifies this
      ensures datos == contactos && ordenamiento == old(ordenamiento) && filtros == old(filtros)
      ensures fresh(tarjetas)
      ensures !(FiltrosFechaPuestos(filtros) && !FechasFiltroValidas(filtros)) ==>
        && listaActual == Filtrar(contactos, filtros)
        && Dibujadas(tarjetas[..], Ordenar(listaActual, ordenamiento, leNombre), filtros)
        && aviso == (if listaActual == [] then Some(SinContactos) else None)
      ensures FiltrosFechaPuestos(filtros) && !FechasFiltroValidas(filtros) ==>
        && aviso == Some(FiltrosInvalidos)
        && tarjetas.Length == 0
        && listaActual == old(listaActual)
    {
      datos := contactos;
      FiltrarYRenderizar();
    }

    /** The "sort by name" and "sort by birthday" buttons: set the mode, then
        filter and render again. */
    method ElegirOrden(modo: string)
      requires PreordenTotal(leNombre)
      modifies this
      ensures ordenamiento == modo && datos == old(datos) && filtros == old(filtros)
      ensures fresh(tarjetas)
      ensures !(FiltrosFechaPuestos(filtros) && !FechasFiltroValidas(filtros)) ==>
        && listaActual == Filtrar(datos, filtros)
        && Dibujadas(tarjetas[..], Ordenar(listaActual, modo, leNombre), filtros)
        && aviso == (if listaActual == [] then Some(SinContactos) else None)
      ensures FiltrosFechaPuestos(filtros) && !FechasFiltroValidas(filtros) ==>
        && aviso == Some(FiltrosInvalidos)
        && tarjetas.Length == 0
        && listaActual == old(listaActual)
    {
      ordenamiento := modo;
      FiltrarYRenderizar();
    }

    /** `mostrarFormularioEdicion(usuarioId)`: closes the edit form of every
        card in edit mode, then opens the form of the first card showing
        `usuarioId`, if any. Afterwards at most one card is in edit mode, and
        it is that card. */
    method MostrarFormularioEdicion(usuarioId: int)
      modifies tarjetas
      ensures var k := PrimeraTarjeta(old(tarjetas[..]), usuarioId);
        forall i :: 0 <= i < tarjetas.Length ==>
          tarjetas[i] == (
            if i == k then old(tarjetas[i]).(formularioVisible := true, infoVisible := false, editando := true)
            else if old(tarjetas[i]).editando then Cerrada(old(tarjetas[i]))
            else old(tarjetas[i]))
      ensures forall i :: 0 <= i < tarjetas.Length ==>
        (tarjetas[i].editando <==> i == PrimeraTarjeta(old(tarjetas[..]), usuarioId))
      ensures forall i, j :: 0 <= i < j < tarjetas.Length ==> !(tarjetas[i].editando && tarjetas[j].editando)
    {
      var i := 0;
      while i < tarjetas.Length
        invariant 0 <= i <= tarjetas.Length
        invariant forall j :: 0 <= j < i ==>
          tarjetas[j] == (if old(tarjetas[j]).editando then Cerrada(old(tarjetas[j])) else old(tarjetas[j]))
        invariant forall j :: i <= j < tarjetas.Length ==> tarjetas[j] == old(tarjetas[j])
      {
        if tarjetas[i].editando {
          tarjetas[i] := Cerrada(tarjetas[i]);
        }
        i := i + 1;
      }
      var k := PrimeraTarjeta(tarjetas[..], usuarioId);
      MismaPrimeraTarjeta(old(tarjetas[..]), tarjetas[..], usuarioId);
      if k == tarjetas.Length {
        return;
      }
      tarjetas[k] := tarjetas[k].(formularioVisible := true, infoVisible := false, editando := true);
    }
  }

  /** Closing edit forms does not move a contact to another card. */
  lemma {:induction false} MismaPrimeraTarjeta(a: seq<Tarjeta>, b: seq<Tarjeta>, usuarioId: int)
    requires |a| == |b| && forall i :: 0 <= i < |a| ==> a[i].contacto == b[i].contacto
    ensures PrimeraTarjeta(a, usuarioId) == PrimeraTarjeta(b, usuarioId)
  {
    if a != [] {
      MismaPrimeraTarjeta(a[1..], b[1..], usuarioId);
    }
  }
}
