# Agenda de contactos — a Dafny model

This project models the core of a small contact book web application. The
browser side (`script.js`) loads the logged-in user's contacts, filters them by
a search term and by birthday day, month and year, sorts them by name or by
birthday, validates forms and filter inputs, toggles the side panels and opens
the edit form of one card. The server side is a set of PHP endpoints over two
MySQL tables, `contacto` and `usuario`. They create, edit, delete and list the
contacts of the user in session, and register new users.

The model is split by module:

- `texto.dfy` (`Texto`): the string builtins the core relies on. These are
  `toLowerCase`, JavaScript `trim` and PHP `trim` (which strip different
  white space), `includes`, `split`, `padStart`, `String(n)`, PHP `empty()`,
  the PHP `(int)` cast and `strlen` as a UTF-8 byte count.
- `contactos.dfy` (`Contactos`): the contact record returned by
  `obtener_contactos.php`, `mesesMapping`, the split of `fecha_cumple` into its
  parts, and the date a contact is sorted by.
- `filtro.dfy` (`Filtro`): the predicate handed to `datosSimulados.filter` in
  `filtrarYRenderizarUsuarios`.
- `orden.dfy` (`Orden`): the sort in `renderizarUsuarios`. `Array.prototype.sort`
  is stable, so it is modelled by a stable insertion sort over a total
  preorder. `Orden.OrdenEstableUnico` proves that every stable sort gives this
  same result.
- `validacion.dfy` (`Validacion`): `validarFormulario`. It is a method that runs
  the checks in the source's order, proved equal to a specification function
  built from one function per check. The email pattern's language is a ghost
  predicate, and the executable email matcher is proved to accept exactly that
  language. The phone, day and year patterns are executable predicates written
  from their patterns; `Validacion.DiaEntre1y31` characterises the day pattern
  by the value it admits.
- `interfaz.dfy` (`Interfaz`): the page state as two classes.
  - `PanelesLaterales` holds the `mostrar` flag of each side panel in an array
    and the `desplazado` flag of the main area.
  - `Agenda` holds `datosSimulados`, `ordenamientoActivo`,
    `listaUsuariosActual`, the filter inputs, the text shown in the list and
    the rendered cards (an array).
- `servidor.dfy` (`Servidor`): the PHP endpoints, as methods of a class
  `BaseDeDatos`. It holds the `contacto` table as a map from `id` to row, the
  AUTO_INCREMENT counter and the `usuario` table as a map from `correo` to
  row. The guards of the create, edit and delete endpoints
  are also pure functions (`RechazoCreacion`, `RechazoEdicion`,
  `RechazoEliminacion`), and those methods are proved against them;
  `Registrar` and `ObtenerContactos` state their guards in their own
  contracts.

The following are parameters of the model rather than code in it:
- `localeCompare` and the collation of `ORDER BY nombre`: an abstract total
  preorder `leNombre`;
- `filter_var(..., FILTER_VALIDATE_EMAIL)`: an abstract predicate `esEmail`;
- `password_hash`: an abstract function `cifrar`.

The session is a value (`Sesion`) handed to each endpoint. An absent
`$_SESSION['email']` is the empty string.

When sorting by birthday, `new Date(0)` sorts undated contacts as 1970-01-01,
so contacts born before 1970 come before them
(`Orden.AntesDe1970PrimeroQueSinFecha`).

The day filter's second message ("El día de filtro debe ser un número entre 1 y
31.") can never be produced: the pattern test before it already admits only 1 to
31 (`Validacion.ErroresSegunCampos`, `ErrorDiaRango !in …`).

## Model

| member | source | states |
|---|---|---|
| Texto.ToLower | script.js:510-518 | `toLowerCase` keeps the length, leaves no capital letter, and changes nothing but capitals |
| Texto.ToLowerIdempotent | script.js:510-518 | lower-casing a lower-cased text changes nothing, so the term and the names are compared on the same footing |
| Texto.Trim | script.js:370 | `trim` returns the slice of the input between two all-space ends; it neither starts nor ends with a space, and it is empty exactly when the input is all space |
| Texto.TrimIdempotent | php/crear_contacto.php:32-35 | trimming a trimmed value changes nothing |
| Texto.Contains | script.js:516-518 | `includes(t)` holds exactly when `t` occurs at some position |
| Texto.IndexOf | script.js:433 | the position of the first occurrence of a character; it is the length exactly when the character does not occur |
| Texto.Split | script.js:523 | `split('-')` gives at least one part, no part holds the separator, and joining the parts gives the input back |
| Texto.SplitJoin | script.js:523 | splitting a join of separator-free parts gives the parts back |
| Texto.PadStart | script.js:526 | `padStart(w, '0')` gives length `max(|s|, w)`, ends with `s` and has only zeros in front |
| Texto.Decimal | script.js:518 | `String(n)` of a natural number is a canonical digit string (no leading zero) |
| Texto.IntToString | script.js:518 | `String(i)` is the decimal text, with a minus sign for negatives |
| Texto.CastOfIntToString | php/obtener_contactos.php:58 | the PHP `(int)` cast reads back every integer `String` prints, negative ones included |
| Texto.DecimalRoundTrip | script.js:518 | the value of `String(n)` is `n` |
| Texto.CanonicalRoundTrip | script.js:518 | a canonical digit string is the text of its own value |
| Texto.LeadingZerosValue | script.js:526 | padding with zeros does not change a digit string's value |
| Texto.PhpEmpty | php/crear_contacto.php:74-76 | defines PHP's `empty()` on a string: true for "" and "0" only |
| Texto.PhpIntCast | php/editar_contacto.php:43 | defines PHP's `(int)` cast of a string: skip leading white space, read an optional sign and the longest run of digits, and give 0 when there are none |
| Texto.CastOfDigits | php/obtener_contactos.php:56-58 | the PHP `(int)` cast of a run of digits is its decimal value |
| Texto.CastOfCanonical | php/obtener_contactos.php:58 | a canonical digit string survives `(int)` and printing back |
| Texto.Utf8Length | php/registro.php:42 | `strlen` counts between one and four bytes per character: exactly one per character for ASCII text, and more than the character count as soon as one character is not ASCII |
| Contactos.PartesDe | script.js:523 | defines `fecha_cumple.split('-')` destructured into year, month and day, a missing part being `undefined` |
| Contactos.ClaveFecha | script.js:358-359 | defines the birthday sort key: the date the year, month and day parts name, and the epoch (1970-01-01) for a contact without a birthday |
| Contactos.MesNumero | script.js:39-42 | `mesesMapping[m]` is defined exactly for the twelve abbreviations |
| Contactos.MesesEnOrden | script.js:39-42 | the k-th abbreviation maps to month k written with two digits |
| Contactos.PartesDeFechaIso | script.js:523 | splitting an ISO date gives its zero-padded year, month and day |
| Contactos.ClaveDeFechaIso | script.js:358-359 | a contact with an ISO birthday is sorted by that date |
| Filtro.HayFiltrosActivos | script.js:370-373 | defines "filters active": the trimmed search term is not empty, or a day, month or year filter is set |
| Filtro.CoincideBusqueda | script.js:516-518 | defines the search match: the lower-cased term occurs in the lower-cased name, in the lower-cased email if there is one, or in the phone's decimal text if there is a non-zero phone |
| Filtro.PasaFiltrosFecha | script.js:522-536 | defines the date filters: an undated contact passes; a dated one needs the padded day, the month number and the year text to equal its parts for each filter that is set |
| Filtro.Coincide | script.js:515-539 | defines the `.filter` callback: the lower-cased term matches and the date filters pass |
| Filtro.Filtrar | script.js:515-539 | the filtered list holds exactly the contacts that match, each as many times as in the input, in their original order (a subsequence) |
| Filtro.FiltrarSinFiltros | script.js:510-539 | an empty search term and no date filter keep the whole list |
| Filtro.SinFechaSoloCuentaBusqueda | script.js:522 | a contact without a birthday is kept or dropped by the search term alone |
| Filtro.FiltroDeFechaIso | script.js:522-536 | for an ISO birthday, the filters compare the padded day, the two-digit month and the four-digit year |
| Filtro.DiaYMesDeMarzo | script.js:526-533 | day "5" of "Mar" keeps a contact born on 5 March of any year and drops one born on 6 March |
| Filtro.FechasDeMarzo | script.js:523 | the ISO texts of 1990-03-05 and 1990-03-06 |
| Filtro.DiaCeroNoCoincide | script.js:456-458 | the day filter "0", which validation lets through, matches no real day |
| Filtro.BusquedaEnBlanco | script.js:370-373 | a blank search term counts as "no filter" for rendering but still drops contacts |
| Orden.Insertar | script.js:355 | inserting adds exactly one element to the multiset |
| Orden.OrdenarPor | script.js:355-361 | the sort is a permutation, is ordered and keeps tied elements in their input order |
| Orden.OrdenarIdempotente | script.js:355-361 | sorting a sorted list changes nothing |
| Orden.OrdenadasIguales | script.js:355-361 | two sorted, stable permutations of the same list are equal |
| Orden.OrdenEstableUnico | script.js:355-361 | any sorted stable permutation is the model's sort |
| Orden.PrimeroEsMinimo | script.js:355-361 | the head of a sorted list ranks at or below every element |
| Orden.PorNombrePreorden | script.js:355 | comparing by `localeCompare` on names is a total preorder |
| Orden.PorFechaPreorden | script.js:357-361 | comparing by birthday (the epoch when missing) is a total preorder |
| Orden.PorNombre | script.js:355 | defines the name comparator: `a` goes at or before `b` when the collation puts `a.nombre` at or before `b.nombre` |
| Orden.PorFecha | script.js:357-361 | defines the birthday comparator: `a` goes at or before `b` when `dateA - dateB <= 0`, by `Contactos.ClaveFecha` |
| Orden.Ordenar | script.js:351-362 | by name or by birthday: a stable sorted permutation; any other mode leaves the list as is |
| Orden.SinFechaEnLaEpoca | script.js:358-359 | when sorting by birthday, an undated contact sits where 1970-01-01 would |
| Orden.AntesDe1970PrimeroQueSinFecha | script.js:358-360 | a contact born in any year before 1970 comes before an undated one |
| Orden.OrdenarDos | script.js:355-361 | two elements out of order are swapped |
| Validacion.CoincideEmail | script.js:433-434 | the matcher accepts exactly the strings the email pattern describes |
| Validacion.EmailExigeForma | script.js:433 | every address the pattern accepts has one `@`, text before it, a dot after it with text on both sides, and no white space |
| Validacion.CoincideTelefono | script.js:441 | defines `/^[0-9]{7,15}$/`: 7 to 15 characters, all digits |
| Validacion.CoincideDia | script.js:454 | defines the day pattern: one of `0?[1-9]`, `[12]\d` or `3[01]` and nothing else, one alternative per disjunct |
| Validacion.CoincideAnio | script.js:473 | defines `/^\d+$/`: at least one character, all digits |
| Validacion.DiaEntre1y31 | script.js:454-458 | the day pattern accepts exactly the one- or two-digit texts worth 1 to 31 |
| Validacion.ErroresEmail | script.js:432-438 | a message exactly when a form with a non-empty email fails the pattern |
| Validacion.ErroresTelefono | script.js:440-446 | a message exactly when a non-empty phone is not 7 to 15 digits |
| Validacion.ErroresDia | script.js:452-467 | a message exactly when a non-empty day, trimmed, is neither "0" nor 1 to 31 |
| Validacion.ErroresAnio | script.js:469-486 | one of three messages (not numeric, below 1925, over four digits) exactly in the matching case |
| Validacion.Errores | script.js:426-495 | defines the messages `validarFormulario` gathers: email, then phone, then, for no form or the filter panel, day and year |
| Validacion.ErroresSegunCampos | script.js:426-495 | validation passes exactly when every check passes; the second day message never appears; at most four messages |
| Validacion.ValidarFormulario | script.js:426-495 | the method pushes exactly the specified messages in order, and returns true exactly when there are none |
| Validacion.ValidarFechas | script.js:451-487 | the date block appends the day and year messages to those already gathered |
| Validacion.AniosCortosAceptados | script.js:469-486 | years of one to three digits pass the year check |
| Interfaz.PanelesLaterales.constructor | script.js:240-261 | the page starts with every panel closed and the main area in place |
| Interfaz.PanelesLaterales.TogglePanel | script.js:240-261 | closes every other panel, flips the chosen one, and pushes the main area aside exactly when a panel is open; at most one panel is ever open |
| Interfaz.PrimeraTarjeta | script.js:407 | the first card showing the contact, or the number of cards when none does |
| Interfaz.Cerrada | script.js:398-405 | closing a card's form keeps its contact and clears `editando` |
| Interfaz.Agenda.constructor | script.js:21-33 | the page starts with no contacts, no sort mode, an empty current list, empty filters and no cards |
| Interfaz.Agenda.Renderizar | script.js:351-392 | one card per contact of the sorted copy, details shown exactly when a filter is active, and the "no contacts" text exactly for an empty list |
| Interfaz.Agenda.FiltrarYRenderizar | script.js:502-543 | invalid date filters show the warning and leave the list; otherwise the list becomes the filtered contacts and is rendered |
| Interfaz.Agenda.RecibirContactos | script.js:93-95 | the loaded contacts replace the data; with invalid date filters the warning shows, no card is drawn and the list is kept; otherwise the list becomes the filtered contacts, drawn sorted, with the "no contacts" text exactly when it is empty |
| Interfaz.Agenda.ElegirOrden | script.js:761-771 | the sort mode changes; with invalid date filters the warning shows, no card is drawn and the list is kept; otherwise the list becomes the filtered contacts, drawn in the new order, with the "no contacts" text exactly when it is empty |
| Interfaz.Agenda.MostrarFormularioEdicion | script.js:397-418 | every form is closed, then the first card of the contact alone is in edit mode |
| Interfaz.MismaPrimeraTarjeta | script.js:398-407 | closing forms does not move a contact to another card |
| Servidor.Leer | php/editar_contacto.php:43-48 | each text field is the trim of its posted value (`''` when not posted); `id` is the `(int)` cast of the posted value, and 0 when absent; the password is untouched |
| Servidor.NombreEnBlancoRechazado | php/crear_contacto.php:32-48 | a name posted as white space only is trimmed to "" and refused as missing |
| Servidor.IdAusenteRechazado | php/editar_contacto.php:58-65 | an edit or delete request posting no `id` reads it as 0 and is refused as an invalid id |
| Servidor.LeerRecorta | php/editar_contacto.php:44-47 | every text field read is its own trim |
| Servidor.Opcional | php/crear_contacto.php:74-76 | "" and "0" are stored as NULL, anything else as itself |
| Servidor.FilaNueva | php/crear_contacto.php:78-83 | the inserted row belongs to the session user, and each optional column is NULL exactly when its field is empty |
| Servidor.Actualizada | php/editar_contacto.php:109-113 | the update writes the same columns an insert would and keeps the owner |
| Servidor.RechazoAcceso | php/editar_contacto.php:23-40 | the request passes exactly with a session and POST; no session is reported first |
| Servidor.RechazoDatos | php/crear_contacto.php:42-57 | the data pass exactly with a non-empty name and an empty or valid email |
| Servidor.RechazoId | php/editar_contacto.php:58-65 | the id passes exactly when positive |
| Servidor.RechazoCreacion | php/crear_contacto.php:14-57 | creation passes its guards exactly with a session, POST, a name and an empty or valid email |
| Servidor.RechazoEdicion | php/editar_contacto.php:23-84 | edition passes its guards exactly with a session, POST, a positive id, a name and an empty or valid email |
| Servidor.RechazoEliminacion | php/eliminar_contacto.php:23-56 | deletion passes its guards exactly with a session, POST and a positive id |
| Servidor.FilasEncontradas | php/editar_contacto.php:109-113 | the UPDATE reaches a row exactly when the id exists and belongs to the user |
| Servidor.DecidirEdicion | php/editar_contacto.php:128-153 | defines the reply as written: success when `affected_rows > 0`, otherwise "not found" when the id has no row and "no permission" when it has one |
| Servidor.FilasCambiadas | php/editar_contacto.php:128 | `affected_rows` as MySQL reports it: positive only when the user's row actually changes |
| Servidor.EdicionSegunFilasEncontradas | php/editar_contacto.php:128-162 | counting matched rows: success exactly on the user's own row, "not found" exactly for a missing id, "no permission" exactly for another user's row |
| Servidor.EdicionSinCambiosComoEscrita | php/editar_contacto.php:128-162 | as written: an owner who saves a contact unchanged is told it is not theirs |
| Servidor.CreadaEnSuLista | php/crear_contacto.php:78-83 | a new contact joins its owner's list and no other list |
| Servidor.EliminadaDeSuLista | php/eliminar_contacto.php:76 | a deleted contact leaves its owner's list and no other list changes |
| Servidor.PorNombreFilaPreorden | php/obtener_contactos.php:45 | ordering rows by name is a total preorder |
| Servidor.AContacto | php/obtener_contactos.php:55-61 | the JSON record keeps id, name, email and birthday; the phone is NULL exactly when the column is NULL, "" or "0" |
| Servidor.TelefonoCanonico | php/obtener_contactos.php:58 | a phone stored as canonical digits reaches the browser with the same digits |
| Servidor.TelefonoPierdeCero | php/obtener_contactos.php:58 | a phone stored with a leading zero reaches the browser without it |
| Servidor.BaseDeDatos.CrearContacto | php/crear_contacto.php:14-95 | refused requests change nothing and carry the first failing guard's message; otherwise one row owned by the session user is added under a fresh id, which is returned; every existing row is untouched |
| Servidor.BaseDeDatos.EditarContacto | php/editar_contacto.php:23-162 | a refused request changes nothing and gets its guard's message; otherwise the caller's own row gets the four new fields with its key and owner kept and the reply is success, a missing id gets "not found", another user's id gets "no permission", and every other row stays as it was, success being decided on rows matched (`FilasEncontradas`) rather than on rows changed |
| Servidor.BaseDeDatos.EliminarContacto | php/eliminar_contacto.php:23-126 | refused requests change nothing; otherwise only the user's own row is removed, and the reply tells a missing contact from another user's; other users' rows are untouched |
| Servidor.BaseDeDatos.Buscar | php/obtener_contactos.php:41-44 | the rows whose owner is the user, each once and no other |
| Servidor.BaseDeDatos.Seleccionar | php/obtener_contactos.php:41-46 | the rows of the user, each once, ordered by name |
| Servidor.BaseDeDatos.ObtenerContactos | php/obtener_contactos.php:16-71 | without a session, the session error; otherwise one record per row of the user and no other, ordered by name |
| Servidor.BaseDeDatos.Registrar | php/registro.php:6-107 | each guard's message in order; success exactly when every guard passes and the email is new, and then the user is stored with the hashed password and the session record is set |
| Servidor.LongitudEnBytes | php/registro.php:42 | the six-character minimum counts bytes: three two-byte letters pass, five one-byte letters do not |

## Findings

| source | as written | input that shows it | evidently intended | confidence | as-written member | corrected member |
|---|---|---|---|---|---|---|
| php/editar_contacto.php:128-153 | success is decided by `affected_rows > 0`, which MySQL counts as rows whose values changed | the owner of contact 7 saves its edit form without changing any field: no row changes, the follow-up SELECT finds the contact, and the reply is "No tienes permisos para editar este contacto" | an owner's edit succeeds whether or not a value changes; "no permission" only for another user's contact | not executed | Servidor.EdicionSinCambiosComoEscrita | Servidor.EdicionSegunFilasEncontradas |

## Left out

- DOM rendering details (HTML of the cards, `feather.replace()`, toasts, the join of the toast text) are left out: only the state they show is modelled.
- Fetching (`cargarContactosDesdeDB`) and the calls to the endpoints are left out, because they are network I/O. `Interfaz.Agenda.RecibirContactos` models the success branch only; the error toasts and the redirect to `login.html` are not modelled.
- `localeCompare` and the SQL collation are abstract total preorders. Ties under `ORDER BY nombre` come in no promised order, so `Servidor.BaseDeDatos.Seleccionar` promises only the order by name.
- `new Date(...)` of a birthday that is not `YYYY-MM-DD` is not modelled. Each part is read as its digit value (0 when not digits), while JavaScript would give an invalid date.
- Database connection, prepare and execute failures, with their messages, are left out: the model assumes every statement runs.
- MySQL compares `correo_usuario` and `correo` case-insensitively under its default collation; the model compares emails exactly.
- `Texto.PhpIntCast` reads an optional sign and a run of digits. Exponent and hexadecimal forms and the clamp to the platform integer range are not modelled.
- Phones above 2^53 lose precision in JavaScript numbers; the model keeps them exact.
- `Texto.LowerChar` lower-cases ASCII and Latin-1 letters only, not the rest of Unicode.
- `Servidor.BaseDeDatos.Registrar` leaves out the date written into `$_SESSION['ultimo_registro']`, because it comes from the clock.
- `Servidor.Sesion` holds the session email as a string, "" when absent. valida.php:90-92 sets `email` together with `logueado`, so a logged-in session without an email does not arise from login. Were it to arise, crear_contacto.php:36 and obtener_contactos.php:38, which read `$_SESSION['email']` without a default, would bind NULL: the insert would store a NULL owner and the select would match no row. editar_contacto.php:48 and eliminar_contacto.php:44 read it as ''. The model uses "" throughout, so `ObtenerContactos` with an empty email lists the rows `CrearContacto` stored under "".
- `password_hash` is a fixed function here; the real one salts each call.
- MySQL's coercion of an invalid `fecha_cumple` into the DATE column is not modelled: the text is stored as given.
- `Interfaz.PanelesLaterales.TogglePanel`: an id that is not one of the three side panels is a no-op here. In the source, an existing element with another id would still be toggled.
- `Interfaz.Agenda.ElegirOrden` does not close the sort panel: `PanelesLaterales` is a separate object, and closing the panel is `TogglePanel`.
- `valida.php`, `logout.php` and the birthday verifier scripts are not part of this model. The same goes for `exportarUsuariosCSV` and the click handlers other than the sort buttons.
- Servidor.BaseDeDatos.EditarContacto: decides success on rows matched, not on MySQL's default `affected_rows` (rows changed): it follows the corrected behaviour of the Findings row, so it does not reproduce the "no permission" reply the code gives an owner's unchanged save; `Servidor.EdicionSinCambiosComoEscrita` states that reply.
- Reading `$_POST` is `Servidor.Leer`; the endpoint methods take the `Formulario` it returns rather than the raw request, and `Servidor.NombreEnBlancoRechazado` and `Servidor.IdAusenteRechazado` connect the two.
- Concurrency between requests is not modelled: each endpoint runs alone against the tables.
