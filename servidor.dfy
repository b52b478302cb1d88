/** The PHP endpoints over the `contacto` and `usuario` tables: create, edit,
    delete and list the contacts of the logged-in user, and register a user.
    Each endpoint is a fixed chain of guards with fixed replies, followed by
    one statement against a table. */
module Servidor {
  import opened Texto
  import opened Contactos
  import opened Orden

  /** A `contacto` row: its owner `correo_usuario`, `nombre`, and the nullable
      `telefono`, `correo` and `FCumple` columns. */
  datatype Fila = Fila(
    correoUsuario: string,
    nombre: string,
    telefono: Option<string>,
    correo: Option<string>,
    fCumple: Option<string>)

  /** A `usuario` row without its key `correo`: the password hash and the name. */
  datatype Usuario = Usuario(contrasena: string, nombre: string)

  /** `$_SESSION['logueado']` (truthy or not) and `$_SESSION['email']`. */
  datatype Sesion = Sesion(logueado: bool, email: string)

  /** The `$_POST` fields the endpoints read, after reading: `id` cast with
      `(int)` (0 when absent), the text fields trimmed, the password as sent. */
  datatype Formulario = Formulario(
    id: int,
    nombre: string,
    telefono: string,
    email: string,
    fechaCumple: string,
    password: string)

  /** `$_SERVER["REQUEST_METHOD"]` and the fields read from `$_POST`. */
  datatype Peticion = Peticion(metodo: string, f: Formulario)

  /** What registro.php keeps in `$_SESSION['ultimo_registro']` (without the date). */
  datatype UltimoRegistro = UltimoRegistro(nombre: string, email: string)

  /** The fixed `message` texts of the replies. */
  datatype Mensaje =
    | SesionNoValida | MetodoNoPermitido | IdInvalido | NombreObligatorio | EmailNoValido
    | NoEncontrado | SinPermisoEditar | SinPermisoEliminar
    | Actualizado | Eliminado | Creado
    | CamposObligatorios | CorreoNoValido | ContrasenaCorta | CorreoRegistrado | CuentaCreada

  function TextoDe(m: Mensaje): string {
    match m
    case SesionNoValida => "Sesión no válida"
    case MetodoNoPermitido => "Método no permitido"
    case IdInvalido => "ID de contacto inválido"
    case NombreObligatorio => "El nombre es obligatorio"
    case EmailNoValido => "El formato del email no es válido"
    case NoEncontrado => "No se encontró el contacto"
    case SinPermisoEditar => "No tienes permisos para editar este contacto"
    case SinPermisoEliminar => "No tienes permisos para eliminar este contacto"
    case Actualizado => "Contacto actualizado exitosamente"
    case Eliminado => "Contacto eliminado exitosamente"
    case Creado => "Contacto creado exitosamente"
    case CamposObligatorios => "Todos los campos son obligatorios"
    case CorreoNoValido => "El formato del correo electrónico no es válido"
    case ContrasenaCorta => "La contraseña debe tener al menos 6 caracteres"
    case CorreoRegistrado => "Este correo ya está registrado"
    case CuentaCreada => "¡Cuenta creada exitosamente!"
  }

  /** The JSON reply `{success, message, id?}`. */
  datatype Respuesta = Respuesta(success: bool, mensaje: Mensaje, id: Option<int>)

  /** The reply of obtener_contactos.php. */
  datatype Listado = ListadoOk(contactos: seq<Contacto>) | ListadoFallo(mensaje: Mensaje)

  function Fallo(m: Mensaje): Respuesta { Respuesta(false, m, None) }

  // ---------------------------------------------------------------------------
  // Reading the request
  // ---------------------------------------------------------------------------

  /** `$_POST[campo] ?? ''`. */
  function Enviado(post: map<string, string>, campo: string): string {
    if campo in post then post[campo] else ""
  }

  /** How the endpoints read `$_POST`: `isset($_POST['id']) ? (int)$_POST['id'] : 0`,
      `trim($_POST[campo] ?? '')` for the text fields, and the password
      untouched. */
  function Leer(post: map<string, string>): (f: Formulario)
    ensures |f.nombre| <= |Enviado(post, "nombre")| && |f.email| <= |Enviado(post, "email")|
    ensures f.nombre == PhpTrim(Enviado(post, "nombre")) && f.telefono == PhpTrim(Enviado(post, "telefono"))
    ensures f.email == PhpTrim(Enviado(post, "email")) && f.fechaCumple == PhpTrim(Enviado(post, "fecha_cumple"))
    ensures "id" !in post ==> f.id == 0
    ensures "id" in post ==> f.id == PhpIntCast(post["id"])
    ensures f.password == Enviado(post, "password")
  {
    Formulario(
      if "id" in post then PhpIntCast(post["id"]) else 0,
      PhpTrim(Enviado(post, "nombre")),
      PhpTrim(Enviado(post, "telefono")),
      PhpTrim(Enviado(post, "email")),
      PhpTrim(Enviado(post, "fecha_cumple")),
      Enviado(post, "password"))
  }

  /** Reading a field a second time changes nothing: the fields `Leer` gives
      back are their own trim. */
  lemma LeerRecorta(post: map<string, string>)
    ensures var f := Leer(post);
      && PhpTrim(f.nombre) == f.nombre && PhpTrim(f.telefono) == f.telefono
      && PhpTrim(f.email) == f.email && PhpTrim(f.fechaCumple) == f.fechaCumple
  {
    var f := Leer(post);
    TrimIdempotent(Enviado(post, "nombre"), IsPhpSpace);
    TrimIdempotent(Enviado(post, "telefono"), IsPhpSpace);
    TrimIdempotent(Enviado(post, "email"), IsPhpSpace);
    TrimIdempotent(Enviado(post, "fecha_cumple"), IsPhpSpace);
  }

  /** A name posted as nothing but white space is trimmed to "" and refused
      as missing, whatever else the request holds. */
  lemma NombreEnBlancoRechazado(post: map<string, string>, metodo: string, esEmail: string -> bool)
    requires forall k :: 0 <= k < |Enviado(post, "nombre")| ==> IsPhpSpace(Enviado(post, "nombre")[k])
    ensures RechazoDatos(Peticion(metodo, Leer(post)), esEmail) == Some(NombreObligatorio)
  {
    var f := Leer(post);
    assert f.nombre == PhpTrim(Enviado(post, "nombre")) == [];
  }

  /** An edit or delete request that posts no `id` reads it as 0 and, past the
      session and method guards, is refused as an invalid id. */
  lemma IdAusenteRechazado(post: map<string, string>, sesion: Sesion, esEmail: string -> bool)
    requires "id" !in post && sesion.logueado
    ensures RechazoEdicion(sesion, Peticion("POST", Leer(post)), esEmail) == Some(IdInvalido)
    ensures RechazoEliminacion(sesion, Peticion("POST", Leer(post))) == Some(IdInvalido)
  {
    assert Leer(post).id == 0;
  }

  /** `!empty($v) ? $v : null`: "" and "0" are stored as NULL. */
  function Opcional(v: string): (r: Option<string>)
    ensures r.None? <==> PhpEmpty(v)
    ensures r.Some? ==> r.value == v && r.value != ""
  {
    if PhpEmpty(v) then None else Some(v)
  }

  /** The row crear_contacto.php inserts for `correoUsuario`. */
  function FilaNueva(correoUsuario: string, f: Formulario): (r: Fila)
    ensures r.correoUsuario == correoUsuario && r.nombre == f.nombre
    ensures r.telefono.None? <==> PhpEmpty(f.telefono)
    ensures r.correo.None? <==> PhpEmpty(f.email)
    ensures r.fCumple.None? <==> PhpEmpty(f.fechaCumple)
  {
    Fila(correoUsuario, f.nombre, Opcional(f.telefono), Opcional(f.email), Opcional(f.fechaCumple))
  }

  /** The row after `SET nombre = ?, telefono = ?, correo = ?, FCumple = ?`:
      the owner is kept and every other column is the one a new row would get. */
  function Actualizada(fila: Fila, f: Formulario): (r: Fila)
    ensures r == FilaNueva(fila.correoUsuario, f)
  {
    fila.(nombre := f.nombre, telefono := Opcional(f.telefono),
          correo := Opcional(f.email), fCumple := Opcional(f.fechaCumple))
  }

  /** The `nombre` and email guards shared by creation and edition. */
  predicate DatosValidos(f: Formulario, esEmail: string -> bool) {
    !PhpEmpty(f.nombre) && (PhpEmpty(f.email) || esEmail(f.email))
  }

  // ---------------------------------------------------------------------------
  // The guards, in the order the endpoints test them
  // ---------------------------------------------------------------------------

  /** The session and method guards every contact endpoint starts with. */
  function RechazoAcceso(sesion: Sesion, p: Peticion): (m: Option<Mensaje>)
    ensures m.None? <==> sesion.logueado && p.metodo == "POST"
    ensures m == Some(SesionNoValida) <==> !sesion.logueado
    ensures m.Some? ==> m.value in {SesionNoValida, MetodoNoPermitido}
  {
    if !sesion.logueado then Some(SesionNoValida)
    else if p.metodo != "POST" then Some(MetodoNoPermitido)
    else None
  }

  /** The `nombre` and email guards of creation and edition. */
  function RechazoDatos(p: Peticion, esEmail: string -> bool): (m: Option<Mensaje>)
    ensures m.None? <==> DatosValidos(p.f, esEmail)
    ensures m == Some(NombreObligatorio) <==> PhpEmpty(p.f.nombre)
    ensures m == Some(EmailNoValido) ==> p.f.email != "" && !esEmail(p.f.email)
    ensures m.Some? ==> m.value in {NombreObligatorio, EmailNoValido}
  {
    var nombre := p.f.nombre;
    var email := p.f.email;
    if PhpEmpty(nombre) then Some(NombreObligatorio)
    else if !PhpEmpty(email) && !esEmail(email) then Some(EmailNoValido)
    else None
  }

  /** The `id` guard: `(int)` of the posted id must be positive. */
  function RechazoId(p: Peticion): (m: Option<Mensaje>)
    ensures m.None? <==> p.f.id > 0
    ensures m.Some? ==> m.value == IdInvalido
  {
    if p.f.id <= 0 then Some(IdInvalido) else None
  }

  /** The first guard of crear_contacto.php that refuses the request. */
  function RechazoCreacion(sesion: Sesion, p: Peticion, esEmail: string -> bool): (m: Option<Mensaje>)
    ensures m.None? <==> sesion.logueado && p.metodo == "POST" && DatosValidos(p.f, esEmail)
    ensures m == Some(SesionNoValida) <==> !sesion.logueado
  {
    if RechazoAcceso(sesion, p).Some? then RechazoAcceso(sesion, p) else RechazoDatos(p, esEmail)
  }

  /** The first guard of editar_contacto.php that refuses the request. */
  function RechazoEdicion(sesion: Sesion, p: Peticion, esEmail: string -> bool): (m: Option<Mensaje>)
    ensures m.None? <==> sesion.logueado && p.metodo == "POST" && p.f.id > 0 && DatosValidos(p.f, esEmail)
    ensures m == Some(SesionNoValida) <==> !sesion.logueado
    ensures m == Some(IdInvalido) <==> sesion.logueado && p.metodo == "POST" && p.f.id <= 0
  {
    if RechazoAcceso(sesion, p).Some? then RechazoAcceso(sesion, p)
    else if RechazoId(p).Some? then RechazoId(p)
    else RechazoDatos(p, esEmail)
  }

  /** The first guard of eliminar_contacto.php that refuses the request. */
  function RechazoEliminacion(sesion: Sesion, p: Peticion): (m: Option<Mensaje>)
    ensures m.None? <==> sesion.logueado && p.metodo == "POST" && p.f.id > 0
    ensures m == Some(SesionNoValida) <==> !sesion.logueado
    ensures m == Some(IdInvalido) <==> sesion.logueado && p.metodo == "POST" && p.f.id <= 0
  {
    if RechazoAcceso(sesion, p).Some? then RechazoAcceso(sesion, p) else RechazoId(p)
  }

  // ---------------------------------------------------------------------------
  // Rows a `WHERE id = ? AND correo_usuario = ?` statement reaches
  // ---------------------------------------------------------------------------

  predicate Propia(contactos: map<int, Fila>, id: int, email: string) {
    id in contactos && contactos[id].correoUsuario == email
  }

  /** `affected_rows` counted as rows matched by the WHERE clause. */
  function FilasEncontradas(contactos: map<int, Fila>, id: int, email: string): (n: nat)
    ensures n > 0 <==> Propia(contactos, id, email)
  {
    if Propia(contactos, id, email) then 1 else 0
  }

  /** `affected_rows` of the UPDATE as MySQL reports it by default: rows whose
      values actually changed. */
  function FilasCambiadas(contactos: map<int, Fila>, id: int, email: string, nueva: Fila): (n: nat)
    ensures n > 0 <==> Propia(contactos, id, email) && contactos[id] != nueva
  {
    if Propia(contactos, id, email) && contactos[id] != nueva then 1 else 0
  }

  /** The reply editar_contacto.php builds from `affected_rows` and the
      follow-up `SELECT ... WHERE id = ?`. */
  function DecidirEdicion(contactos: map<int, Fila>, id: int, afectadas: nat): Respuesta {
    if afectadas > 0 then Respuesta(true, Actualizado, None)
    else if id !in contactos then Fallo(NoEncontrado)
    else Fallo(SinPermisoEditar)
  }

  /** With `affected_rows` as rows matched, the edit succeeds exactly on the
      caller's own row and otherwise tells a missing row from someone else's. */
  lemma EdicionSegunFilasEncontradas(contactos: map<int, Fila>, id: int, email: string)
    ensures var r := DecidirEdicion(contactos, id, FilasEncontradas(contactos, id, email));
      && (r.success <==> Propia(contactos, id, email))
      && (r == Fallo(NoEncontrado) <==> id !in contactos)
      && (r == Fallo(SinPermisoEditar) <==> id in contactos && contactos[id].correoUsuario != email)
  {
  }

  /** With `affected_rows` as rows changed, the owner who saves a contact
      without changing anything is told the contact is not theirs. */
  lemma EdicionSinCambiosComoEscrita(contactos: map<int, Fila>, id: int, email: string, p: Peticion)
    requires Propia(contactos, id, email) && Actualizada(contactos[id], p.f) == contactos[id]
    ensures DecidirEdicion(contactos, id, FilasCambiadas(contactos, id, email, Actualizada(contactos[id], p.f)))
         == Fallo(SinPermisoEditar)
  {
  }

  /** The rows of a user, as `(id, row)` pairs. */
  function PropiasDe(contactos: map<int, Fila>, email: string): set<int> {
    set id | id in contactos && contactos[id].correoUsuario == email
  }

  /** A created contact joins its owner's list and no one else's. */
  lemma CreadaEnSuLista(contactos: map<int, Fila>, n: int, email: string, otro: string, f: Formulario)
    requires n !in contactos
    ensures PropiasDe(contactos[n := FilaNueva(email, f)], email) == PropiasDe(contactos, email) + {n}
    ensures otro != email ==> PropiasDe(contactos[n := FilaNueva(email, f)], otro) == PropiasDe(contactos, otro)
  {
  }

  /** A deleted contact leaves its owner's list and no other list changes. */
  lemma EliminadaDeSuLista(contactos: map<int, Fila>, id: int, email: string, otro: string)
    requires Propia(contactos, id, email)
    ensures PropiasDe(contactos - {id}, email) == PropiasDe(contactos, email) - {id}
    ensures otro != email ==> PropiasDe(contactos - {id}, otro) == PropiasDe(contactos, otro)
  {
  }

  /** The rows of a user with an id below `hasta`. */
  function PropiasHasta(contactos: map<int, Fila>, email: string, hasta: int): set<int> {
    set id | 1 <= id < hasta && Propia(contactos, id, email)
  }

  /** `ORDER BY nombre ASC`, with the collation left abstract. */
  function PorNombreFila(leNombre: (string, string) -> bool): ((int, Fila), (int, Fila)) -> bool {
    (a: (int, Fila), b: (int, Fila)) => leNombre(a.1.nombre, b.1.nombre)
  }

  lemma PorNombreFilaPreorden(leNombre: (string, string) -> bool)
    requires PreordenTotal(leNombre)
    ensures PreordenTotal(PorNombreFila(leNombre))
  {
    var le := PorNombreFila(leNombre);
    forall a: (int, Fila), b: (int, Fila) ensures le(a, b) || le(b, a) {
      assert leNombre(a.1.nombre, b.1.nombre) || leNombre(b.1.nombre, a.1.nombre);
    }
    forall a: (int, Fila), b: (int, Fila), c: (int, Fila) | le(a, b) && le(b, c) ensures le(a, c) {
      assert leNombre(a.1.nombre, b.1.nombre) && leNombre(b.1.nombre, c.1.nombre);
    }
  }

  /** One element of the `contactos` array: `id` as int, `correo` as `email`,
      `FCumple` as `fecha_cumple`, and `telefono` cast to int when truthy. */
  function AContacto(id: int, f: Fila): (c: Contacto)
    ensures c.id == id && c.nombre == f.nombre && c.email == f.correo && c.fechaCumple == f.fCumple
    ensures c.telefono.None? <==> f.telefono.None? || PhpEmpty(f.telefono.value)
  {
    Contacto(id, f.nombre,
      if f.telefono.Some? && !PhpEmpty(f.telefono.value) then Some(PhpIntCast(f.telefono.value)) else None,
      f.correo, f.fCumple)
  }

  /** A phone stored in canonical decimal form reaches the browser with the
      same digits. */
  lemma TelefonoCanonico(id: int, f: Fila)
    requires f.telefono.Some? && Canonical(f.telefono.value) && f.telefono.value != "0"
    ensures AContacto(id, f).telefono.Some?
    ensures IntToString(AContacto(id, f).telefono.value) == f.telefono.value
  {
    CastOfCanonical(f.telefono.value);
  }

  /** A phone stored with a leading zero loses it on the way to the browser:
      the digits after the zero come back, not the stored text. */
  lemma TelefonoPierdeCero(id: int, f: Fila, resto: string)
    requires Canonical(resto) && resto != "0" && f.telefono == Some("0" + resto)
    ensures AContacto(id, f).telefono.Some?
    ensures IntToString(AContacto(id, f).telefono.value) == resto != f.telefono.value
  {
    var t := "0" + resto;
    assert PadStart(resto, |resto| + 1) == t;
    LeadingZerosValue(resto, |resto| + 1);
    CastOfDigits(t);
    CanonicalRoundTrip(resto);
  }

  // ---------------------------------------------------------------------------
  // The tables
  // ---------------------------------------------------------------------------

  /** The `contacto` table keyed by its AUTO_INCREMENT `id`, the next value of
      that counter, and the `usuario` table keyed by `correo`. */
  class BaseDeDatos {
    var contactos: map<int, Fila>
    var siguienteId: int
    var usuarios: map<string, Usuario>
    /** `filter_var($email, FILTER_VALIDATE_EMAIL)`, left abstract. */
    const esEmail: string -> bool
    /** `password_hash($password, PASSWORD_BCRYPT)`, left abstract. */
    const cifrar: string -> string
    /** The collation `ORDER BY nombre` uses, left abstract. */
    const leNombre: (string, string) -> bool

    /** Every id was handed out by the counter, which starts at 1. */
    ghost predicate Valido()
      reads this
    {
      && 1 <= siguienteId
      && forall id :: id in contactos ==> 1 <= id < siguienteId
    }

    /** The collation orders names totally. */
    ghost predicate ColacionValida() {
      PreordenTotal(leNombre)
    }

    constructor (esEmail: string -> bool, cifrar: string -> string, leNombre: (string, string) -> bool)
      requires PreordenTotal(leNombre)
      ensures Valido() && ColacionValida() && contactos == map[] && usuarios == map[]
      ensures this.esEmail == esEmail && this.cifrar == cifrar && this.leNombre == leNombre
    {
      this.esEmail := esEmail;
      this.cifrar := cifrar;
      this.leNombre := leNombre;
      contactos := map[];
      siguienteId := 1;
      usuarios := map[];
    }

    /** crear_contacto.php: after the session, method, name and email guards,
        inserts a row owned by the session user under a fresh id and replies
        with that id. */
    method CrearContacto(sesion: Sesion, p: Peticion) returns (r: Respuesta)
      requires Valido()
      modifies this`contactos, this`siguienteId
      ensures Valido()
      ensures r.success <==> RechazoCreacion(sesion, p, esEmail).None?
      ensures !r.success ==>
        && r == Fallo(RechazoCreacion(sesion, p, esEmail).value)
        && contactos == old(contactos) && siguienteId == old(siguienteId)
      ensures r.success ==>
        && r == Respuesta(true, Creado, Some(old(siguienteId)))
        && old(siguienteId) !in old(contactos)
        && contactos == old(contactos)[old(siguienteId) := FilaNueva(sesion.email, p.f)]
        && siguienteId == old(siguienteId) + 1
      ensures forall id :: id in old(contactos) ==> id in contactos && contactos[id] == old(contactos)[id]
    {
      if !sesion.logueado {
        return Fallo(SesionNoValida);
      }
      if p.metodo != "POST" {
        return Fallo(MetodoNoPermitido);
      }
      var nombre := p.f.nombre;
      var email := p.f.email;
      if PhpEmpty(nombre) {
        return Fallo(NombreObligatorio);
      }
      if !PhpEmpty(email) && !esEmail(email) {
        return Fallo(EmailNoValido);
      }
      var nuevoId := siguienteId;
      contactos := contactos[nuevoId := FilaNueva(sesion.email, p.f)];
      siguienteId := siguienteId + 1;
      r := Respuesta(true, Creado, Some(nuevoId));
    }

    /** editar_contacto.php: after the session, method, id, name and email
        guards, rewrites the row only when both its id and its owner match;
        otherwise tells a missing contact from another user's. */
    method EditarContacto(sesion: Sesion, p: Peticion) returns (r: Respuesta)
      requires Valido()
      modifies this`contactos
      ensures Valido()
      ensures RechazoEdicion(sesion, p, esEmail).Some? ==>
        r == Fallo(RechazoEdicion(sesion, p, esEmail).value) && contactos == old(contactos)
      ensures RechazoEdicion(sesion, p, esEmail).None? ==>
        r == DecidirEdicion(old(contactos), p.f.id, FilasEncontradas(old(contactos), p.f.id, sesion.email))
      ensures r.success ==>
        && r == Respuesta(true, Actualizado, None)
        && Propia(old(contactos), p.f.id, sesion.email)
        && contactos == old(contactos)[p.f.id := Actualizada(old(contactos)[p.f.id], p.f)]
      ensures !r.success ==> contactos == old(contactos)
      ensures contactos.Keys == old(contactos).Keys
      ensures forall id :: id in old(contactos) ==> contactos[id].correoUsuario == old(contactos)[id].correoUsuario
      ensures forall id :: id in old(contactos) && old(contactos)[id].correoUsuario != sesion.email ==>
        contactos[id] == old(contactos)[id]
    {
      if !sesion.logueado {
        return Fallo(SesionNoValida);
      }
      if p.metodo != "POST" {
        return Fallo(MetodoNoPermitido);
      }
      var id := p.f.id;
      var nombre := p.f.nombre;
      var email := p.f.email;
      if id <= 0 {
        return Fallo(IdInvalido);
      }
      if PhpEmpty(nombre) {
        return Fallo(NombreObligatorio);
      }
      if !PhpEmpty(email) && !esEmail(email) {
        return Fallo(EmailNoValido);
      }
      var afectadas := FilasEncontradas(contactos, id, sesion.email);
      EdicionSegunFilasEncontradas(contactos, id, sesion.email);
      r := DecidirEdicion(contactos, id, afectadas);
      if afectadas > 0 {
        contactos := contactos[id := Actualizada(contactos[id], p.f)];
      }
    }

    /** eliminar_contacto.php: after the session, method and id guards,
        removes the row only when both its id and its owner match; otherwise
        tells a missing contact from another user's. */
    method EliminarContacto(sesion: Sesion, p: Peticion) returns (r: Respuesta)
      requires Valido()
      modifies this`contactos
      ensures Valido()
      ensures RechazoEliminacion(sesion, p).Some? ==>
        r == Fallo(RechazoEliminacion(sesion, p).value) && contactos == old(contactos)
      ensures RechazoEliminacion(sesion, p).None? ==>
        && (r.success <==> Propia(old(contactos), p.f.id, sesion.email))
        && (p.f.id !in old(contactos) ==> r == Fallo(NoEncontrado))
        && (p.f.id in old(contactos) && old(contactos)[p.f.id].correoUsuario != sesion.email ==>
              r == Fallo(SinPermisoEliminar))
      ensures r.success ==> r == Respuesta(true, Eliminado, None) && contactos == old(contactos) - {p.f.id}
      ensures !r.success ==> contactos == old(contactos)
      ensures forall id :: id in old(contactos) && old(contactos)[id].correoUsuario != sesion.email ==>
        id in contactos && contactos[id] == old(contactos)[id]
    {
      if !sesion.logueado {
        return Fallo(SesionNoValida);
      }
      if p.metodo != "POST" {
        return Fallo(MetodoNoPermitido);
      }
      var id := p.f.id;
      if id <= 0 {
        return Fallo(IdInvalido);
      }
      var afectadas := FilasEncontradas(contactos, id, sesion.email);
      if afectadas > 0 {
        contactos := contactos - {id};
        r := Respuesta(true, Eliminado, None);
      } else if id !in contactos {
        r := Fallo(NoEncontrado);
      } else {
        r := Fallo(SinPermisoEliminar);
      }
    }

    /** The `WHERE correo_usuario = ?` part of the listing query: every row of
        `email` once, scanned in id order. */
    method Buscar(email: string) returns (hallados: seq<(int, Fila)>)
      requires Valido()
      ensures forall q :: q in hallados <==> Propia(contactos, q.0, email) && q.1 == contactos[q.0]
      ensures |hallados| == |PropiasDe(contactos, email)|
    {
      hallados := [];
      var id := 1;
      while id < siguienteId
        invariant 1 <= id <= siguienteId
        invariant forall q :: q in hallados ==> 1 <= q.0 < id && Propia(contactos, q.0, email) && q.1 == contactos[q.0]
        invariant forall k :: 1 <= k < id && Propia(contactos, k, email) ==> (k, contactos[k]) in hallados
        invariant |hallados| == |PropiasHasta(contactos, email, id)|
      {
        if Propia(contactos, id, email) {
          assert PropiasHasta(contactos, email, id + 1) == PropiasHasta(contactos, email, id) + {id};
          hallados := hallados + [(id, contactos[id])];
        } else {
          assert PropiasHasta(contactos, email, id + 1) == PropiasHasta(contactos, email, id);
        }
        id := id + 1;
      }
      assert PropiasHasta(contactos, email, siguienteId) == PropiasDe(contactos, email);
    }

    /** The `SELECT id, nombre, telefono, correo, FCumple FROM contacto WHERE
        correo_usuario = ? ORDER BY nombre ASC` result: every row of `email`
        once, by name. Rows with equal names come in no promised order. */
    method Seleccionar(email: string) returns (filas: seq<(int, Fila)>)
      requires Valido() && ColacionValida()
      ensures forall q :: q in filas <==> Propia(contactos, q.0, email) && q.1 == contactos[q.0]
      ensures |filas| == |PropiasDe(contactos, email)|
      ensures Ordenada(filas, PorNombreFila(leNombre))
    {
      var hallados := Buscar(email);
      PorNombreFilaPreorden(leNombre);
      filas := OrdenarPor(hallados, PorNombreFila(leNombre));
      assert forall q :: q in filas <==> q in multiset(hallados);
    }

    /** obtener_contactos.php: the logged-in user's contacts, by name, each
        row mapped to the JSON record; the tables are only read. */
    method ObtenerContactos(sesion: Sesion) returns (r: Listado)
      requires Valido() && ColacionValida()
      ensures !sesion.logueado ==> r == ListadoFallo(SesionNoValida)
      ensures sesion.logueado ==> r.ListadoOk?
      ensures r.ListadoOk? ==>
        && |r.contactos| == |PropiasDe(contactos, sesion.email)|
        && (forall c :: c in r.contactos <==>
              c.id in contactos && contactos[c.id].correoUsuario == sesion.email && c == AContacto(c.id, contactos[c.id]))
        && (forall i, j :: 0 <= i < j < |r.contactos| ==> leNombre(r.contactos[i].nombre, r.contactos[j].nombre))
    {
      if !sesion.logueado {
        return ListadoFallo(SesionNoValida);
      }
      var filas := Seleccionar(sesion.email);
      var lista: seq<Contacto> := [];
      var k := 0;
      while k < |filas|
        invariant 0 <= k <= |filas|
        invariant |lista| == k
        invariant forall i :: 0 <= i < k ==> lista[i] == AContacto(filas[i].0, filas[i].1)
      {
        lista := lista + [AContacto(filas[k].0, filas[k].1)];
        k := k + 1;
      }
      forall c: Contacto | c in lista
        ensures c.id in contactos && contactos[c.id].correoUsuario == sesion.email && c == AContacto(c.id, contactos[c.id])
      {
        var i :| 0 <= i < |lista| && lista[i] == c;
        assert filas[i] in filas;
      }
      forall c: Contacto | c.id in contactos && contactos[c.id].correoUsuario == sesion.email && c == AContacto(c.id, contactos[c.id])
        ensures c in lista
      {
        var q := (c.id, contactos[c.id]);
        assert q in filas;
        var i :| 0 <= i < |filas| && filas[i] == q;
        assert lista[i] == c;
      }
      forall i, j | 0 <= i < j < |lista| ensures leNombre(lista[i].nombre, lista[j].nombre) {
        assert PorNombreFila(leNombre)(filas[i], filas[j]);
      }
      r := ListadoOk(lista);
    }

    /** registro.php: after the method, required-fields, email-format and
        password-length guards, adds the user with the hashed password unless
        the email is already registered. */
    method Registrar(p: Peticion) returns (r: Respuesta, registro: Option<UltimoRegistro>)
      modifies this`usuarios
      ensures p.metodo != "POST" ==> r == Fallo(MetodoNoPermitido)
      ensures p.metodo == "POST" && (PhpEmpty(p.f.nombre) || PhpEmpty(p.f.email) || PhpEmpty(p.f.password)) ==>
        r == Fallo(CamposObligatorios)
      ensures p.metodo == "POST" && CamposRellenos(p) && !esEmail(p.f.email) ==> r == Fallo(CorreoNoValido)
      ensures p.metodo == "POST" && CamposRellenos(p) && esEmail(p.f.email) && Utf8Length(p.f.password) < 6 ==>
        r == Fallo(ContrasenaCorta)
      ensures RegistroAdmitido(p, esEmail) && p.f.email in old(usuarios) ==> r == Fallo(CorreoRegistrado)
      ensures r.success <==> RegistroAdmitido(p, esEmail) && p.f.email !in old(usuarios)
      ensures !r.success ==> usuarios == old(usuarios) && registro == None
      ensures r.success ==>
        && r == Respuesta(true, CuentaCreada, None)
        && usuarios == old(usuarios)[p.f.email := Usuario(cifrar(p.f.password), p.f.nombre)]
        && registro == Some(UltimoRegistro(p.f.nombre, p.f.email))
    {
      registro := None;
      if p.metodo != "POST" {
        return Fallo(MetodoNoPermitido), None;
      }
      var nombre := p.f.nombre;
      var email := p.f.email;
      var password := p.f.password;
      if PhpEmpty(nombre) || PhpEmpty(email) || PhpEmpty(password) {
        return Fallo(CamposObligatorios), None;
      }
      if !esEmail(email) {
        return Fallo(CorreoNoValido), None;
      }
      if Utf8Length(password) < 6 {
        return Fallo(ContrasenaCorta), None;
      }
      if email in usuarios {
        return Fallo(CorreoRegistrado), None;
      }
      usuarios := usuarios[email := Usuario(cifrar(password), nombre)];
      registro := Some(UltimoRegistro(nombre, email));
      r := Respuesta(true, CuentaCreada, None);
    }
  }

  predicate CamposRellenos(p: Peticion) {
    !PhpEmpty(p.f.nombre) && !PhpEmpty(p.f.email) && !PhpEmpty(p.f.password)
  }

  /** A registration that passes every guard before the table lookup. */
  predicate RegistroAdmitido(p: Peticion, esEmail: string -> bool) {
    p.metodo == "POST" && CamposRellenos(p) && esEmail(p.f.email) && Utf8Length(p.f.password) >= 6
  }

  /** The length guard counts bytes with `strlen`, not characters: three
      two-byte letters pass it, five one-byte letters do not. */
  lemma LongitudEnBytes()
    ensures Utf8Length("ñññ") == 6 && |"ñññ"| == 3
    ensures Utf8Length("abcde") == 5
  {
    assert "ñññ"[1..] == "ññ" && "ññ"[1..] == "ñ" && "ñ"[1..] == "";
    assert "abcde"[1..] == "bcde" && "bcde"[1..] == "cde" && "cde"[1..] == "de" && "de"[1..] == "e" && "e"[1..] == "";
  }

}
