/** The sort of `renderizarUsuarios` (script.js): a stable sort of a copy of the
    filtered list, by name or by birthday. `Array.prototype.sort` is stable, so
    it is modelled by a stable insertion sort; `OrdenEstableUnico` shows any
    stable sort gives the same result. */
module Orden {
  import opened Texto
  import opened Contactos

  /** A comparator that ranks any two elements and does so consistently. */
  ghost predicate PreordenTotal<T(!new)>(le: (T, T) -> bool) {
    && (forall a, b :: le(a, b) || le(b, a))
    && (forall a, b, c :: le(a, b) && le(b, c) ==> le(a, c))
  }

  ghost predicate Ordenada<T>(s: seq<T>, le: (T, T) -> bool) {
    forall i, j :: 0 <= i < j < |s| ==> le(s[i], s[j])
  }

  /** The elements of `s` that `le` ranks level with `x`, in their order in `s`. */
  function Iguales<T>(s: seq<T>, x: T, le: (T, T) -> bool): seq<T> {
    if s == [] then []
    else (if le(s[0], x) && le(x, s[0]) then [s[0]] else []) + Iguales(s[1..], x, le)
  }

  /** Elements ranked level keep in `r` the relative order they had in `s`. */
  ghost predicate Estable<T(!new)>(r: seq<T>, s: seq<T>, le: (T, T) -> bool) {
    forall x :: Iguales(r, x, le) == Iguales(s, x, le)
  }

  /** `x` placed after every element of `s` that ranks at or below it. */
  function Insertar<T>(x: T, s: seq<T>, le: (T, T) -> bool): (r: seq<T>)
    ensures multiset(r) == multiset(s) + multiset{x}
  {
    if s == [] then [x]
    else if le(s[0], x) then
      var r := [s[0]] + Insertar(x, s[1..], le);
      assert s == [s[0]] + s[1..];
      r
    else [x] + s
  }

  /** The stable sort `Array.prototype.sort(cmp)` performs. */
  function OrdenarPor<T(!new)>(s: seq<T>, le: (T, T) -> bool): (r: seq<T>)
    requires PreordenTotal(le)
    ensures multiset(r) == multiset(s)
    ensures Ordenada(r, le)
    ensures Estable(r, s, le)
  {
    if s == [] then []
    else
      var p, x := s[..|s| - 1], s[|s| - 1];
      assert s == p + [x];
      var q := OrdenarPor(p, le);
      InsertarOrdenada(x, q, le);
      forall y ensures Iguales(Insertar(x, q, le), y, le) == Iguales(s, y, le) {
        InsertarIguales(x, q, y, le);
        IgualesConcat(p, [x], y, le);
      }
      Insertar(x, q, le)
  }

  lemma {:induction false} IgualesConcat<T>(a: seq<T>, b: seq<T>, y: T, le: (T, T) -> bool)
    ensures Iguales(a + b, y, le) == Iguales(a, y, le) + Iguales(b, y, le)
  {
    if a == [] {
      assert a + b == b;
    } else {
      var h := if le(a[0], y) && le(y, a[0]) then [a[0]] else [];
      assert (a + b)[0] == a[0];
      assert (a + b)[1..] == a[1..] + b;
      IgualesConcat(a[1..], b, y, le);
      assert Iguales(a + b, y, le) == h + (Iguales(a[1..], y, le) + Iguales(b, y, le));
      assert Iguales(a, y, le) == h + Iguales(a[1..], y, le);
    }
  }

  lemma {:induction false} InsertarOrdenada<T(!new)>(x: T, s: seq<T>, le: (T, T) -> bool)
    requires PreordenTotal(le) && Ordenada(s, le)
    ensures Ordenada(Insertar(x, s, le), le)
  {
    if s != [] && le(s[0], x) {
      InsertarOrdenada(x, s[1..], le);
      var r := Insertar(x, s, le);
      forall j | 0 < j < |r| ensures le(r[0], r[j]) {
        assert r[j] in multiset(Insertar(x, s[1..], le));
      }
    }
  }

  lemma {:induction false} InsertarIguales<T(!new)>(x: T, s: seq<T>, y: T, le: (T, T) -> bool)
    requires PreordenTotal(le) && Ordenada(s, le)
    ensures Iguales(Insertar(x, s, le), y, le)
         == Iguales(s, y, le) + (if le(x, y) && le(y, x) then [x] else [])
  {
    if s == [] {
    } else if le(s[0], x) {
      InsertarIguales(x, s[1..], y, le);
      InsertarIgualesTrasCabeza(x, s, y, le);
    } else {
      assert ([x] + s)[1..] == s;
      if le(x, y) && le(y, x) {
        PorEncimaDeX(x, s, y, le);
        NingunIgual(s, y, le);
      }
    }
  }

  /** The step of `InsertarIguales` where `x` goes past the head of `s`. */
  lemma InsertarIgualesTrasCabeza<T>(x: T, s: seq<T>, y: T, le: (T, T) -> bool)
    requires s != [] && le(s[0], x)
    requires Iguales(Insertar(x, s[1..], le), y, le)
          == Iguales(s[1..], y, le) + (if le(x, y) && le(y, x) then [x] else [])
    ensures Iguales(Insertar(x, s, le), y, le)
         == Iguales(s, y, le) + (if le(x, y) && le(y, x) then [x] else [])
  {
    var h := if le(s[0], y) && le(y, s[0]) then [s[0]] else [];
    var hx := if le(x, y) && le(y, x) then [x] else [];
    var t := Iguales(s[1..], y, le);
    var resto := Insertar(x, s[1..], le);
    assert Insertar(x, s, le) == [s[0]] + resto;
    IgualesCons(s[0], resto, y, le);
    assert Iguales(s, y, le) == h + t;
    Asociativa(h, t, hx);
  }

  lemma Asociativa<T>(a: seq<T>, b: seq<T>, c: seq<T>)
    ensures a + (b + c) == (a + b) + c
  {
  }

  lemma IgualesCons<T>(a: T, t: seq<T>, y: T, le: (T, T) -> bool)
    ensures Iguales([a] + t, y, le) == (if le(a, y) && le(y, a) then [a] else []) + Iguales(t, y, le)
  {
    assert ([a] + t)[1..] == t;
  }

  /** Every element of a sorted list that starts above `x` is above `x`, so
      none ranks level with an element `y` that is level with `x`. */
  lemma PorEncimaDeX<T(!new)>(x: T, s: seq<T>, y: T, le: (T, T) -> bool)
    requires PreordenTotal(le) && Ordenada(s, le)
    requires s != [] && !le(s[0], x) && le(x, y) && le(y, x)
    ensures forall k :: 0 <= k < |s| ==> !(le(s[k], y) && le(y, s[k]))
  {
    forall k | 0 <= k < |s| ensures !le(s[k], y) {
      if k > 0 { assert le(s[0], s[k]); }
    }
  }

  lemma {:induction false} NingunIgual<T>(s: seq<T>, y: T, le: (T, T) -> bool)
    requires forall k :: 0 <= k < |s| ==> !(le(s[k], y) && le(y, s[k]))
    ensures Iguales(s, y, le) == []
  {
    if s != [] {
      NingunIgual(s[1..], y, le);
    }
  }

  /** Sorting what is already sorted changes nothing. */
  lemma {:induction false} OrdenarOrdenada<T(!new)>(s: seq<T>, le: (T, T) -> bool)
    requires PreordenTotal(le) && Ordenada(s, le)
    ensures OrdenarPor(s, le) == s
  {
    if s != [] {
      var p, x := s[..|s| - 1], s[|s| - 1];
      assert s == p + [x];
      SinElUltimo(s, le);
      OrdenarOrdenada(p, le);
      InsertarAlFinal(x, p, le);
      UltimoInsertado(s, le);
    }
  }

  /** `OrdenarPor` inserts the last element into the sorted rest. */
  lemma UltimoInsertado<T(!new)>(s: seq<T>, le: (T, T) -> bool)
    requires PreordenTotal(le) && s != []
    ensures OrdenarPor(s, le) == Insertar(s[|s| - 1], OrdenarPor(s[..|s| - 1], le), le)
  {
  }

  /** A sorted list without its last element is sorted and ranks at or below
      that element. */
  lemma SinElUltimo<T>(s: seq<T>, le: (T, T) -> bool)
    requires s != [] && Ordenada(s, le)
    ensures Ordenada(s[..|s| - 1], le)
    ensures forall k :: 0 <= k < |s| - 1 ==> le(s[k], s[|s| - 1])
  {
    var p := s[..|s| - 1];
    forall i, j | 0 <= i < j < |p| ensures le(p[i], p[j]) {
      assert p[i] == s[i] && p[j] == s[j];
    }
  }

  lemma {:induction false} InsertarAlFinal<T>(x: T, s: seq<T>, le: (T, T) -> bool)
    requires forall k :: 0 <= k < |s| ==> le(s[k], x)
    ensures Insertar(x, s, le) == s + [x]
  {
    if s != [] {
      InsertarAlFinal(x, s[1..], le);
    }
  }

  /** Sorting twice sorts once. */
  lemma OrdenarIdempotente<T(!new)>(s: seq<T>, le: (T, T) -> bool)
    requires PreordenTotal(le)
    ensures OrdenarPor(OrdenarPor(s, le), le) == OrdenarPor(s, le)
  {
    OrdenarOrdenada(OrdenarPor(s, le), le);
  }

  /** Two sorted lists with the same elements, where level elements come in the
      same order, are the same list. */
  lemma {:induction false} OrdenadasIguales<T(!new)>(r1: seq<T>, r2: seq<T>, le: (T, T) -> bool)
    requires PreordenTotal(le) && Ordenada(r1, le) && Ordenada(r2, le)
    requires multiset(r1) == multiset(r2)
    requires forall y :: Iguales(r1, y, le) == Iguales(r2, y, le)
    ensures r1 == r2
  {
    if r1 == [] {
      assert |multiset(r2)| == 0;
    } else {
      MismaCabeza(r1, r2, le);
      MismasColas(r1, r2, le);
      OrdenadasIguales(r1[1..], r2[1..], le);
      assert r1 == [r1[0]] + r1[1..] && r2 == [r2[0]] + r2[1..];
    }
  }

  /** Under the hypotheses of `OrdenadasIguales`, the two lists start alike. */
  lemma MismaCabeza<T(!new)>(r1: seq<T>, r2: seq<T>, le: (T, T) -> bool)
    requires PreordenTotal(le) && Ordenada(r1, le) && Ordenada(r2, le)
    requires multiset(r1) == multiset(r2) && r1 != []
    requires forall y :: Iguales(r1, y, le) == Iguales(r2, y, le)
    ensures r2 != [] && r1[0] == r2[0]
  {
    var a := r1[0];
    assert a in multiset(r2);
    var b := r2[0];
    assert b in multiset(r1);
    PrimeroEsMinimo(r1, b, le);
    PrimeroEsMinimo(r2, a, le);
    assert le(a, a) || le(a, a);
    assert r1 == [a] + r1[1..] && r2 == [b] + r2[1..];
    CabezaNivelada(a, b, r1[1..], r2[1..], le);
  }

  /** Two lists headed by level elements, with the same sublist level with the
      first head, have the same head. */
  lemma CabezaNivelada<T>(a: T, b: T, t1: seq<T>, t2: seq<T>, le: (T, T) -> bool)
    requires le(a, a) && le(a, b) && le(b, a)
    requires Iguales([a] + t1, a, le) == Iguales([b] + t2, a, le)
    ensures a == b
  {
    IgualesCons(a, t1, a, le);
    IgualesCons(b, t2, a, le);
    assert Iguales([a] + t1, a, le)[0] == a;
    assert Iguales([b] + t2, a, le)[0] == b;
  }

  /** Two lists with the same head, the same elements and the same level
      sublists keep the same elements and level sublists once the head goes. */
  lemma MismasColas<T(!new)>(r1: seq<T>, r2: seq<T>, le: (T, T) -> bool)
    requires r1 != [] && r2 != [] && r1[0] == r2[0]
    requires multiset(r1) == multiset(r2)
    requires forall y :: Iguales(r1, y, le) == Iguales(r2, y, le)
    ensures multiset(r1[1..]) == multiset(r2[1..])
    ensures forall y :: Iguales(r1[1..], y, le) == Iguales(r2[1..], y, le)
  {
    forall y ensures Iguales(r1[1..], y, le) == Iguales(r2[1..], y, le) {
      IgualesCola(r1, r2, y, le);
    }
    MultisetCola(r1, r2);
  }

  lemma IgualesCola<T>(r1: seq<T>, r2: seq<T>, y: T, le: (T, T) -> bool)
    requires r1 != [] && r2 != [] && r1[0] == r2[0]
    requires Iguales(r1, y, le) == Iguales(r2, y, le)
    ensures Iguales(r1[1..], y, le) == Iguales(r2[1..], y, le)
  {
    var a := r1[0];
    var h := if le(a, y) && le(y, a) then [a] else [];
    assert Iguales(r1, y, le) == h + Iguales(r1[1..], y, le);
    assert Iguales(r2, y, le) == h + Iguales(r2[1..], y, le);
    assert (h + Iguales(r1[1..], y, le))[|h|..] == Iguales(r1[1..], y, le);
    assert (h + Iguales(r2[1..], y, le))[|h|..] == Iguales(r2[1..], y, le);
  }

  lemma MultisetCola<T>(r1: seq<T>, r2: seq<T>)
    requires r1 != [] && r2 != [] && r1[0] == r2[0]
    requires multiset(r1) == multiset(r2)
    ensures multiset(r1[1..]) == multiset(r2[1..])
  {
    assert r1 == [r1[0]] + r1[1..] && r2 == [r2[0]] + r2[1..];
    assert multiset(r1[1..]) == multiset(r1) - multiset{r1[0]};
    assert multiset(r2[1..]) == multiset(r2) - multiset{r2[0]};
  }

  /** The head of a sorted list ranks at or below each of its elements. */
  lemma PrimeroEsMinimo<T(!new)>(r: seq<T>, e: T, le: (T, T) -> bool)
    requires PreordenTotal(le) && Ordenada(r, le) && e in multiset(r)
    ensures le(r[0], e)
  {
    var k :| 0 <= k < |r| && r[k] == e;
    if k > 0 {
      assert le(r[0], r[k]);
    } else {
      assert le(e, e) || le(e, e);
    }
  }

  /** Any stable sort of `s` is `OrdenarPor(s, le)`: the order the browser
      draws does not depend on the sort algorithm the engine uses. */
  lemma OrdenEstableUnico<T(!new)>(r: seq<T>, s: seq<T>, le: (T, T) -> bool)
    requires PreordenTotal(le)
    requires multiset(r) == multiset(s) && Ordenada(r, le) && Estable(r, s, le)
    ensures r == OrdenarPor(s, le)
  {
    OrdenadasIguales(r, OrdenarPor(s, le), le);
  }

  // ---------------------------------------------------------------------------
  // The two comparators of renderizarUsuarios
  // ---------------------------------------------------------------------------

  /** `a.nombre.localeCompare(b.nombre) <= 0`, with the collation left abstract. */
  function PorNombre(leNombre: (string, string) -> bool): (Contacto, Contacto) -> bool {
    (a: Contacto, b: Contacto) => leNombre(a.nombre, b.nombre)
  }

  /** `dateA - dateB <= 0`, a missing birthday counting as the epoch. */
  function PorFecha(): (Contacto, Contacto) -> bool {
    (a: Contacto, b: Contacto) => FechaLe(ClaveFecha(a), ClaveFecha(b))
  }

  lemma PorNombrePreorden(leNombre: (string, string) -> bool)
    requires PreordenTotal(leNombre)
    ensures PreordenTotal(PorNombre(leNombre))
  {
    var le := PorNombre(leNombre);
    forall a: Contacto, b: Contacto ensures le(a, b) || le(b, a) {
      assert leNombre(a.nombre, b.nombre) || leNombre(b.nombre, a.nombre);
    }
    forall a: Contacto, b: Contacto, c: Contacto | le(a, b) && le(b, c) ensures le(a, c) {
      assert leNombre(a.nombre, b.nombre) && leNombre(b.nombre, c.nombre);
    }
  }

  lemma PorFechaPreorden()
    ensures PreordenTotal(PorFecha())
  {
  }

  /** The list `renderizarUsuarios` draws for the active sort mode: sorted by
      name for "nombre", by birthday for "fecha_cumple", untouched otherwise;
      always a permutation of its input and stable. */
  function Ordenar(usuarios: seq<Contacto>, modo: string, leNombre: (string, string) -> bool)
    : (r: seq<Contacto>)
    requires PreordenTotal(leNombre)
    ensures multiset(r) == multiset(usuarios)
    ensures modo == "nombre" ==>
      && (forall i, j :: 0 <= i < j < |r| ==> leNombre(r[i].nombre, r[j].nombre))
      && Estable(r, usuarios, PorNombre(leNombre))
    ensures modo == "fecha_cumple" ==>
      && (forall i, j :: 0 <= i < j < |r| ==> FechaLe(ClaveFecha(r[i]), ClaveFecha(r[j])))
      && Estable(r, usuarios, PorFecha())
    ensures modo != "nombre" && modo != "fecha_cumple" ==> r == usuarios
  {
    if modo == "nombre" then
      PorNombrePreorden(leNombre);
      var r := OrdenarPor(usuarios, PorNombre(leNombre));
      assert forall i, j :: 0 <= i < j < |r| ==> PorNombre(leNombre)(r[i], r[j]);
      r
    else if modo == "fecha_cumple" then
      PorFechaPreorden();
      OrdenarPor(usuarios, PorFecha())
    else usuarios
  }

  /** Sorting by birthday puts every undated contact after the contacts born
      before 1970 and before the contacts born after 1970-01-01. */
  lemma SinFechaEnLaEpoca(usuarios: seq<Contacto>, leNombre: (string, string) -> bool, i: nat, j: nat)
    requires PreordenTotal(leNombre)
    requires i < j < |Ordenar(usuarios, "fecha_cumple", leNombre)|
    ensures var r := Ordenar(usuarios, "fecha_cumple", leNombre);
      && (!TieneFecha(r[j]) ==> FechaLe(ClaveFecha(r[i]), Epoca))
      && (!TieneFecha(r[i]) ==> FechaLe(Epoca, ClaveFecha(r[j])))
  {
  }

  /** A birthday before 1970 sorts ahead of a contact with no birthday, so
      "undated contacts first" holds only for birthdays from 1970 on. */
  lemma AntesDe1970PrimeroQueSinFecha(sinFecha: Contacto, antigua: Contacto, leNombre: (string, string) -> bool,
                                      anio: nat, mes: nat, dia: nat)
    requires PreordenTotal(leNombre)
    requires sinFecha.fechaCumple == None
    requires antigua.fechaCumple == Some(FechaIso(anio, mes, dia)) && anio < 1970
    ensures Ordenar([sinFecha, antigua], "fecha_cumple", leNombre) == [antigua, sinFecha]
  {
    ClaveDeFechaIso(antigua, anio, mes, dia);
    PorFechaPreorden();
    OrdenarDos(sinFecha, antigua, PorFecha());
  }

  /** Two elements out of order are swapped. */
  lemma OrdenarDos<T(!new)>(a: T, b: T, le: (T, T) -> bool)
    requires PreordenTotal(le) && !le(a, b)
    ensures OrdenarPor([a, b], le) == [b, a]
  {
    assert OrdenarPor([a], le) == [a] by {
      assert [a][..0] == [];
    }
    assert [a, b][..1] == [a];
  }

}
