/**
 * Team management (js/equipos.js): creating teams with an upper-cased TAG,
 * deleting a team only while no player belongs to it, and the member count
 * and points total shown for each team.
 */
module Equipos {
  import opened Schema
  import Auth
  import Usuarios

  const MsgNoPermCreate: string := "No tienes permisos para crear equipos"
  const MsgNoPermDelete: string := "No tienes permisos para eliminar equipos"
  const MsgNameTaken: string := "El nombre del equipo ya existe"
  const MsgTagTaken: string := "El TAG del equipo ya existe"
  const MsgTagTooLong: string := "El TAG no puede tener más de 5 caracteres"

  /** The longest TAG the create form accepts. */
  const MaxTagLength: nat := 5

  // ---------------------------------------------------------------------
  // TAG normalisation
  // ---------------------------------------------------------------------

  predicate IsLower(c: char) { 'a' <= c <= 'z' }

  function UpperChar(c: char): char
  {
    if IsLower(c) then (c as int - 32) as char else c
  }

  /** `toUpperCase()` on the letters a-z; every other character is kept. */
  function ToUpper(s: string): (r: string)
    ensures |r| == |s|
    ensures forall i :: 0 <= i < |r| ==> !IsLower(r[i])
    ensures forall i :: 0 <= i < |s| && !IsLower(s[i]) ==> r[i] == s[i]
  {
    seq(|s|, i requires 0 <= i < |s| => UpperChar(s[i]))
  }

  lemma ToUpperIdempotent(s: string)
    ensures ToUpper(ToUpper(s)) == ToUpper(s)
  {
  }

  /** `slice(0, n)`. */
  function Slice(s: string, n: nat): string
  {
    if |s| <= n then s else s[..n]
  }

  /** The TAG field's input handler: `toUpperCase().slice(0, 5)`. */
  function NormalizeTagInput(s: string): string
  {
    Slice(ToUpper(s), MaxTagLength)
  }

  /**
   * The normalised input is at most five characters, has no lower-case
   * letter, is a fixed point of the handler, and therefore always passes the
   * form's length check.
   */
  lemma NormalizeTagInputSpec(s: string)
    ensures var r := NormalizeTagInput(s);
      && |r| <= MaxTagLength
      && (forall i :: 0 <= i < |r| ==> !IsLower(r[i]))
      && NormalizeTagInput(r) == r
      && !TagTooLong(r)
  {
    var u := ToUpper(s);
    var r := NormalizeTagInput(s);
    assert forall i :: 0 <= i < |r| ==> r[i] == u[i];
    assert ToUpper(r) == r;
  }

  /** The form's check before `crearEquipo`. */
  predicate TagTooLong(tag: string)
  {
    |tag| > MaxTagLength
  }

  // ---------------------------------------------------------------------
  // Unique-key errors
  // ---------------------------------------------------------------------

  /** `includes(sub)`. */
  predicate Contains(text: string, sub: string)
    decreases |text|
  {
    |sub| <= |text| && (text[..|sub|] == sub || Contains(text[1..], sub))
  }

  /** The message for a unique-key error: by whether the store's text mentions 'nombre'. */
  function DuplicateMessage(storeMessage: string): (m: string)
    ensures m == MsgNameTaken <==> Contains(storeMessage, "nombre")
    ensures m == MsgNameTaken || m == MsgTagTaken
  {
    if Contains(storeMessage, "nombre") then MsgNameTaken else MsgTagTaken
  }

  function TeamWithId(id: Id): Equipo -> bool
  {
    (e: Equipo) => e.id == id
  }

  function NotTeamWithId(id: Id): Equipo -> bool
  {
    (e: Equipo) => e.id != id
  }

  function IdOf(e: Equipo): Id { e.id }
  function NombreOf(e: Equipo): string { e.nombre }
  function TagOf(e: Equipo): string { e.tag }

  /** The unique keys of `equipos`: `id`, `nombre` and `tag`. */
  predicate KeysDistinct(table: seq<Equipo>)
  {
    DistinctBy(table, IdOf) && DistinctBy(table, NombreOf) && DistinctBy(table, TagOf)
  }

  predicate Clashes(table: seq<Equipo>, nombre: string, tag: string)
  {
    exists i :: 0 <= i < |table| && (table[i].nombre == nombre || table[i].tag == tag)
  }

  // ---------------------------------------------------------------------
  // Members and totals
  // ---------------------------------------------------------------------

  function InTeam(equipoId: Id): Usuario -> bool
  {
    (u: Usuario) => u.equipoId == Some(equipoId)
  }

  /** `reduce((sum, user) => sum + user.puntos_main, 0)`. */
  function SumPuntos(us: seq<Usuario>): int
  {
    if |us| == 0 then 0 else SumPuntos(us[..|us| - 1]) + us[|us| - 1].puntosMain
  }

  /** The players whose `equipo_id` is the team's. */
  function Miembros(usuarios: seq<Usuario>, equipoId: Id): nat
  {
    |Filter(usuarios, InTeam(equipoId))|
  }

  function PuntosTotales(usuarios: seq<Usuario>, equipoId: Id): int
  {
    SumPuntos(Filter(usuarios, InTeam(equipoId)))
  }

  /** The member count is the number of referencing players; zero exactly when none refers to the team. */
  lemma MiembrosSpec(usuarios: seq<Usuario>, equipoId: Id)
    ensures Miembros(usuarios, equipoId) == CountIf(usuarios, InTeam(equipoId))
    ensures Miembros(usuarios, equipoId) == 0 <==> forall u :: u in usuarios ==> u.equipoId != Some(equipoId)
  {
    FilterLength(usuarios, InTeam(equipoId));
  }

  /** Adding one player adds its points to its own team's total only. */
  lemma PuntosTotalesSnoc(usuarios: seq<Usuario>, u: Usuario, equipoId: Id)
    ensures PuntosTotales(usuarios + [u], equipoId) ==
      PuntosTotales(usuarios, equipoId) + (if u.equipoId == Some(equipoId) then u.puntosMain else 0)
  {
    FilterSnoc(usuarios, u, InTeam(equipoId));
    var f := Filter(usuarios, InTeam(equipoId));
    if InTeam(equipoId)(u) {
      assert Filter(usuarios + [u], InTeam(equipoId)) == f + [u];
      assert (f + [u])[..|f|] == f;
    } else {
      assert Filter(usuarios + [u], InTeam(equipoId)) == f;
    }
  }

  /**
   * With unique ids, moving a player's main points by `delta` moves that
   * player's team total by `delta` and no other team's total.
   */
  lemma {:induction false} TotalAfterSum(table: seq<Usuario>, id: Id, delta: int, equipoId: Id)
    requires DistinctBy(table, Usuarios.IdOf)
    ensures PuntosTotales(Usuarios.AddPuntos(table, id, delta), equipoId) ==
      PuntosTotales(table, equipoId) +
      (if exists i :: 0 <= i < |table| && table[i].id == id && table[i].equipoId == Some(equipoId) then delta else 0)
  {
    if |table| > 0 {
      var init, x := table[..|table| - 1], table[|table| - 1];
      assert forall i :: 0 <= i < |init| ==> init[i] == table[i];
      assert DistinctBy(init, Usuarios.IdOf);
      TotalAfterSum(init, id, delta, equipoId);
      var moved := Usuarios.AddPuntos(table, id, delta);
      var x' := moved[|table| - 1];
      assert moved == Usuarios.AddPuntos(init, id, delta) + [x'];
      assert table == init + [x];
      PuntosTotalesSnoc(Usuarios.AddPuntos(init, id, delta), x', equipoId);
      PuntosTotalesSnoc(init, x, equipoId);
      if x.id == id {
        forall i | 0 <= i < |init| ensures init[i].id != id {
          assert Usuarios.IdOf(table[i]) != Usuarios.IdOf(table[|table| - 1]);
        }
        assert Usuarios.AddPuntos(init, id, delta) == init;
      }
    }
  }

  // ---------------------------------------------------------------------
  // The manager
  // ---------------------------------------------------------------------

  class EquipoManager {
    /** The `equipos` table of the store. */
    var table: seq<Equipo>
    /** The list last loaded into the page. */
    var equipos: seq<Equipo>
    /** The id the store gives the next inserted row. */
    var nextId: int

    ghost predicate Valid()
      reads this
    {
      && KeysDistinct(table)
      && nextId >= 1
      && (forall i :: 0 <= i < |table| ==> table[i].id < nextId)
    }

    constructor (rows: seq<Equipo>, firstFree: int)
      requires KeysDistinct(rows) && firstFree >= 1
      requires forall i :: 0 <= i < |rows| ==> rows[i].id < firstFree
      ensures Valid()
      ensures table == rows && equipos == [] && nextId == firstFree
    {
      table := rows;
      equipos := [];
      nextId := firstFree;
    }

    /** `loadEquipos()`. */
    method LoadEquipos()
      modifies this
      ensures table == old(table) && nextId == old(nextId)
      ensures equipos == table
    {
      equipos := table;
    }

    /**
     * `crearEquipo(nombre, tag)`: level 1 or more; the TAG is stored upper
     * cased; a name or TAG in use is the store's unique-key error, whose
     * text (`storeMessage`) picks the message.
     */
    method CrearEquipo(auth: Auth.AuthManager, nombre: string, tag: string, storeMessage: string)
      returns (ok: bool, msg: string)
      requires Valid()
      modifies this
      ensures Valid()
      ensures ok <==> auth.HasAccess(1) && !Clashes(old(table), nombre, ToUpper(tag))
      ensures !auth.HasAccess(1) ==> msg == MsgNoPermCreate
      ensures auth.HasAccess(1) && !ok ==> msg == DuplicateMessage(storeMessage)
      ensures !ok ==> unchanged(this)
      ensures ok ==>
        && table == old(table) + [Equipo(old(nextId), nombre, ToUpper(tag))]
        && nextId == old(nextId) + 1 && equipos == table
    {
      if !auth.HasAccess(1) {
        return false, MsgNoPermCreate;
      }
      var upper := ToUpper(tag);
      if exists i :: 0 <= i < |table| && (table[i].nombre == nombre || table[i].tag == upper) {
        return false, DuplicateMessage(storeMessage);
      }
      var row := Equipo(nextId, nombre, upper);
      InsertKeepsKeys(table, row, nextId);
      table := table + [row];
      nextId := nextId + 1;
      LoadEquipos();
      return true, "Equipo \"" + nombre + "\" creado correctamente";
    }

    /** The create form's submit: a TAG longer than five characters never reaches `crearEquipo`. */
    method SubmitCrearEquipo(auth: Auth.AuthManager, nombre: string, tag: string, storeMessage: string)
      returns (ok: bool, msg: string)
      requires Valid()
      modifies this
      ensures Valid()
      ensures TagTooLong(tag) ==> !ok && msg == MsgTagTooLong && unchanged(this)
      ensures ok <==> !TagTooLong(tag) && auth.HasAccess(1) && !Clashes(old(table), nombre, ToUpper(tag))
      ensures ok ==> table == old(table) + [Equipo(old(nextId), nombre, ToUpper(tag))]
    {
      if |tag| > MaxTagLength {
        return false, MsgTagTooLong;
      }
      ok, msg := CrearEquipo(auth, nombre, tag, storeMessage);
    }

    /**
     * `eliminarEquipo(equipoId)`: level 1 or more; the team must be in the
     * loaded list; a team any player still belongs to is refused with the
     * member count; then the confirmation and the delete.
     */
    method EliminarEquipo(auth: Auth.AuthManager, equipoId: Id, confirmado: bool, usuarios: seq<Usuario>)
      returns (ok: bool, msg: string)
      requires Valid()
      modifies this
      ensures Valid()
      ensures var found := FindIndex(old(equipos), TeamWithId(equipoId)).Some?;
        ok <==> auth.HasAccess(1) && found && Miembros(usuarios, equipoId) == 0 && confirmado
      ensures ok ==> forall u :: u in usuarios ==> u.equipoId != Some(equipoId)
      ensures !auth.HasAccess(1) ==> msg == MsgNoPermDelete
      ensures !ok ==> unchanged(this)
      ensures ok ==>
        && table == Filter(old(table), NotTeamWithId(equipoId))
        && (forall e :: e in table <==> e in old(table) && e.id != equipoId)
        && nextId == old(nextId) && equipos == table
    {
      if !auth.HasAccess(1) {
        return false, MsgNoPermDelete;
      }
      var k := FindIndex(equipos, TeamWithId(equipoId));
      if k.None? {
        return false, "";
      }
      var equipo := equipos[k.value];
      var miembros := |Filter(usuarios, InTeam(equipoId))|;
      if miembros > 0 {
        return false, "No se puede eliminar el equipo \"" + equipo.nombre + "\" porque tiene " +
          NatToString(miembros) + " usuario(s) asignados";
      }
      if !confirmado {
        return false, "";
      }
      MiembrosSpec(usuarios, equipoId);
      DeleteKeepsKeys(table, equipoId);
      table := Filter(table, NotTeamWithId(equipoId));
      LoadEquipos();
      return true, "Equipo \"" + equipo.nombre + "\" eliminado correctamente";
    }
  }

  lemma InsertKeepsKeys(table: seq<Equipo>, row: Equipo, nextId: int)
    requires KeysDistinct(table)
    requires forall i :: 0 <= i < |table| ==> table[i].id < nextId
    requires row.id == nextId && !Clashes(table, row.nombre, row.tag)
    ensures KeysDistinct(table + [row])
    ensures forall i :: 0 <= i < |table + [row]| ==> (table + [row])[i].id < nextId + 1
  {
    var t := table + [row];
    forall i, j | 0 <= i < j < |t|
      ensures IdOf(t[i]) != IdOf(t[j]) && NombreOf(t[i]) != NombreOf(t[j]) && TagOf(t[i]) != TagOf(t[j])
    {
      if j < |table| {
        assert t[i] == table[i] && t[j] == table[j];
      } else {
        assert t[i] == table[i];
      }
    }
  }

  lemma DeleteKeepsKeys(table: seq<Equipo>, id: Id)
    requires KeysDistinct(table)
    ensures var r := Filter(table, NotTeamWithId(id));
      && KeysDistinct(r)
      && (forall e :: e in r <==> e in table && e.id != id)
  {
    FilterDistinct(table, NotTeamWithId(id), IdOf);
    FilterDistinct(table, NotTeamWithId(id), NombreOf);
    FilterDistinct(table, NotTeamWithId(id), TagOf);
    FilterMembers(table, NotTeamWithId(id));
  }
}
