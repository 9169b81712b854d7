/**
 * Player management (js/usuarios.js): adding players, moving their main
 * points, recording extra points in the `ranking_extra` ledger, editing and
 * deleting players, and a player's position in the main ranking.
 */
module Usuarios {
  import opened Schema
  import opened Sorting
  import Auth

  const MsgNoPermAdd: string := "No tienes permisos para agregar usuarios"
  const MsgNoPermPoints: string := "No tienes permisos para sumar puntos"
  const MsgNoPermEdit: string := "No tienes permisos para modificar usuarios"
  const MsgNoPermDelete: string := "No tienes permisos para eliminar usuarios"
  const MsgNameTaken: string := "El nombre de usuario ya existe"
  const MsgAddError: string := "Error al agregar usuario"
  const MsgPointsError: string := "Error al sumar puntos"
  const MsgUpdateError: string := "Error al actualizar usuario"
  const MsgDeleteError: string := "Error al eliminar usuario"

  function UserWithId(id: Id): Usuario -> bool
  {
    (u: Usuario) => u.id == id
  }

  function NotUserWithId(id: Id): Usuario -> bool
  {
    (u: Usuario) => u.id != id
  }

  function NotOfUser(id: Id): ExtraEntry -> bool
  {
    (e: ExtraEntry) => e.usuarioId != id
  }

  function IdOf(u: Usuario): Id { u.id }
  function NombreOf(u: Usuario): string { u.nombre }

  /** The unique keys of the `usuarios` table: `id` and `nombre`. */
  predicate KeysDistinct(table: seq<Usuario>)
  {
    DistinctBy(table, IdOf) && DistinctBy(table, NombreOf)
  }

  /** Another row than `id`'s already carries `nombre`. */
  predicate NombreTaken(table: seq<Usuario>, nombre: string, id: Option<Id>)
  {
    exists i :: 0 <= i < |table| && table[i].nombre == nombre && Some(table[i].id) != id
  }

  /** The `equipo_id` foreign key holds: no team, or a team of the table. */
  predicate TeamExists(equipos: seq<Equipo>, equipoId: Option<Id>)
  {
    equipoId.None? || exists j :: 0 <= j < |equipos| && equipos[j].id == equipoId.value
  }

  /** The store rows after `update({ puntos_main: old + delta }).eq('id', id)`. */
  function AddPuntos(table: seq<Usuario>, id: Id, delta: int): (r: seq<Usuario>)
    ensures |r| == |table|
  {
    seq(|table|, i requires 0 <= i < |table| =>
      if table[i].id == id then table[i].(puntosMain := table[i].puntosMain + delta) else table[i])
  }

  /**
   * Moving points changes only that player's `puntos_main`, by exactly the
   * delta (which may be negative), and keeps every key.
   */
  lemma AddPuntosSpec(table: seq<Usuario>, id: Id, delta: int)
    ensures var r := AddPuntos(table, id, delta);
      && (forall i :: 0 <= i < |table| && table[i].id != id ==> r[i] == table[i])
      && (forall i :: 0 <= i < |table| && table[i].id == id ==>
            r[i] == table[i].(puntosMain := table[i].puntosMain + delta))
      && (KeysDistinct(table) ==> KeysDistinct(r))
  {
    var r := AddPuntos(table, id, delta);
    assert forall i :: 0 <= i < |table| ==> IdOf(r[i]) == IdOf(table[i]) && NombreOf(r[i]) == NombreOf(table[i]);
  }

  /** Two additions are one addition of the sum, and adding 0 changes nothing. */
  lemma AddPuntosCompose(table: seq<Usuario>, id: Id, a: int, b: int)
    ensures AddPuntos(AddPuntos(table, id, a), id, b) == AddPuntos(table, id, a + b)
    ensures AddPuntos(table, id, 0) == table
  {
  }

  /** The row of `id` after the edit form's `update(nuevosDatos).eq('id', id)`. */
  function ReplaceRow(table: seq<Usuario>, id: Id, nombre: string, equipoId: Option<Id>, puntos: int): (r: seq<Usuario>)
    ensures |r| == |table|
  {
    seq(|table|, i requires 0 <= i < |table| =>
      if table[i].id == id then Usuario(id, nombre, equipoId, puntos) else table[i])
  }

  class UsuarioManager {
    /** The `usuarios` table of the store. */
    var table: seq<Usuario>
    /** The `ranking_extra` table of the store. */
    var ledger: seq<ExtraEntry>
    /** The list last loaded into the page. */
    var usuarios: seq<Usuario>
    /** The id the store gives the next inserted row. */
    var nextId: int

    ghost predicate Valid()
      reads this
    {
      && KeysDistinct(table)
      && nextId >= 1
      && (forall i :: 0 <= i < |table| ==> table[i].id < nextId)
    }

    constructor (rows: seq<Usuario>, entries: seq<ExtraEntry>, firstFree: int)
      requires KeysDistinct(rows) && firstFree >= 1
      requires forall i :: 0 <= i < |rows| ==> rows[i].id < firstFree
      ensures Valid()
      ensures table == rows && ledger == entries && usuarios == [] && nextId == firstFree
    {
      table := rows;
      ledger := entries;
      usuarios := [];
      nextId := firstFree;
    }

    /** `loadUsuarios()`. */
    method LoadUsuarios()
      modifies this
      ensures table == old(table) && ledger == old(ledger) && nextId == old(nextId)
      ensures usuarios == table
    {
      usuarios := table;
    }

    /**
     * `agregarUsuario(nombre, equipoId, puntosIniciales)`: level 1 or more;
     * a name in use is the store's unique-key error, a missing team any
     * other error.
     */
    method AgregarUsuario(auth: Auth.AuthManager, nombre: string, equipoId: Option<Id>,
                          puntosIniciales: int, equipos: seq<Equipo>)
      returns (ok: bool, msg: string)
      requires Valid()
      modifies this
      ensures Valid()
      ensures ok <==> auth.HasAccess(1) && !NombreTaken(old(table), nombre, None) && TeamExists(equipos, equipoId)
      ensures !auth.HasAccess(1) ==> msg == MsgNoPermAdd
      ensures auth.HasAccess(1) && NombreTaken(old(table), nombre, None) ==> msg == MsgNameTaken
      ensures auth.HasAccess(1) && !NombreTaken(old(table), nombre, None) && !TeamExists(equipos, equipoId) ==>
        msg == MsgAddError
      ensures !ok ==> unchanged(this)
      ensures ok ==>
        && table == old(table) + [Usuario(old(nextId), nombre, equipoId, puntosIniciales)]
        && nextId == old(nextId) + 1 && ledger == old(ledger) && usuarios == table
    {
      if !auth.HasAccess(1) {
        return false, MsgNoPermAdd;
      }
      if exists i :: 0 <= i < |table| && table[i].nombre == nombre {
        return false, MsgNameTaken;
      }
      if equipoId.Some? && !(exists j :: 0 <= j < |equipos| && equipos[j].id == equipoId.value) {
        return false, MsgAddError;
      }
      var row := Usuario(nextId, nombre, equipoId, puntosIniciales);
      InsertKeepsKeys(table, row, nextId);
      table := table + [row];
      nextId := nextId + 1;
      LoadUsuarios();
      return true, "Usuario \"" + nombre + "\" agregado correctamente";
    }

    /**
     * `sumarPuntosMain(usuarioId, puntos)`: level 1 or more; the player's
     * current points are read with `.single()` and overwritten with their
     * sum with `puntos`.
     */
    method SumarPuntosMain(auth: Auth.AuthManager, usuarioId: Id, puntos: int)
      returns (ok: bool, msg: string)
      requires Valid()
      modifies this
      ensures Valid()
      ensures ok <==> auth.HasAccess(1) && CountIf(old(table), UserWithId(usuarioId)) == 1
      ensures !auth.HasAccess(1) ==> msg == MsgNoPermPoints
      ensures auth.HasAccess(1) && !ok ==> msg == MsgPointsError
      ensures !ok ==> unchanged(this)
      ensures ok ==>
        && table == AddPuntos(old(table), usuarioId, puntos)
        && ledger == old(ledger) && nextId == old(nextId) && usuarios == table
    {
      if !auth.HasAccess(1) {
        return false, MsgNoPermPoints;
      }
      var usuario := Single(table, UserWithId(usuarioId));
      if usuario.None? {
        return false, MsgPointsError;
      }
      var shown := ShownName(usuarios, usuarioId);
      WritePuntos(usuario.value, usuario.value.puntosMain + puntos, puntos);
      LoadUsuarios();
      return true, IntToString(puntos) + " puntos sumados a " + shown;
    }

    /** The `update` of `sumarPuntosMain`: the read row's points plus the delta. */
    method WritePuntos(u: Usuario, nuevosPuntos: int, delta: int)
      requires Valid() && u in table && nuevosPuntos == u.puntosMain + delta
      modifies this
      ensures Valid()
      ensures table == AddPuntos(old(table), u.id, delta)
      ensures ledger == old(ledger) && usuarios == old(usuarios) && nextId == old(nextId)
    {
      SumKeepsValid(table, u.id, u, delta, nextId);
      table := SetPuntos(table, u.id, nuevosPuntos);
    }

    /**
     * `sumarPuntosExtra(usuarioId, puntos, evento)`: no access check; one
     * ledger entry is appended, which moves that player's total in that
     * event by `puntos` and no other total.
     */
    method SumarPuntosExtra(usuarioId: Id, puntos: int, evento: string) returns (ok: bool)
      modifies this
      ensures ok
      ensures ledger == old(ledger) + [ExtraEntry(usuarioId, puntos, evento)]
      ensures table == old(table) && usuarios == old(usuarios) && nextId == old(nextId)
      ensures forall u: Id, e: string {:trigger LedgerTotal(ledger, u, e)} ::
        LedgerTotal(ledger, u, e) == LedgerTotal(old(ledger), u, e) + (if u == usuarioId && e == evento then puntos else 0)
    {
      var entry := ExtraEntry(usuarioId, puntos, evento);
      forall u: Id, e: string
        ensures LedgerTotal(ledger + [entry], u, e) ==
          LedgerTotal(ledger, u, e) + (if u == usuarioId && e == evento then puntos else 0)
      {
        LedgerTotalAppend(ledger, entry, u, e);
      }
      ledger := ledger + [entry];
      return true;
    }

    /**
     * `guardarCambiosUsuario(usuarioId, nuevosDatos)`: level 1 or more; a
     * name held by another player or a missing team is a store error; an id
     * with no row updates nothing and still succeeds.
     */
    method GuardarCambiosUsuario(auth: Auth.AuthManager, usuarioId: Id, nombre: string,
                                 equipoId: Option<Id>, puntos: int, equipos: seq<Equipo>)
      returns (ok: bool, msg: string)
      requires Valid()
      modifies this
      ensures Valid()
      ensures ok <==> auth.HasAccess(1) && TeamExists(equipos, equipoId) &&
                      !NombreTaken(old(table), nombre, Some(usuarioId))
      ensures !auth.HasAccess(1) ==> msg == MsgNoPermEdit
      ensures auth.HasAccess(1) && !ok ==> msg == MsgUpdateError
      ensures !ok ==> unchanged(this)
      ensures ok ==>
        && table == ReplaceRow(old(table), usuarioId, nombre, equipoId, puntos)
        && ledger == old(ledger) && nextId == old(nextId) && usuarios == table
    {
      if !auth.HasAccess(1) {
        return false, MsgNoPermEdit;
      }
      if exists i :: 0 <= i < |table| && table[i].nombre == nombre && Some(table[i].id) != Some(usuarioId) {
        return false, MsgUpdateError;
      }
      if equipoId.Some? && !(exists j :: 0 <= j < |equipos| && equipos[j].id == equipoId.value) {
        return false, MsgUpdateError;
      }
      ReplaceKeepsKeys(table, usuarioId, nombre, equipoId, puntos);
      table := ReplaceRow(table, usuarioId, nombre, equipoId, puntos);
      LoadUsuarios();
      return true, "Usuario actualizado correctamente";
    }

    /**
     * `eliminarUsuario(usuarioId)`: level 1 or more; the player must be in
     * the loaded list and the deletion confirmed. The ledger entries go
     * first and their result is not looked at; the player row then goes
     * unless another table (`referenced`, such as bracket participants)
     * still points at it, in which case the entries are already gone.
     */
    method EliminarUsuario(auth: Auth.AuthManager, usuarioId: Id, confirmado: bool, referenced: set<Id>)
      returns (ok: bool, msg: string)
      requires Valid()
      modifies this
      ensures Valid()
      ensures var found := FindIndex(old(usuarios), UserWithId(usuarioId)).Some?;
        ok <==> auth.HasAccess(1) && found && confirmado && usuarioId !in referenced
      ensures !auth.HasAccess(1) ==> msg == MsgNoPermDelete
      ensures var started := auth.HasAccess(1) && FindIndex(old(usuarios), UserWithId(usuarioId)).Some? && confirmado;
        && (!started ==> unchanged(this))
        && (started ==> ledger == Filter(old(ledger), NotOfUser(usuarioId)))
        && (started && usuarioId in referenced ==>
              msg == MsgDeleteError && table == old(table) && usuarios == old(usuarios))
      ensures ok ==>
        && table == Filter(old(table), NotUserWithId(usuarioId))
        && usuarios == table && nextId == old(nextId)
    {
      if !auth.HasAccess(1) {
        return false, MsgNoPermDelete;
      }
      var k := FindIndex(usuarios, UserWithId(usuarioId));
      if k.None? {
        return false, "";
      }
      var usuario := usuarios[k.value];
      if !confirmado {
        return false, "";
      }
      ledger := Filter(ledger, NotOfUser(usuarioId));
      if usuarioId in referenced {
        return false, MsgDeleteError;
      }
      DeleteKeepsKeys(table, usuarioId);
      table := Filter(table, NotUserWithId(usuarioId));
      LoadUsuarios();
      return true, "Usuario \"" + usuario.nombre + "\" eliminado correctamente";
    }
  }

  /** `update({ puntos_main: value }).eq('id', id)`. */
  function SetPuntos(table: seq<Usuario>, id: Id, value: int): seq<Usuario>
  {
    seq(|table|, i requires 0 <= i < |table| =>
      if table[i].id == id then table[i].(puntosMain := value) else table[i])
  }

  /** With one row for `id`, writing its read value plus `delta` is adding `delta`. */
  lemma OneRowSet(table: seq<Usuario>, id: Id, u: Usuario, delta: int)
    requires DistinctBy(table, IdOf)
    requires u in table && u.id == id
    ensures SetPuntos(table, id, u.puntosMain + delta) == AddPuntos(table, id, delta)
  {
    var k :| 0 <= k < |table| && table[k] == u;
    forall i | 0 <= i < |table| && table[i].id == id ensures table[i] == u {
      assert IdOf(table[i]) == IdOf(table[k]);
    }
  }

  /** The write of `sumarPuntosMain` is the addition, and keeps the table's invariant. */
  lemma SumKeepsValid(table: seq<Usuario>, id: Id, u: Usuario, delta: int, nextId: int)
    requires KeysDistinct(table)
    requires forall i :: 0 <= i < |table| ==> table[i].id < nextId
    requires u in table && u.id == id
    ensures SetPuntos(table, id, u.puntosMain + delta) == AddPuntos(table, id, delta)
    ensures KeysDistinct(AddPuntos(table, id, delta))
    ensures forall i :: 0 <= i < |table| ==> AddPuntos(table, id, delta)[i].id < nextId
  {
    OneRowSet(table, id, u, delta);
    AddPuntosSpec(table, id, delta);
  }

  /** The name shown in the success message: `find(...)?.nombre` over the loaded list. */
  function ShownName(usuarios: seq<Usuario>, id: Id): string
  {
    match FindIndex(usuarios, UserWithId(id))
    case None => "undefined"
    case Some(k) => usuarios[k].nombre
  }

  lemma InsertKeepsKeys(table: seq<Usuario>, row: Usuario, nextId: int)
    requires KeysDistinct(table)
    requires forall i :: 0 <= i < |table| ==> table[i].id < nextId
    requires row.id == nextId && !NombreTaken(table, row.nombre, None)
    ensures KeysDistinct(table + [row])
    ensures forall i :: 0 <= i < |table + [row]| ==> (table + [row])[i].id < nextId + 1
  {
    var t := table + [row];
    forall i, j | 0 <= i < j < |t| ensures IdOf(t[i]) != IdOf(t[j]) && NombreOf(t[i]) != NombreOf(t[j]) {
      if j < |table| {
        assert t[i] == table[i] && t[j] == table[j];
      } else {
        assert t[i] == table[i];
      }
    }
  }

  lemma ReplaceKeepsKeys(table: seq<Usuario>, id: Id, nombre: string, equipoId: Option<Id>, puntos: int)
    requires KeysDistinct(table)
    requires !NombreTaken(table, nombre, Some(id))
    ensures KeysDistinct(ReplaceRow(table, id, nombre, equipoId, puntos))
    ensures forall i :: 0 <= i < |table| ==> ReplaceRow(table, id, nombre, equipoId, puntos)[i].id == table[i].id
  {
    var r := ReplaceRow(table, id, nombre, equipoId, puntos);
    forall i, j | 0 <= i < j < |r| ensures IdOf(r[i]) != IdOf(r[j]) && NombreOf(r[i]) != NombreOf(r[j]) {
      assert IdOf(table[i]) != IdOf(table[j]) && NombreOf(table[i]) != NombreOf(table[j]);
    }
  }

  /** Deleting by id removes exactly that player and keeps the keys unique. */
  lemma DeleteKeepsKeys(table: seq<Usuario>, id: Id)
    requires KeysDistinct(table)
    ensures var r := Filter(table, NotUserWithId(id));
      && KeysDistinct(r)
      && (forall u :: u in r <==> u in table && u.id != id)
  {
    FilterDistinct(table, NotUserWithId(id), IdOf);
    FilterDistinct(table, NotUserWithId(id), NombreOf);
    FilterMembers(table, NotUserWithId(id));
  }

  /** After the delete no ledger entry and no row of that player is left. */
  lemma DeleteLeavesNothing(table: seq<Usuario>, ledger: seq<ExtraEntry>, id: Id)
    ensures forall e :: e in Filter(ledger, NotOfUser(id)) ==> e.usuarioId != id
    ensures forall u :: u in Filter(table, NotUserWithId(id)) ==> u.id != id
    ensures forall e :: e in ledger && e.usuarioId != id ==> e in Filter(ledger, NotOfUser(id))
  {
    FilterMembers(ledger, NotOfUser(id));
    FilterMembers(table, NotUserWithId(id));
  }

  // ---------------------------------------------------------------------
  // Position in the main ranking
  // ---------------------------------------------------------------------

  /** `b.puntos_main - a.puntos_main`: more points first. */
  function MainKey(u: Usuario): int
  {
    -u.puntosMain
  }

  /**
   * `obtenerPosicion(usuarioId)`: '-' for a player not in the list, else
   * '#' and the 1-based place in a copy sorted by points, highest first.
   */
  function ObtenerPosicion(usuarios: seq<Usuario>, usuarioId: Id): (r: string)
    ensures r == "-" <==> FindIndex(usuarios, UserWithId(usuarioId)).None?
    ensures r != "-" ==> |r| >= 2 && r[0] == '#'
  {
    if FindIndex(usuarios, UserWithId(usuarioId)).None? then "-"
    else
      var sorted := SortBy(usuarios, MainKey);
      var posicion := match FindIndex(sorted, UserWithId(usuarioId))
        case None => 0
        case Some(k) => k + 1;
      "#" + NatToString(posicion)
  }

  /**
   * With unique ids, a listed player's position is one more than its place
   * in the stable sort: the number of players with more points plus the
   * number of players with as many points listed before it.
   */
  lemma PositionIsRank(usuarios: seq<Usuario>, i: nat)
    requires i < |usuarios| && DistinctBy(usuarios, IdOf)
    ensures ObtenerPosicion(usuarios, usuarios[i].id) == "#" + NatToString(Rank(usuarios, MainKey, i) + 1)
  {
    var hit := UserWithId(usuarios[i].id);
    forall j | 0 <= j < |usuarios| ensures hit(usuarios[j]) <==> j == i {
      if j < i {
        assert IdOf(usuarios[j]) != IdOf(usuarios[i]);
      } else if j > i {
        assert IdOf(usuarios[i]) != IdOf(usuarios[j]);
      }
    }
    FindIndexAfterSort(usuarios, MainKey, hit, i);
  }

  /** A player with strictly more points than everyone else is "#1". */
  lemma TopScorerFirst(usuarios: seq<Usuario>, i: nat)
    requires i < |usuarios| && DistinctBy(usuarios, IdOf)
    requires forall j :: 0 <= j < |usuarios| && j != i ==> usuarios[j].puntosMain < usuarios[i].puntosMain
    ensures ObtenerPosicion(usuarios, usuarios[i].id) == "#1"
  {
    PositionIsRank(usuarios, i);
    TopRankZero(usuarios, i);
    assert NatToString(0 + 1) == "1";
  }

  lemma TopRankZero(usuarios: seq<Usuario>, i: nat)
    requires i < |usuarios|
    requires forall j :: 0 <= j < |usuarios| && j != i ==> usuarios[j].puntosMain < usuarios[i].puntosMain
    ensures Rank(usuarios, MainKey, i) == 0
  {
    var k := MainKey(usuarios[i]);
    assert forall j :: 0 <= j < |usuarios| ==> MainKey(usuarios[j]) >= k;
    NoneBelow(usuarios, MainKey, k);
    var before := usuarios[..i];
    assert forall j :: 0 <= j < |before| ==> before[j] == usuarios[j];
    NoneEqual(before, MainKey, k);
  }

  lemma {:induction false} NoneBelow<T>(s: seq<T>, key: T -> int, k: int)
    requires forall j :: 0 <= j < |s| ==> key(s[j]) >= k
    ensures CountBelow(s, key, k) == 0
  {
    if |s| > 0 {
      NoneBelow(s[..|s| - 1], key, k);
    }
  }

  lemma {:induction false} NoneEqual<T>(s: seq<T>, key: T -> int, k: int)
    requires forall j :: 0 <= j < |s| ==> key(s[j]) != k
    ensures CountEqual(s, key, k) == 0
  {
    if |s| > 0 {
      NoneEqual(s[..|s| - 1], key, k);
    }
  }
}
