/**
 * Administrator management (js/admin.js): listing, creating, activating or
 * deactivating and deleting rows of the `administradores` table, each behind
 * an access-level guard, and never on one's own account.
 */
module Admins {
  import opened Schema
  import Auth

  const MsgNoPermission: string := "No tienes permisos para esta acción"
  const MsgAdminExists: string := "El usuario ya existe"
  const MsgCreateError: string := "Error al crear administrador"
  const MsgSelfDeactivate: string := "No puedes desactivar tu propia cuenta"
  const MsgSelfDelete: string := "No puedes eliminar tu propia cuenta"
  const SuperAdminLabel: string := "Super Admin"
  const NormalAdminLabel: string := "Admin Normal"

  /** The level column of the administrators table. */
  function NivelTexto(nivelAcceso: int): (t: string)
    ensures t == SuperAdminLabel <==> nivelAcceso >= 2
    ensures t == SuperAdminLabel || t == NormalAdminLabel
  {
    if nivelAcceso >= 2 then SuperAdminLabel else NormalAdminLabel
  }

  function AdminWithId(id: Id): Admin -> bool
  {
    (a: Admin) => a.id == id
  }

  function NotAdminWithId(id: Id): Admin -> bool
  {
    (a: Admin) => a.id != id
  }

  function IdOf(a: Admin): Id { a.id }
  function UsuarioOf(a: Admin): string { a.usuario }

  /** The unique keys of the table: `id` and `usuario`. */
  predicate KeysDistinct(table: seq<Admin>)
  {
    DistinctBy(table, IdOf) && DistinctBy(table, UsuarioOf)
  }

  predicate UsuarioTaken(table: seq<Admin>, usuario: string)
  {
    exists i :: 0 <= i < |table| && table[i].usuario == usuario
  }

  /**
   * The acting account may change `a`: someone is signed in and it is
   * another account. With nobody signed in, reading the current user's name
   * fails and the handler stops there.
   */
  predicate MayChange(current: Option<Admin>, a: Admin)
  {
    current.Some? && current.value.usuario != a.usuario
  }

  /** `update({ activo }).eq('id', id)`. */
  function SetActivo(table: seq<Admin>, id: Id, activo: bool): (r: seq<Admin>)
    ensures |r| == |table|
  {
    seq(|table|, i requires 0 <= i < |table| =>
      if table[i].id == id then table[i].(activo := activo) else table[i])
  }

  /**
   * Setting the flag touches only the row with that id, keeps every key, and
   * setting it back restores the table.
   */
  lemma SetActivoSpec(table: seq<Admin>, id: Id, activo: bool)
    ensures var r := SetActivo(table, id, activo);
      && (forall i :: 0 <= i < |table| && table[i].id != id ==> r[i] == table[i])
      && (forall i :: 0 <= i < |table| && table[i].id == id ==> r[i].activo == activo)
      && (forall i :: 0 <= i < |table| ==> r[i].id == table[i].id && r[i].usuario == table[i].usuario)
      && (KeysDistinct(table) ==> KeysDistinct(r))
  {
    var r := SetActivo(table, id, activo);
    assert forall i :: 0 <= i < |table| ==> IdOf(r[i]) == IdOf(table[i]) && UsuarioOf(r[i]) == UsuarioOf(table[i]);
  }

  /** Toggling twice (the second time by the reloaded flag) gives the table back. */
  lemma ToggleTwice(table: seq<Admin>, k: nat)
    requires k < |table| && DistinctBy(table, IdOf)
    ensures var once := SetActivo(table, table[k].id, !table[k].activo);
      SetActivo(once, table[k].id, !once[k].activo) == table
  {
    var id := table[k].id;
    forall i | 0 <= i < |table| && table[i].id == id ensures i == k {
      assert IdOf(table[i]) == IdOf(table[k]);
    }
  }

  class AdminManager {
    /** The `administradores` table of the store. */
    var table: seq<Admin>
    /** The list last loaded into the page. */
    var administradores: seq<Admin>
    /** The id the store gives the next inserted row. */
    var nextId: int

    ghost predicate Valid()
      reads this
    {
      && KeysDistinct(table)
      && nextId >= 1
      && (forall i :: 0 <= i < |table| ==> table[i].id < nextId)
    }

    constructor (rows: seq<Admin>, firstFree: int)
      requires KeysDistinct(rows) && firstFree >= 1
      requires forall i :: 0 <= i < |rows| ==> rows[i].id < firstFree
      ensures Valid()
      ensures table == rows && administradores == [] && nextId == firstFree
    {
      table := rows;
      administradores := [];
      nextId := firstFree;
    }

    /** `loadAdministradores()`: below level 2 nothing happens and nothing is said. */
    method LoadAdministradores(auth: Auth.AuthManager)
      modifies this
      ensures table == old(table) && nextId == old(nextId)
      ensures administradores == if auth.HasAccess(2) then table else old(administradores)
    {
      if !auth.HasAccess(2) {
        return;
      }
      administradores := table;
    }

    /**
     * `crearAdministrador(...)`: level 1 suffices. The hash is computed
     * first; a username already in the table is the store's unique-key
     * error; any other failure gives the generic message.
     */
    method CrearAdministrador(auth: Auth.AuthManager, usuario: string, password: string,
                              nombreCompleto: string, nivelAcceso: int,
                              digest: string -> Option<seq<Auth.byte>>)
      returns (ok: bool, msg: string)
      requires Valid()
      modifies this
      ensures Valid()
      ensures ok <==> auth.HasAccess(1) && digest(password).Some? && !UsuarioTaken(old(table), usuario)
      ensures !auth.HasAccess(1) ==> msg == MsgNoPermission
      ensures auth.HasAccess(1) && digest(password).None? ==> msg == MsgCreateError
      ensures auth.HasAccess(1) && digest(password).Some? && UsuarioTaken(old(table), usuario) ==>
        msg == MsgAdminExists
      ensures !ok ==> unchanged(this)
      ensures ok ==>
        && table == old(table) + [Admin(old(nextId), usuario, Auth.Hex(digest(password).value),
                                        nombreCompleto, nivelAcceso, true)]
        && nextId == old(nextId) + 1
        && administradores == if auth.HasAccess(2) then table else old(administradores)
    {
      if !auth.HasAccess(1) {
        return false, MsgNoPermission;
      }
      var hash := digest(password);
      if hash.None? {
        return false, MsgCreateError;
      }
      if exists i :: 0 <= i < |table| && table[i].usuario == usuario {
        return false, MsgAdminExists;
      }
      var row := Admin(nextId, usuario, Auth.Hex(hash.value), nombreCompleto, nivelAcceso, true);
      InsertKeepsKeys(table, row, nextId);
      table := table + [row];
      nextId := nextId + 1;
      LoadAdministradores(auth);
      return true, "Administrador \"" + usuario + "\" creado correctamente";
    }

    /**
     * `toggleEstadoAdmin(adminId)`: level 2 only; the row is looked up in
     * the loaded list; one's own account is refused; the store row gets the
     * negation of the loaded flag and the list is reloaded.
     */
    method ToggleEstadoAdmin(auth: Auth.AuthManager, adminId: Id) returns (ok: bool, msg: string)
      requires Valid()
      modifies this
      ensures Valid()
      ensures var k := FindIndex(old(administradores), AdminWithId(adminId));
        ok <==> auth.HasAccess(2) && k.Some? && MayChange(auth.currentUser, old(administradores)[k.value])
      ensures !auth.HasAccess(2) ==> msg == MsgNoPermission
      ensures var k := FindIndex(old(administradores), AdminWithId(adminId));
        (auth.HasAccess(2) && k.Some? && auth.currentUser.Some? &&
         auth.currentUser.value.usuario == old(administradores)[k.value].usuario) ==> msg == MsgSelfDeactivate
      ensures !ok ==> unchanged(this)
      ensures ok ==>
        var a := old(administradores)[FindIndex(old(administradores), AdminWithId(adminId)).value];
        && table == SetActivo(old(table), adminId, !a.activo)
        && administradores == table
        && nextId == old(nextId)
    {
      if !auth.HasAccess(2) {
        return false, MsgNoPermission;
      }
      var k := FindIndex(administradores, AdminWithId(adminId));
      if k.None? {
        return false, "";
      }
      var admin := administradores[k.value];
      if auth.currentUser.None? {
        return false, "";
      }
      if admin.usuario == auth.currentUser.value.usuario {
        return false, MsgSelfDeactivate;
      }
      var nuevoEstado := !admin.activo;
      SetActivoSpec(table, adminId, nuevoEstado);
      table := SetActivo(table, adminId, nuevoEstado);
      LoadAdministradores(auth);
      var estadoTexto := if nuevoEstado then "activado" else "desactivado";
      return true, "Administrador \"" + admin.usuario + "\" " + estadoTexto + " correctamente";
    }

    /**
     * `eliminarAdministrador(adminId)`: level 1 suffices; the same lookup
     * and self check, then the confirmation; the reload that follows only
     * refreshes the list at level 2.
     */
    method EliminarAdministrador(auth: Auth.AuthManager, adminId: Id, confirmado: bool) returns (ok: bool, msg: string)
      requires Valid()
      modifies this
      ensures Valid()
      ensures var k := FindIndex(old(administradores), AdminWithId(adminId));
        ok <==> auth.HasAccess(1) && k.Some? && MayChange(auth.currentUser, old(administradores)[k.value]) && confirmado
      ensures !auth.HasAccess(1) ==> msg == MsgNoPermission
      ensures var k := FindIndex(old(administradores), AdminWithId(adminId));
        (auth.HasAccess(1) && k.Some? && auth.currentUser.Some? &&
         auth.currentUser.value.usuario == old(administradores)[k.value].usuario) ==> msg == MsgSelfDelete
      ensures !ok ==> unchanged(this)
      ensures ok ==>
        && table == Filter(old(table), NotAdminWithId(adminId))
        && administradores == (if auth.HasAccess(2) then table else old(administradores))
        && nextId == old(nextId)
    {
      if !auth.HasAccess(1) {
        return false, MsgNoPermission;
      }
      var k := FindIndex(administradores, AdminWithId(adminId));
      if k.None? {
        return false, "";
      }
      var admin := administradores[k.value];
      if auth.currentUser.None? {
        return false, "";
      }
      if admin.usuario == auth.currentUser.value.usuario {
        return false, MsgSelfDelete;
      }
      if !confirmado {
        return false, "";
      }
      DeleteKeepsKeys(table, adminId);
      table := Filter(table, NotAdminWithId(adminId));
      LoadAdministradores(auth);
      return true, "Administrador \"" + admin.usuario + "\" eliminado correctamente";
    }
  }

  /** Appending a row with a fresh id and a free username keeps the keys unique. */
  lemma InsertKeepsKeys(table: seq<Admin>, row: Admin, nextId: int)
    requires KeysDistinct(table)
    requires forall i :: 0 <= i < |table| ==> table[i].id < nextId
    requires row.id == nextId && !UsuarioTaken(table, row.usuario)
    ensures KeysDistinct(table + [row])
    ensures forall i :: 0 <= i < |table + [row]| ==> (table + [row])[i].id < nextId + 1
  {
    var t := table + [row];
    forall i, j | 0 <= i < j < |t| ensures IdOf(t[i]) != IdOf(t[j]) && UsuarioOf(t[i]) != UsuarioOf(t[j]) {
      if j < |table| {
        assert t[i] == table[i] && t[j] == table[j];
      } else {
        assert t[i] == table[i];
      }
    }
  }

  /** Deleting by id removes exactly that id's rows and keeps the keys unique. */
  lemma DeleteKeepsKeys(table: seq<Admin>, id: Id)
    requires KeysDistinct(table)
    ensures var r := Filter(table, NotAdminWithId(id));
      && KeysDistinct(r)
      && (forall a :: a in r <==> a in table && a.id != id)
  {
    FilterDistinct(table, NotAdminWithId(id), IdOf);
    FilterDistinct(table, NotAdminWithId(id), UsuarioOf);
    FilterMembers(table, NotAdminWithId(id));
  }
}
