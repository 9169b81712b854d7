/**
 * The bracket manager of the admin panel (js/brackets.js): the tables it
 * writes (`brackets`, `bracket_participantes`, `bracket_partidos` and the
 * `ranking_extra` ledger) held as fields, next to the copies it keeps
 * locally (`currentBracket`, `participantes`, `partidos`).
 *
 * Every store call is one step on those fields; a reload re-reads the
 * current bracket's rows from them. A store error other than the ones the
 * source maps to a message is not modelled.
 */
module Brackets {
  import opened Schema
  import opened BracketDraw
  import Auth

  /** `estado` of a bracket: 'creado', 'en_progreso' and 'finalizado' (named apart from a match's `Finalizado`). */
  datatype BracketState = Creado | EnProgreso | BracketFinalizado

  /** A row of `brackets`. */
  datatype Bracket = Bracket(
    id: Id,
    nombre: string,
    puntosParaGanar: int,
    estado: BracketState,
    rondaActual: int)

  const MsgSelectFirst: string := "Primero selecciona un bracket"
  const MsgSelectBracket: string := "Selecciona un bracket primero"
  const MsgTwoNeeded: string := "Se necesitan al menos 2 participantes"
  const MsgDuplicate: string := "Este usuario ya está en el bracket"
  const MsgTwoWinners: string := "No puede haber dos ganadores, revisa los puntos"
  const MsgRoundOpen: string := "Deben finalizar todos los partidos de la ronda actual"
  const MsgFewWinners: string := "No hay suficientes ganadores para la siguiente ronda"
  const MsgNotOver: string := "El bracket no ha terminado, aún hay múltiples participantes"

  // ---------------------------------------------------------------------
  // Row predicates and row updates
  // ---------------------------------------------------------------------

  /** `.eq('bracket_id', b).eq('activo', true)`. */
  function ActiveIn(b: Id): Participant -> bool
  {
    (p: Participant) => p.bracketId == b && p.activo
  }

  /** `.eq('bracket_id', b).eq('usuario_id', u)`. */
  function RowOf(b: Id, u: Id): Participant -> bool
  {
    (p: Participant) => p.bracketId == b && p.usuarioId == u
  }

  function HasUser(u: Id): Participant -> bool
  {
    (p: Participant) => p.usuarioId == u
  }

  function NotUser(u: Id): Participant -> bool
  {
    (p: Participant) => p.usuarioId != u
  }

  function IsActive(p: Participant): bool
  {
    p.activo
  }

  function InBracket(b: Id): Match -> bool
  {
    (m: Match) => m.bracketId == b
  }

  function HasMatchId(id: Id): Match -> bool
  {
    (m: Match) => m.id == id
  }

  /** `update({ activo: false }).eq('bracket_id', b).eq('usuario_id', u)`: a soft delete. */
  function Deactivate(rows: seq<Participant>, b: Id, u: Id): (r: seq<Participant>)
    ensures |r| == |rows|
  {
    seq(|rows|, i requires 0 <= i < |rows| => if RowOf(b, u)(rows[i]) then rows[i].(activo := false) else rows[i])
  }

  /** The statistics update of `actualizarEstadisticasParticipante`, written to the rows with `p`'s id. */
  function WriteStats(rows: seq<Participant>, p: Participant, esVictoria: bool, puntos: int): (r: seq<Participant>)
    ensures |r| == |rows|
  {
    var q := StatsAfter(p, esVictoria, puntos);
    seq(|rows|, i requires 0 <= i < |rows| =>
      if rows[i].id == p.id
      then rows[i].(victorias := q.victorias, derrotas := q.derrotas, puntosAcumulados := q.puntosAcumulados)
      else rows[i])
  }

  /** `update({ puntos_usuario1, puntos_usuario2 }).eq('id', id)`. */
  function SetScores(ms: seq<Match>, id: Id, p1: int, p2: int): (r: seq<Match>)
    ensures |r| == |ms|
  {
    seq(|ms|, i requires 0 <= i < |ms| => if ms[i].id == id then ms[i].(puntos1 := p1, puntos2 := p2) else ms[i])
  }

  /** The finishing update of `finalizarPartido`, written to the rows with the match's id. */
  function FinishRows(ms: seq<Match>, id: Id, m: Match, r: Resolution): (rs: seq<Match>)
    ensures |rs| == |ms|
  {
    seq(|ms|, i requires 0 <= i < |ms| => if ms[i].id == id then Finish(ms[i], m, r) else ms[i])
  }

  // ---------------------------------------------------------------------
  // The effect of one result on the participant rows and the ledger
  // ---------------------------------------------------------------------

  /** The participant table and the ledger, as one result changes them together. */
  datatype Books = Books(rows: seq<Participant>, ledger: seq<ExtraEntry>)

  /**
   * `actualizarEstadisticasParticipante(u, esVictoria, puntos)`: without a
   * current bracket, or without exactly one row of `u` in it, nothing
   * happens; otherwise that row's statistics move and one ledger entry
   * under the bracket's name is appended (none for 0 points).
   */
  function AfterStats(bk: Books, cb: Option<Bracket>, u: Id, esVictoria: bool, puntos: int): Books
  {
    if cb.None? then bk
    else match Single(bk.rows, RowOf(cb.value.id, u))
      case None => bk
      case Some(p) =>
        Books(WriteStats(bk.rows, p, esVictoria, puntos),
              LedgerAfter(bk.ledger, u, esVictoria, puntos, cb.value.nombre))
  }

  /** The two updates of `finalizarPartido`: the winner's, then the loser's, each only if present. */
  function AfterResult(bk: Books, cb: Option<Bracket>, r: Resolution): Books
  {
    var afterWin := if r.ganador.Some? then AfterStats(bk, cb, r.ganador.value, true, r.puntosGanador) else bk;
    if r.perdedor.Some? then AfterStats(afterWin, cb, r.perdedor.value, false, r.puntosPerdedor) else afterWin
  }

  /** The round the completeness test looks at: `currentBracket?.ronda_actual || 1`. */
  function RoundShown(cb: Option<Bracket>): int
  {
    CurrentRound(if cb.Some? then Some(cb.value.rondaActual) else None)
  }

  // ---------------------------------------------------------------------
  // Properties of the updates
  // ---------------------------------------------------------------------

  /**
   * Between reloads the local roster is the previous one filtered by user;
   * a reload after the soft delete reads back exactly that list.
   */
  lemma {:induction false} ReloadAfterRemove(rows: seq<Participant>, b: Id, u: Id)
    ensures Filter(Deactivate(rows, b, u), ActiveIn(b)) == Filter(Filter(rows, ActiveIn(b)), NotUser(u))
  {
    if |rows| > 0 {
      var init, x := rows[..|rows| - 1], rows[|rows| - 1];
      var y := if RowOf(b, u)(x) then x.(activo := false) else x;
      ReloadAfterRemove(init, b, u);
      var d0, fa := Deactivate(init, b, u), Filter(init, ActiveIn(b));
      assert Filter(Deactivate(rows, b, u), ActiveIn(b)) == Filter(d0, ActiveIn(b)) + (if ActiveIn(b)(y) then [y] else []) by {
        assert Deactivate(rows, b, u) == d0 + [y];
        FilterSnoc(d0, y, ActiveIn(b));
      }
      assert Filter(Filter(rows, ActiveIn(b)), NotUser(u))
          == Filter(fa, NotUser(u)) + (if ActiveIn(b)(x) && NotUser(u)(x) then [x] else []) by {
        assert Filter(rows, ActiveIn(b)) == fa + (if ActiveIn(b)(x) then [x] else []);
        if ActiveIn(b)(x) {
          FilterSnoc(fa, x, NotUser(u));
        } else {
          assert fa + [] == fa;
        }
      }
      assert ActiveIn(b)(y) <==> ActiveIn(b)(x) && NotUser(u)(x) by {
        if RowOf(b, u)(x) {
          assert !ActiveIn(b)(y) && !NotUser(u)(x);
        } else {
          assert y == x;
        }
      }
    }
  }

  /** Recording a result never changes who is in which bracket, or whether they are active. */
  lemma {:induction false} StatsKeepRoster(rows: seq<Participant>, p: Participant, esVictoria: bool, puntos: int, b: Id)
    ensures UserIds(Filter(WriteStats(rows, p, esVictoria, puntos), ActiveIn(b))) == UserIds(Filter(rows, ActiveIn(b)))
  {
    if |rows| > 0 {
      var init := rows[..|rows| - 1];
      var w := WriteStats(rows, p, esVictoria, puntos);
      StatsKeepRoster(init, p, esVictoria, puntos, b);
      assert w[..|w| - 1] == WriteStats(init, p, esVictoria, puntos);
      var fw, fi := Filter(w[..|w| - 1], ActiveIn(b)), Filter(init, ActiveIn(b));
      assert UserIds(fw) == UserIds(fi);
      if ActiveIn(b)(rows[|rows| - 1]) {
        assert UserIds(fw + [w[|w| - 1]]) == UserIds(fw) + [w[|w| - 1].usuarioId];
        assert UserIds(fi + [rows[|rows| - 1]]) == UserIds(fi) + [rows[|rows| - 1].usuarioId];
      }
    }
  }

  /** Storing scores leaves every round exactly as complete as it was. */
  lemma ScoresKeepCompleteness(ms: seq<Match>, id: Id, p1: int, p2: int, r: int)
    ensures RoundComplete(SetScores(ms, id, p1, p2), r) == RoundComplete(ms, r)
  {
    var s := SetScores(ms, id, p1, p2);
    assert forall i :: 0 <= i < |ms| ==> s[i].ronda == ms[i].ronda && s[i].estado == ms[i].estado;
  }

  /** Finishing a match cannot reopen a complete round. */
  lemma FinishKeepsCompleteness(ms: seq<Match>, id: Id, m: Match, res: Resolution, r: int)
    requires RoundComplete(ms, r)
    ensures RoundComplete(FinishRows(ms, id, m, res), r)
  {
    var s := FinishRows(ms, id, m, res);
    assert forall i :: 0 <= i < |ms| ==>
      s[i].ronda == ms[i].ronda && (ms[i].estado == Finalizado ==> s[i].estado == Finalizado);
    var i :| 0 <= i < |ms| && ms[i].ronda == r;
    assert s[i].ronda == r;
  }

  /**
   * One result moves the bracket's ledger total of each user by exactly
   * the change of that user's accumulated points, and nothing else.
   */
  lemma StatsMatchLedger(bk: Books, cb: Option<Bracket>, u: Id, esVictoria: bool, puntos: int, v: Id, e: string)
    requires cb.Some? && Single(bk.rows, RowOf(cb.value.id, u)).Some?
    ensures var p := Single(bk.rows, RowOf(cb.value.id, u)).value;
      LedgerTotal(AfterStats(bk, cb, u, esVictoria, puntos).ledger, v, e) - LedgerTotal(bk.ledger, v, e)
      == if v == u && e == cb.value.nombre
         then StatsAfter(p, esVictoria, puntos).puntosAcumulados - p.puntosAcumulados
         else 0
  {
    var p := Single(bk.rows, RowOf(cb.value.id, u)).value;
    LedgerTracksStats(bk.ledger, p, esVictoria, puntos, cb.value.nombre, v, e);
  }

  class BracketsManager {
    /** The `brackets` table, keyed by id. */
    var brackets: map<Id, Bracket>
    /** The `bracket_participantes` table, inactive rows included. */
    var participantesGuardados: seq<Participant>
    /** The `bracket_partidos` table. */
    var partidosGuardados: seq<Match>
    /** The `ranking_extra` ledger. */
    var rankingExtra: seq<ExtraEntry>
    /** The next primary key the store hands out. */
    var nextId: Id

    var currentBracket: Option<Bracket>
    var participantes: seq<Participant>
    var partidos: seq<Match>

    /**
     * The store's keys: bracket ids are below `nextId`, every participant
     * and match row belongs to a stored bracket, and the local bracket is
     * the stored row.
     */
    ghost predicate Valid()
      reads this
    {
      && (forall id :: id in brackets ==> brackets[id].id == id && id < nextId)
      && (forall i :: 0 <= i < |participantesGuardados| ==> participantesGuardados[i].bracketId in brackets)
      && (forall i :: 0 <= i < |partidosGuardados| ==> partidosGuardados[i].bracketId in brackets)
      && (currentBracket.Some? ==>
            currentBracket.value.id in brackets && brackets[currentBracket.value.id] == currentBracket.value)
    }

    /** A new manager over the given tables, with nothing selected. */
    constructor (bs: map<Id, Bracket>, rows: seq<Participant>, ms: seq<Match>, ledger: seq<ExtraEntry>, firstFree: Id)
      requires forall id :: id in bs ==> bs[id].id == id && id < firstFree
      requires forall i :: 0 <= i < |rows| ==> rows[i].bracketId in bs
      requires forall i :: 0 <= i < |ms| ==> ms[i].bracketId in bs
      ensures Valid()
      ensures brackets == bs && participantesGuardados == rows && partidosGuardados == ms
      ensures rankingExtra == ledger && nextId == firstFree
      ensures currentBracket == None && participantes == [] && partidos == []
    {
      brackets, participantesGuardados, partidosGuardados := bs, rows, ms;
      rankingExtra, nextId := ledger, firstFree;
      currentBracket, participantes, partidos := None, [], [];
    }

    /** `cargarBracketCompleto(id)`: the bracket row, then its active participants, then its matches. */
    method CargarBracketCompleto(bracketId: Id) returns (ok: bool)
      requires Valid()
      modifies this
      ensures Valid()
      ensures ok <==> bracketId in brackets
      ensures !ok ==> unchanged(this)
      ensures ok ==>
        && currentBracket == Some(brackets[bracketId])
        && participantes == Filter(participantesGuardados, ActiveIn(bracketId))
        && partidos == Filter(partidosGuardados, InBracket(bracketId))
      ensures brackets == old(brackets) && participantesGuardados == old(participantesGuardados)
      ensures partidosGuardados == old(partidosGuardados) && rankingExtra == old(rankingExtra)
      ensures nextId == old(nextId)
    {
      if bracketId !in brackets {
        return false;
      }
      currentBracket := Some(brackets[bracketId]);
      participantes := Filter(participantesGuardados, ActiveIn(bracketId));
      partidos := Filter(partidosGuardados, InBracket(bracketId));
      return true;
    }

    /** `clearBracketData()`. */
    method ClearBracketData()
      requires Valid()
      modifies this
      ensures Valid()
      ensures currentBracket == None && participantes == [] && partidos == []
      ensures brackets == old(brackets) && participantesGuardados == old(participantesGuardados)
      ensures partidosGuardados == old(partidosGuardados) && rankingExtra == old(rankingExtra)
      ensures nextId == old(nextId)
    {
      currentBracket, participantes, partidos := None, [], [];
    }

    /**
     * `crearBracket()`: needs access level 1, a name and at least one point
     * to win (`puntos` is None when the field is empty); the new bracket is
     * stored as 'creado' in round 1 and loaded, with nobody in it yet.
     */
    method CrearBracket(auth: Auth.AuthManager, nombre: string, puntos: Option<int>) returns (ok: bool)
      requires Valid()
      modifies this
      ensures Valid()
      ensures ok <==> auth.HasAccess(1) && nombre != "" && puntos.Some? && puntos.value >= 1
      ensures !ok ==> unchanged(this)
      ensures ok ==>
        var b := Bracket(old(nextId), nombre, puntos.value, Creado, 1);
        && brackets == old(brackets)[old(nextId) := b]
        && nextId == old(nextId) + 1
        && currentBracket == Some(b)
        && participantes == [] && partidos == []
        && participantesGuardados == old(participantesGuardados)
        && partidosGuardados == old(partidosGuardados)
        && rankingExtra == old(rankingExtra)
    {
      if !auth.HasAccess(1) || nombre == "" || puntos.None? || puntos.value < 1 {
        return false;
      }
      var b := Bracket(nextId, nombre, puntos.value, Creado, 1);
      brackets := brackets[nextId := b];
      nextId := nextId + 1;
      FilterNone(participantesGuardados, ActiveIn(b.id));
      FilterNone(partidosGuardados, InBracket(b.id));
      ok := CargarBracketCompleto(b.id);
    }

    /**
     * `agregarParticipante()`: a bracket and a user must be chosen; the pair
     * (bracket, user) is unique in the table, inactive rows included, and the
     * user must exist. The new row is active with no seed unless one was
     * given, and is pushed onto the local list.
     */
    method AgregarParticipante(usuarioId: Option<Id>, semilla: Option<int>, usuarios: seq<Usuario>)
      returns (ok: bool, msg: string)
      requires Valid()
      modifies this
      ensures Valid()
      ensures currentBracket.None? ==> !ok && msg == MsgSelectFirst
      ensures currentBracket.Some? && usuarioId.None? ==> !ok && msg == "Selecciona un usuario"
      ensures currentBracket.Some? && usuarioId.Some? &&
              (exists r :: r in old(participantesGuardados) && RowOf(currentBracket.value.id, usuarioId.value)(r)) ==>
        !ok && msg == MsgDuplicate
      ensures ok <==>
        && currentBracket.Some? && usuarioId.Some?
        && !(exists r :: r in old(participantesGuardados) && RowOf(currentBracket.value.id, usuarioId.value)(r))
        && (exists x :: x in usuarios && x.id == usuarioId.value)
      ensures !ok ==> unchanged(this)
      ensures ok ==>
        var row := Participant(old(nextId), currentBracket.value.id, usuarioId.value, semilla, 0, 0, 0, true);
        && participantesGuardados == old(participantesGuardados) + [row]
        && participantes == old(participantes) + [row]
        && nextId == old(nextId) + 1
        && msg == "Participante agregado al bracket"
      ensures currentBracket == old(currentBracket) && brackets == old(brackets)
      ensures partidosGuardados == old(partidosGuardados) && partidos == old(partidos)
      ensures rankingExtra == old(rankingExtra)
    {
      if currentBracket.None? {
        return false, MsgSelectFirst;
      }
      if usuarioId.None? {
        return false, "Selecciona un usuario";
      }
      var b, u := currentBracket.value.id, usuarioId.value;
      if exists r :: r in participantesGuardados && RowOf(b, u)(r) {
        return false, MsgDuplicate;
      }
      if !exists x :: x in usuarios && x.id == u {
        return false, "Error al agregar participante";
      }
      var row := Participant(nextId, b, u, semilla, 0, 0, 0, true);
      participantesGuardados := participantesGuardados + [row];
      participantes := participantes + [row];
      nextId := nextId + 1;
      return true, "Participante agregado al bracket";
    }

    /**
     * `removerParticipante(u)`: the user's rows in the bracket are made
     * inactive and the user leaves the local list; the call does nothing
     * unless the user is listed and the removal is confirmed.
     */
    method RemoverParticipante(usuarioId: Id, confirmado: bool) returns (ok: bool)
      requires Valid()
      modifies this
      ensures Valid()
      ensures ok <==> old(currentBracket).Some? && FindIndex(old(participantes), HasUser(usuarioId)).Some? && confirmado
      ensures !ok ==> unchanged(this)
      ensures ok ==>
        && participantesGuardados == Deactivate(old(participantesGuardados), old(currentBracket).value.id, usuarioId)
        && participantes == Filter(old(participantes), NotUser(usuarioId))
      ensures currentBracket == old(currentBracket) && brackets == old(brackets)
      ensures partidosGuardados == old(partidosGuardados) && partidos == old(partidos)
      ensures rankingExtra == old(rankingExtra) && nextId == old(nextId)
    {
      if currentBracket.None? || FindIndex(participantes, HasUser(usuarioId)).None? || !confirmado {
        return false;
      }
      participantesGuardados := Deactivate(participantesGuardados, currentBracket.value.id, usuarioId);
      participantes := Filter(participantes, NotUser(usuarioId));
      return true;
    }

    /** An insert into `bracket_partidos` of rows of the current bracket, with keys from `nextId` on. */
    method InsertarPartidos(rows: seq<Match>)
      requires Valid() && currentBracket.Some?
      requires forall i :: 0 <= i < |rows| ==> rows[i].bracketId == currentBracket.value.id
      modifies this
      ensures Valid()
      ensures partidosGuardados == old(partidosGuardados) + rows && nextId == old(nextId) + |rows|
      ensures currentBracket == old(currentBracket) && brackets == old(brackets)
      ensures participantes == old(participantes) && participantesGuardados == old(participantesGuardados)
      ensures partidos == old(partidos) && rankingExtra == old(rankingExtra)
    {
      partidosGuardados := partidosGuardados + rows;
      nextId := nextId + |rows|;
    }

    /** An update of the current bracket's row, mirrored in the local copy. */
    method GuardarBracket(b: Bracket)
      requires Valid() && currentBracket.Some? && b.id == currentBracket.value.id
      modifies this
      ensures Valid()
      ensures brackets == old(brackets)[b.id := b] && currentBracket == Some(b)
      ensures participantes == old(participantes) && participantesGuardados == old(participantesGuardados)
      ensures partidos == old(partidos) && partidosGuardados == old(partidosGuardados)
      ensures rankingExtra == old(rankingExtra) && nextId == old(nextId)
    {
      brackets := brackets[b.id := b];
      currentBracket := Some(b);
    }

    /**
     * `confirmarParticipantes()`: with at least two listed participants the
     * bracket goes to 'en_progreso', in the table and locally.
     */
    method ConfirmarParticipantes() returns (ok: bool, msg: string)
      requires Valid()
      modifies this
      ensures Valid()
      ensures old(currentBracket).None? ==> !ok && msg == MsgSelectBracket
      ensures old(currentBracket).Some? && |participantes| < 2 ==> !ok && msg == MsgTwoNeeded
      ensures ok <==> old(currentBracket).Some? && |participantes| >= 2
      ensures !ok ==> unchanged(this)
      ensures ok ==>
        var b := old(currentBracket).value.(estado := EnProgreso);
        && currentBracket == Some(b)
        && brackets == old(brackets)[b.id := b]
        && msg == NatToString(|participantes|) + " participantes confirmados"
      ensures participantes == old(participantes) && participantesGuardados == old(participantesGuardados)
      ensures partidosGuardados == old(partidosGuardados) && partidos == old(partidos)
      ensures rankingExtra == old(rankingExtra) && nextId == old(nextId)
    {
      if currentBracket.None? {
        return false, MsgSelectBracket;
      }
      if |participantes| < 2 {
        return false, MsgTwoNeeded;
      }
      GuardarBracket(currentBracket.value.(estado := EnProgreso));
      return true, NatToString(|participantes|) + " participantes confirmados";
    }

    /**
     * `generarRonda1()`: the listed participants in round-1 order are paired
     * by `generarPartidosRonda1` for the bracket size, the matches of round 1
     * are inserted, and the bracket's matches are reloaded.
     */
    method GenerarRonda1() returns (ok: bool, msg: string)
      requires Valid()
      modifies this
      ensures Valid()
      ensures old(currentBracket).None? ==> !ok && msg == MsgSelectBracket
      ensures old(currentBracket).Some? && |participantes| < 2 ==> !ok && msg == MsgTwoNeeded
      ensures ok <==> old(currentBracket).Some? && |participantes| >= 2
      ensures !ok ==> unchanged(this)
      ensures ok ==>
        var b := old(currentBracket).value;
        var pairs := Round1Pairs(UserIds(SeedOrder(participantes)), BracketSize(|participantes|));
        var rows := MatchesFor(pairs, b.id, 1, b.puntosParaGanar, old(nextId));
        && partidosGuardados == old(partidosGuardados) + rows
        && nextId == old(nextId) + |rows|
        && partidos == Filter(partidosGuardados, InBracket(b.id))
        && |rows| == BracketSize(|participantes|) / 2
      ensures currentBracket == old(currentBracket) && brackets == old(brackets)
      ensures participantes == old(participantes) && participantesGuardados == old(participantesGuardados)
      ensures rankingExtra == old(rankingExtra)
    {
      if currentBracket.None? {
        return false, MsgSelectBracket;
      }
      var n := |participantes|;
      if n < 2 {
        return false, MsgTwoNeeded;
      }
      var b := currentBracket.value;
      var size := BracketSize(n);
      var order := SeedOrder(participantes);
      Round1Count(UserIds(order));
      var pairs := GenerarPartidosRonda1(order, size);
      var rows := MatchesFor(pairs, b.id, 1, b.puntosParaGanar, nextId);
      InsertarPartidos(rows);
      partidos := Filter(partidosGuardados, InBracket(b.id));
      return true, "Primera ronda generada correctamente";
    }

    /**
     * `actualizarEstadisticasParticipante(u, esVictoria, puntos)`: the
     * user's row in the current bracket (active or not) gets the result,
     * then `registrarPuntosRankingExtra` logs it.
     */
    method ActualizarEstadisticasParticipante(usuarioId: Id, esVictoria: bool, puntos: int)
      requires Valid()
      modifies this
      ensures Valid()
      ensures Books(participantesGuardados, rankingExtra)
           == AfterStats(Books(old(participantesGuardados), old(rankingExtra)), currentBracket, usuarioId, esVictoria, puntos)
      ensures currentBracket == old(currentBracket) && brackets == old(brackets)
      ensures participantes == old(participantes) && partidos == old(partidos)
      ensures partidosGuardados == old(partidosGuardados) && nextId == old(nextId)
    {
      if currentBracket.None? {
        return;
      }
      var found := Single(participantesGuardados, RowOf(currentBracket.value.id, usuarioId));
      if found.None? {
        return;
      }
      participantesGuardados := WriteStats(participantesGuardados, found.value, esVictoria, puntos);
      RegistrarPuntosRankingExtra(usuarioId, esVictoria, puntos);
    }

    /** `registrarPuntosRankingExtra(u, esVictoria, puntos)`: one signed entry under the bracket's name. */
    method RegistrarPuntosRankingExtra(usuarioId: Id, esVictoria: bool, puntos: int)
      requires Valid()
      modifies this
      ensures Valid()
      ensures currentBracket.None? ==> rankingExtra == old(rankingExtra)
      ensures currentBracket.Some? ==>
        rankingExtra == LedgerAfter(old(rankingExtra), usuarioId, esVictoria, puntos, currentBracket.value.nombre)
      ensures currentBracket == old(currentBracket) && brackets == old(brackets)
      ensures participantes == old(participantes) && partidos == old(partidos)
      ensures participantesGuardados == old(participantesGuardados)
      ensures partidosGuardados == old(partidosGuardados) && nextId == old(nextId)
    {
      if LedgerDelta(esVictoria, puntos) == 0 || currentBracket.None? {
        return;
      }
      rankingExtra := LedgerAfter(rankingExtra, usuarioId, esVictoria, puntos, currentBracket.value.nombre);
    }

    /**
     * `finalizarPartido(id, ganador, perdedor, p1, p2)`: the winner and
     * loser are resolved against the LOCAL copy of the match, the stored
     * row is finished, and the winner's and then the loser's statistics
     * are updated.
     */
    method FinalizarPartido(partidoId: Id, ganadorId: Option<Id>, perdedorId: Option<Id>, pj1: int, pj2: int)
      requires Valid()
      modifies this
      ensures Valid()
      ensures FindIndex(partidos, HasMatchId(partidoId)).None? ==> unchanged(this)
      ensures FindIndex(partidos, HasMatchId(partidoId)).Some? ==>
        var m := partidos[FindIndex(partidos, HasMatchId(partidoId)).value];
        var r := Resolve(m, ganadorId, perdedorId, pj1, pj2);
        && partidosGuardados == FinishRows(old(partidosGuardados), partidoId, m, r)
        && Books(participantesGuardados, rankingExtra)
           == AfterResult(Books(old(participantesGuardados), old(rankingExtra)), currentBracket, r)
      ensures currentBracket == old(currentBracket) && brackets == old(brackets)
      ensures participantes == old(participantes) && partidos == old(partidos)
      ensures nextId == old(nextId)
    {
      var k := FindIndex(partidos, HasMatchId(partidoId));
      if k.None? {
        return;
      }
      var m := partidos[k.value];
      var r := Resolve(m, ganadorId, perdedorId, pj1, pj2);
      partidosGuardados := FinishRows(partidosGuardados, partidoId, m, r);
      if r.ganador.Some? {
        ActualizarEstadisticasParticipante(r.ganador.value, true, r.puntosGanador);
      }
      if r.perdedor.Some? {
        ActualizarEstadisticasParticipante(r.perdedor.value, false, r.puntosPerdedor);
      }
    }

    /**
     * `guardarPuntosPartido(id)` with the two entered scores: a match
     * missing a side is finished for the present one; a score where both
     * sides reach the threshold is refused before anything is written;
     * otherwise the scores are stored, a decided match is finished, and the
     * matches are reloaded.
     */
    method GuardarPuntosPartido(partidoId: Id, p1: int, p2: int) returns (msg: string)
      requires Valid()
      modifies this
      ensures Valid()
      ensures FindIndex(old(partidos), HasMatchId(partidoId)).None? ==> unchanged(this)
      ensures FindIndex(old(partidos), HasMatchId(partidoId)).Some? ==>
        var m := old(partidos)[FindIndex(old(partidos), HasMatchId(partidoId)).value];
        var t := Threshold(m.puntosParaGanar,
                           if currentBracket.Some? then Some(currentBracket.value.puntosParaGanar) else None);
        var o := Judge(m.usuario1, m.usuario2, t, p1, p2);
        var bk := Books(old(participantesGuardados), old(rankingExtra));
        var now := Books(participantesGuardados, rankingExtra);
        && (o.Walkover? && m.usuario2.None? ==>
              var r := Resolve(m, m.usuario1, None, p1, 0);
              partidosGuardados == FinishRows(old(partidosGuardados), partidoId, m, r)
              && now == AfterResult(bk, currentBracket, r) && partidos == old(partidos))
        && (o.Walkover? && m.usuario2.Some? ==>
              var r := Resolve(m, m.usuario2, None, 0, p2);
              partidosGuardados == FinishRows(old(partidosGuardados), partidoId, m, r)
              && now == AfterResult(bk, currentBracket, r) && partidos == old(partidos))
        && (o.TwoWinners? ==> unchanged(this) && msg == MsgTwoWinners)
        && (o.NotYet? ==>
              partidosGuardados == SetScores(old(partidosGuardados), partidoId, p1, p2)
              && now == bk && msg == "Puntos guardados correctamente")
        && (o.Won? ==>
              var r := Resolve(m, Some(o.ganador), Some(o.perdedor), p1, p2);
              partidosGuardados == FinishRows(SetScores(old(partidosGuardados), partidoId, p1, p2), partidoId, m, r)
              && now == AfterResult(bk, currentBracket, r))
        && (o.Won? || o.NotYet? ==>
              partidos == if currentBracket.Some? then Filter(partidosGuardados, InBracket(currentBracket.value.id))
                          else old(partidos))
      ensures currentBracket == old(currentBracket) && brackets == old(brackets)
      ensures participantes == old(participantes) && nextId == old(nextId)
    {
      msg := "";
      var k := FindIndex(partidos, HasMatchId(partidoId));
      if k.None? {
        return;
      }
      var m := partidos[k.value];
      if m.usuario2.None? {
        FinalizarPartido(partidoId, m.usuario1, None, p1, 0);
        return;
      }
      if m.usuario1.None? {
        FinalizarPartido(partidoId, m.usuario2, None, 0, p2);
        return;
      }
      var t := Threshold(m.puntosParaGanar,
                         if currentBracket.Some? then Some(currentBracket.value.puntosParaGanar) else None);
      var gano1, gano2 := p1 >= t, p2 >= t;
      if gano1 && gano2 {
        return MsgTwoWinners;
      }
      partidosGuardados := SetScores(partidosGuardados, partidoId, p1, p2);
      if gano1 || gano2 {
        var ganador := if gano1 then m.usuario1 else m.usuario2;
        var perdedor := if gano1 then m.usuario2 else m.usuario1;
        FinalizarPartido(partidoId, ganador, perdedor, p1, p2);
      } else {
        msg := "Puntos guardados correctamente";
      }
      if currentBracket.Some? {
        partidos := Filter(partidosGuardados, InBracket(currentBracket.value.id));
      }
    }

    /**
     * `todasLasRondasCompletadas()`: there are matches, and the shown round
     * has at least one and all of them are finished.
     */
    function TodasLasRondasCompletadas(): (done: bool)
      reads this
      ensures done <==>
        (exists i :: 0 <= i < |partidos| && partidos[i].ronda == RoundShown(currentBracket)) &&
        (forall i :: 0 <= i < |partidos| && partidos[i].ronda == RoundShown(currentBracket) ==>
           partidos[i].estado == Finalizado)
    {
      |partidos| > 0 && RoundComplete(partidos, RoundShown(currentBracket))
    }

    /**
     * `generarSiguienteRonda()`: once the round is complete, its winners in
     * match order (at least two) are paired for round `ronda_actual + 1`,
     * the bracket advances one round, and everything is reloaded.
     */
    method GenerarSiguienteRonda() returns (ok: bool, msg: string)
      requires Valid()
      modifies this
      ensures Valid()
      ensures old(currentBracket).None? ==> !ok && msg == MsgSelectBracket
      ensures old(currentBracket).Some? && !old(TodasLasRondasCompletadas()) ==> !ok && msg == MsgRoundOpen
      ensures old(currentBracket).Some? && old(TodasLasRondasCompletadas()) &&
              |Winners(old(partidos), old(currentBracket).value.rondaActual)| < 2 ==>
        !ok && msg == MsgFewWinners
      ensures ok <==> old(currentBracket).Some? && old(TodasLasRondasCompletadas()) &&
                      |Winners(old(partidos), old(currentBracket).value.rondaActual)| >= 2
      ensures !ok ==> unchanged(this)
      ensures ok ==>
        var b := old(currentBracket).value;
        var rows := MatchesFor(NextRoundPairs(Winners(old(partidos), b.rondaActual)),
                               b.id, b.rondaActual + 1, b.puntosParaGanar, old(nextId));
        && partidosGuardados == old(partidosGuardados) + rows
        && nextId == old(nextId) + |rows|
        && brackets == old(brackets)[b.id := b.(rondaActual := b.rondaActual + 1)]
        && currentBracket == Some(b.(rondaActual := b.rondaActual + 1))
        && participantes == Filter(participantesGuardados, ActiveIn(b.id))
        && partidos == Filter(partidosGuardados, InBracket(b.id))
      ensures participantesGuardados == old(participantesGuardados) && rankingExtra == old(rankingExtra)
    {
      if currentBracket.None? {
        return false, MsgSelectBracket;
      }
      var b := currentBracket.value;
      if !TodasLasRondasCompletadas() {
        return false, MsgRoundOpen;
      }
      var ganadores := Winners(partidos, b.rondaActual);
      if |ganadores| < 2 {
        return false, MsgFewWinners;
      }
      AvanzarRonda(ganadores);
      return true, "Ronda " + IntToString(b.rondaActual + 1) + " generada correctamente";
    }

    /**
     * The writes of `generarSiguienteRonda`: the winners' matches are
     * inserted for the next round, the counter advances, and the bracket is
     * reloaded.
     */
    method AvanzarRonda(ganadores: seq<Id>)
      requires Valid() && currentBracket.Some?
      modifies this
      ensures Valid()
      ensures
        var b := old(currentBracket).value;
        var rows := MatchesFor(NextRoundPairs(ganadores), b.id, b.rondaActual + 1, b.puntosParaGanar, old(nextId));
        && partidosGuardados == old(partidosGuardados) + rows
        && nextId == old(nextId) + |rows|
        && brackets == old(brackets)[b.id := b.(rondaActual := b.rondaActual + 1)]
        && currentBracket == Some(b.(rondaActual := b.rondaActual + 1))
        && participantes == Filter(participantesGuardados, ActiveIn(b.id))
        && partidos == Filter(partidosGuardados, InBracket(b.id))
      ensures participantesGuardados == old(participantesGuardados) && rankingExtra == old(rankingExtra)
    {
      var b := currentBracket.value;
      var nuevos := BuildNextRound(ganadores, b.id, b.rondaActual + 1, b.puntosParaGanar, nextId);
      InsertarPartidos(nuevos);
      GuardarBracket(b.(rondaActual := b.rondaActual + 1));
      var _ := CargarBracketCompleto(b.id);
    }

    /**
     * `finalizarBracket()`: refused while more than one listed participant is
     * active; once confirmed, the bracket is closed and reloaded.
     */
    method FinalizarBracket(confirmado: bool) returns (ok: bool, msg: string)
      requires Valid()
      modifies this
      ensures Valid()
      ensures old(currentBracket).None? ==> !ok && msg == MsgSelectBracket
      ensures old(currentBracket).Some? && CountIf(old(participantes), IsActive) > 1 ==> !ok && msg == MsgNotOver
      ensures ok <==> old(currentBracket).Some? && CountIf(old(participantes), IsActive) <= 1 && confirmado
      ensures !ok ==> unchanged(this)
      ensures ok ==>
        var b := old(currentBracket).value.(estado := BracketFinalizado);
        && brackets == old(brackets)[b.id := b]
        && currentBracket == Some(b)
        && participantes == Filter(participantesGuardados, ActiveIn(b.id))
        && partidos == Filter(partidosGuardados, InBracket(b.id))
      ensures participantesGuardados == old(participantesGuardados) && partidosGuardados == old(partidosGuardados)
      ensures rankingExtra == old(rankingExtra) && nextId == old(nextId)
    {
      if currentBracket.None? {
        return false, MsgSelectBracket;
      }
      if CountIf(participantes, IsActive) > 1 {
        return false, MsgNotOver;
      }
      if !confirmado {
        return false, "";
      }
      var b := currentBracket.value.(estado := BracketFinalizado);
      GuardarBracket(b);
      var _ := CargarBracketCompleto(b.id);
      return true, "Bracket \"" + b.nombre + "\" finalizado";
    }
  }
}
