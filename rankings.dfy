/**
 * The ranking screens (js/rankings.js): the extra ranking of one event,
 * built from the `ranking_extra` ledger by summing each user's entries,
 * keeping positive totals and ordering them from highest to lowest; the
 * position badges of both rankings; and the CSV export of a rendered table.
 *
 * The export works on rendered cell texts. JavaScript strings are UTF-16,
 * so the cleaning regular expression is modelled on code units next to
 * the character-level cleaning the rest of the model uses.
 */
module Rankings {
  import opened Schema
  import opened Sorting
  import Auth

  const DefaultEvento: string := "Evento For Fun"
  const NoTag: string := "NONE"
  const NoTeam: string := "Sin Equipo"

  // ---------------------------------------------------------------------
  // The ledger query: `ranking_extra` rows of one event, with user and team
  // ---------------------------------------------------------------------

  /** One selected row: `puntos_extra`, the user's `nombre` and the user's team, if any. */
  datatype LedgerRow = LedgerRow(puntosExtra: int, nombre: string, equipo: Option<Equipo>)

  /** One line of the extra ranking. */
  datatype ExtraStanding = ExtraStanding(nombre: string, equipoTag: string, equipoNombre: string, puntosExtra: int)

  function OfEvent(evento: string): ExtraEntry -> bool
  {
    (e: ExtraEntry) => e.eventoNombre == evento
  }

  function NotOfEvent(evento: string): ExtraEntry -> bool
  {
    (e: ExtraEntry) => e.eventoNombre != evento
  }

  function UserWithId(id: Id): Usuario -> bool
  {
    (u: Usuario) => u.id == id
  }

  function TeamWithId(id: Id): Equipo -> bool
  {
    (t: Equipo) => t.id == id
  }

  /** The embedded `usuarios (nombre, equipos (nombre, tag))` of one entry; None when the user is missing. */
  function JoinEntry(x: ExtraEntry, usuarios: seq<Usuario>, equipos: seq<Equipo>): (r: Option<LedgerRow>)
    ensures r.Some? <==> FindIndex(usuarios, UserWithId(x.usuarioId)).Some?
    ensures r.Some? ==> r.value.puntosExtra == x.puntosExtra
  {
    match FindIndex(usuarios, UserWithId(x.usuarioId))
    case None => None
    case Some(k) =>
      var u := usuarios[k];
      var team :=
        if u.equipoId.None? then None
        else match FindIndex(equipos, TeamWithId(u.equipoId.value))
          case None => None
          case Some(j) => Some(equipos[j]);
      Some(LedgerRow(x.puntosExtra, u.nombre, team))
  }

  /** The whole query result; a missing user makes the page's load fail. */
  function JoinAll(xs: seq<ExtraEntry>, usuarios: seq<Usuario>, equipos: seq<Equipo>): (r: Option<seq<LedgerRow>>)
    ensures r.Some? <==> forall i :: 0 <= i < |xs| ==> JoinEntry(xs[i], usuarios, equipos).Some?
    ensures r.Some? ==> |r.value| == |xs|
    ensures r.Some? ==> forall i :: 0 <= i < |xs| ==> r.value[i] == JoinEntry(xs[i], usuarios, equipos).value
  {
    if |xs| == 0 then Some([])
    else
      var init := JoinAll(xs[..|xs| - 1], usuarios, equipos);
      var last := JoinEntry(xs[|xs| - 1], usuarios, equipos);
      assert init.Some? ==> forall i :: 0 <= i < |xs| - 1 ==> xs[..|xs| - 1][i] == xs[i];
      if init.None? || last.None? then None else Some(init.value + [last.value])
  }

  // ---------------------------------------------------------------------
  // Grouping by user name (the `usuariosMap` of `loadRankingExtra`)
  // ---------------------------------------------------------------------

  /** `equipos?.tag || "NONE"`. */
  function TagOf(e: Option<Equipo>): string
  {
    if e.Some? && e.value.tag != "" then e.value.tag else NoTag
  }

  /** `equipos?.nombre || "Sin Equipo"`. */
  function TeamNameOf(e: Option<Equipo>): string
  {
    if e.Some? && e.value.nombre != "" then e.value.nombre else NoTeam
  }

  function StandingNamed(n: string): ExtraStanding -> bool
  {
    (s: ExtraStanding) => s.nombre == n
  }

  function RowNamed(n: string): LedgerRow -> bool
  {
    (r: LedgerRow) => r.nombre == n
  }

  /** One step of the `forEach`: a new name starts at 0 with this row's team, then the amount is added. */
  function AddRow(acc: seq<ExtraStanding>, row: LedgerRow): seq<ExtraStanding>
  {
    match FindIndex(acc, StandingNamed(row.nombre))
    case None => acc + [ExtraStanding(row.nombre, TagOf(row.equipo), TeamNameOf(row.equipo), 0 + row.puntosExtra)]
    case Some(k) => acc[k := acc[k].(puntosExtra := acc[k].puntosExtra + row.puntosExtra)]
  }

  /** The map's values in insertion order after all rows. */
  function Grouped(rows: seq<LedgerRow>): seq<ExtraStanding>
  {
    if |rows| == 0 then [] else AddRow(Grouped(rows[..|rows| - 1]), rows[|rows| - 1])
  }

  /** The independent reference: the sum of the amounts of the rows carrying name `n`. */
  function TotalFor(rows: seq<LedgerRow>, n: string): int
  {
    if |rows| == 0 then 0
    else TotalFor(rows[..|rows| - 1], n) + (if rows[|rows| - 1].nombre == n then rows[|rows| - 1].puntosExtra else 0)
  }

  function RowNames(rows: seq<LedgerRow>): set<string>
  {
    set i | 0 <= i < |rows| :: rows[i].nombre
  }

  function StandingNames(g: seq<ExtraStanding>): set<string>
  {
    set i | 0 <= i < |g| :: g[i].nombre
  }

  lemma {:induction false} TotalForAbsent(rows: seq<LedgerRow>, n: string)
    requires n !in RowNames(rows)
    ensures TotalFor(rows, n) == 0
  {
    if |rows| > 0 {
      var init := rows[..|rows| - 1];
      assert forall i :: 0 <= i < |init| ==> init[i] == rows[i];
      assert RowNames(init) <= RowNames(rows);
      TotalForAbsent(init, n);
      assert rows[|rows| - 1].nombre in RowNames(rows);
    }
  }

  lemma RowNamesSnoc(rows: seq<LedgerRow>)
    requires |rows| > 0
    ensures RowNames(rows) == RowNames(rows[..|rows| - 1]) + {rows[|rows| - 1].nombre}
  {
    var init := rows[..|rows| - 1];
    assert forall i :: 0 <= i < |init| ==> init[i] == rows[i];
    forall n | n in RowNames(rows) ensures n in RowNames(init) + {rows[|rows| - 1].nombre} {
      var i :| 0 <= i < |rows| && rows[i].nombre == n;
      if i < |init| {
        assert init[i].nombre == n;
      }
    }
  }

  /**
   * The grouping is right: one line per distinct name, every name of the
   * rows has a line, and each line's total is the sum of that name's
   * amounts.
   */
  lemma {:induction false} GroupedSpec(rows: seq<LedgerRow>)
    ensures var g := Grouped(rows);
      && (forall i, j :: 0 <= i < j < |g| ==> g[i].nombre != g[j].nombre)
      && StandingNames(g) == RowNames(rows)
      && (forall k :: 0 <= k < |g| ==> g[k].puntosExtra == TotalFor(rows, g[k].nombre))
  {
    if |rows| > 0 {
      var init, x := rows[..|rows| - 1], rows[|rows| - 1];
      GroupedSpec(init);
      if FindIndex(Grouped(init), StandingNamed(x.nombre)).None? {
        GroupedStepNew(rows, Grouped(init));
      } else {
        GroupedStepBump(rows, Grouped(init));
      }
    }
  }

  /** What `GroupedSpec` states about the lines `g` built from `rows`. */
  predicate GroupCorrect(rows: seq<LedgerRow>, g: seq<ExtraStanding>)
  {
    && (forall i, j :: 0 <= i < j < |g| ==> g[i].nombre != g[j].nombre)
    && StandingNames(g) == RowNames(rows)
    && (forall k :: 0 <= k < |g| ==> g[k].puntosExtra == TotalFor(rows, g[k].nombre))
  }

  /** A row with a name not seen before opens a new line. */
  lemma GroupedStepNew(rows: seq<LedgerRow>, g0: seq<ExtraStanding>)
    requires |rows| > 0 && GroupCorrect(rows[..|rows| - 1], g0)
    requires FindIndex(g0, StandingNamed(rows[|rows| - 1].nombre)).None?
    ensures GroupCorrect(rows, AddRow(g0, rows[|rows| - 1]))
  {
    var init, x := rows[..|rows| - 1], rows[|rows| - 1];
    RowNamesSnoc(rows);
    forall k | 0 <= k < |g0| ensures g0[k].nombre != x.nombre {
      assert !StandingNamed(x.nombre)(g0[k]);
    }
    assert x.nombre !in RowNames(init);
    TotalForAbsent(init, x.nombre);
    GroupedNew(g0, ExtraStanding(x.nombre, TagOf(x.equipo), TeamNameOf(x.equipo), 0 + x.puntosExtra));
  }

  /** A row with a name already seen adds to that name's line. */
  lemma GroupedStepBump(rows: seq<LedgerRow>, g0: seq<ExtraStanding>)
    requires |rows| > 0 && GroupCorrect(rows[..|rows| - 1], g0)
    requires FindIndex(g0, StandingNamed(rows[|rows| - 1].nombre)).Some?
    ensures GroupCorrect(rows, AddRow(g0, rows[|rows| - 1]))
  {
    var x := rows[|rows| - 1];
    var k := FindIndex(g0, StandingNamed(x.nombre)).value;
    RowNamesSnoc(rows);
    GroupedBump(g0, k, x.puntosExtra);
  }

  /** Appending a line with a fresh name keeps the names distinct and adds that name. */
  lemma GroupedNew(g0: seq<ExtraStanding>, s: ExtraStanding)
    requires forall k :: 0 <= k < |g0| ==> g0[k].nombre != s.nombre
    ensures var g := g0 + [s];
      (forall k :: 0 <= k < |g0| ==> g[k] == g0[k]) && g[|g0|] == s &&
      StandingNames(g) == StandingNames(g0) + {s.nombre}
  {
    var g := g0 + [s];
    forall n | n in StandingNames(g) ensures n in StandingNames(g0) + {s.nombre} {
      var i :| 0 <= i < |g| && g[i].nombre == n;
      if i < |g0| {
        assert g0[i].nombre == n;
      }
    }
    assert g[|g0|].nombre in StandingNames(g);
    forall n | n in StandingNames(g0) ensures n in StandingNames(g) {
      var i :| 0 <= i < |g0| && g0[i].nombre == n;
      assert g[i].nombre == n;
    }
  }

  /** Adding to an existing line changes no name. */
  lemma GroupedBump(g0: seq<ExtraStanding>, k: nat, p: int)
    requires k < |g0|
    ensures var g := g0[k := g0[k].(puntosExtra := g0[k].puntosExtra + p)];
      StandingNames(g) == StandingNames(g0) &&
      forall i :: 0 <= i < |g0| ==> g[i].nombre == g0[i].nombre
  {
    var g := g0[k := g0[k].(puntosExtra := g0[k].puntosExtra + p)];
    assert forall i :: 0 <= i < |g0| ==> g[i].nombre == g0[i].nombre;
    forall n | n in StandingNames(g) ensures n in StandingNames(g0) {
      var i :| 0 <= i < |g| && g[i].nombre == n;
      assert g0[i].nombre == n;
    }
    forall n | n in StandingNames(g0) ensures n in StandingNames(g) {
      var i :| 0 <= i < |g0| && g0[i].nombre == n;
      assert g[i].nombre == n;
    }
  }

  /** The `forEach` over the query result, filling the map. */
  method GroupByUser(rows: seq<LedgerRow>) returns (acc: seq<ExtraStanding>)
    ensures acc == Grouped(rows)
  {
    acc := [];
    for i := 0 to |rows|
      invariant acc == Grouped(rows[..i])
    {
      assert rows[..i + 1][..i] == rows[..i];
      var row := rows[i];
      var k := FindIndex(acc, StandingNamed(row.nombre));
      if k.None? {
        acc := acc + [ExtraStanding(row.nombre, TagOf(row.equipo), TeamNameOf(row.equipo), 0)];
        k := Some(|acc| - 1);
      }
      acc := acc[k.value := acc[k.value].(puntosExtra := acc[k.value].puntosExtra + row.puntosExtra)];
    }
    assert rows[..|rows|] == rows;
  }

  function Positive(s: ExtraStanding): bool
  {
    s.puntosExtra > 0
  }

  /** `b.puntos_extra - a.puntos_extra`: higher totals first. */
  function Descending(s: ExtraStanding): int
  {
    -s.puntosExtra
  }

  /** `filter(user => user.puntos_extra > 0).sort((a, b) => b.puntos_extra - a.puntos_extra)`. */
  function ExtraRanking(rows: seq<LedgerRow>): seq<ExtraStanding>
  {
    SortBy(Filter(Grouped(rows), Positive), Descending)
  }

  /**
   * The extra ranking lists exactly the users with a positive total, each
   * once, from the highest total down.
   */
  lemma ExtraRankingSpec(rows: seq<LedgerRow>)
    ensures var r := ExtraRanking(rows);
      && (forall k :: 0 <= k < |r| ==> r[k].puntosExtra > 0 && r[k].puntosExtra == TotalFor(rows, r[k].nombre))
      && (forall i, j :: 0 <= i < j < |r| ==> r[i].puntosExtra >= r[j].puntosExtra)
      && (forall i, j :: 0 <= i < j < |r| ==> r[i].nombre != r[j].nombre)
      && (forall s :: s in Grouped(rows) && s.puntosExtra > 0 ==> s in r)
  {
    RankedTotals(rows);
    RankedDistinct(rows);
    RankedComplete(rows);
  }

  lemma RankedTotals(rows: seq<LedgerRow>)
    ensures var r := ExtraRanking(rows);
      forall k :: 0 <= k < |r| ==> r[k].puntosExtra > 0 && r[k].puntosExtra == TotalFor(rows, r[k].nombre)
  {
    var g := Grouped(rows);
    var f := Filter(g, Positive);
    var r := ExtraRanking(rows);
    GroupedSpec(rows);
    FilterMembers(g, Positive);
    forall k | 0 <= k < |r| ensures r[k].puntosExtra > 0 && r[k].puntosExtra == TotalFor(rows, r[k].nombre) {
      assert r[k] in multiset(r);
      assert r[k] in f;
      var i :| 0 <= i < |g| && g[i] == r[k];
    }
  }

  lemma RankedDistinct(rows: seq<LedgerRow>)
    ensures var r := ExtraRanking(rows);
      forall i, j :: 0 <= i < j < |r| ==> r[i].nombre != r[j].nombre
  {
    var g := Grouped(rows);
    GroupedSpec(rows);
    assert DistinctBy(g, NameOf);
    FilterSubMultiset(g, Positive);
    DistinctKept(g, ExtraRanking(rows), NameOf);
  }

  function NameOf(s: ExtraStanding): string
  {
    s.nombre
  }

  lemma RankedComplete(rows: seq<LedgerRow>)
    ensures forall s :: s in Grouped(rows) && s.puntosExtra > 0 ==> s in ExtraRanking(rows)
  {
    var g := Grouped(rows);
    FilterMembers(g, Positive);
    forall s | s in g && s.puntosExtra > 0 ensures s in ExtraRanking(rows) {
      assert s in multiset(Filter(g, Positive));
    }
  }

  /** `input || currentEvento`. */
  function EventoElegido(input: string, current: string): string
  {
    if input != "" then input else current
  }

  // ---------------------------------------------------------------------
  // Positions
  // ---------------------------------------------------------------------

  function MainKey(u: Usuario): int
  {
    -u.puntosMain
  }

  /** The main ranking's rows: `order("puntos_main", { ascending: false })` over all users. */
  function MainRanking(usuarios: seq<Usuario>): (r: seq<Usuario>)
    ensures multiset(r) == multiset(usuarios)
    ensures forall i, j :: 0 <= i < j < |r| ==> r[i].puntosMain >= r[j].puntosMain
  {
    var r := SortBy(usuarios, MainKey);
    assert forall i, j :: 0 <= i < j < |r| ==> MainKey(r[i]) <= MainKey(r[j]);
    r
  }

  /** The row class of a position: only the podium has one. */
  function PlaceClass(posicion: int): (c: Option<string>)
    ensures c.Some? <==> 1 <= posicion <= 3
  {
    if posicion == 1 then Some("first-place")
    else if posicion == 2 then Some("second-place")
    else if posicion == 3 then Some("third-place")
    else None
  }

  const GoldMedal: char := '\U{1F947}'
  const SilverMedal: char := '\U{1F948}'
  const BronzeMedal: char := '\U{1F949}'
  const Target: char := '\U{1F3AF}'
  const CircusTent: char := '\U{1F3AA}'
  const VideoGame: char := '\U{1F3AE}'

  /** The emoji before a position in the main ranking. */
  function MedalMain(posicion: int): (e: string)
    ensures e != "" <==> 1 <= posicion <= 3
    ensures e != "" ==> |e| == 1 && IsMedal(e[0])
  {
    if posicion == 1 then [GoldMedal]
    else if posicion == 2 then [SilverMedal]
    else if posicion == 3 then [BronzeMedal]
    else ""
  }

  /** The emoji before a position in the extra ranking. */
  function MedalExtra(posicion: int): (e: string)
    ensures e != "" <==> 1 <= posicion <= 3
    ensures e != "" ==> |e| == 1 && IsMedal(e[0])
  {
    if posicion == 1 then [Target]
    else if posicion == 2 then [CircusTent]
    else if posicion == 3 then [VideoGame]
    else ""
  }

  /** The text of the first cell of a ranking row: `${emoji} ${posicion}`, position = index + 1. */
  function PositionCell(medal: string, index: nat): string
  {
    medal + " " + NatToString(index + 1)
  }

  // ---------------------------------------------------------------------
  // The manager
  // ---------------------------------------------------------------------

  class RankingManager {
    var currentEvento: string
    /** The `ranking_extra` table. */
    var rankingExtra: seq<ExtraEntry>

    constructor (ledger: seq<ExtraEntry>)
      ensures currentEvento == DefaultEvento && rankingExtra == ledger
    {
      currentEvento := DefaultEvento;
      rankingExtra := ledger;
    }

    /**
     * `loadRankingExtra()`: the event typed in (or the current one) becomes
     * the current event, and its ranking is computed; None when the store
     * query fails on a missing user.
     */
    method LoadRankingExtra(input: string, usuarios: seq<Usuario>, equipos: seq<Equipo>)
      returns (ranking: Option<seq<ExtraStanding>>)
      modifies this
      ensures currentEvento == EventoElegido(input, old(currentEvento))
      ensures rankingExtra == old(rankingExtra)
      ensures var rows := JoinAll(Filter(rankingExtra, OfEvent(currentEvento)), usuarios, equipos);
        ranking == if rows.None? then None else Some(ExtraRanking(rows.value))
    {
      currentEvento := EventoElegido(input, currentEvento);
      var rows := JoinAll(Filter(rankingExtra, OfEvent(currentEvento)), usuarios, equipos);
      if rows.None? {
        return None;
      }
      var totals := GroupByUser(rows.value);
      return Some(SortBy(Filter(totals, Positive), Descending));
    }

    /**
     * `limpiarRankingExtra()`: at access level 1 or more, once confirmed,
     * every entry of the chosen event is deleted and the ranking reloaded.
     */
    method LimpiarRankingExtra(auth: Auth.AuthManager, input: string, confirmado: bool,
                               usuarios: seq<Usuario>, equipos: seq<Equipo>)
      returns (ok: bool, ranking: Option<seq<ExtraStanding>>)
      modifies this
      ensures ok <==> auth.HasAccess(1) && confirmado
      ensures !ok ==> unchanged(this) && ranking.None?
      ensures ok ==>
        var evento := EventoElegido(input, old(currentEvento));
        && rankingExtra == Filter(old(rankingExtra), NotOfEvent(evento))
        && currentEvento == evento
        && ranking == Some([])
    {
      if !auth.HasAccess(1) || !confirmado {
        return false, None;
      }
      var evento := EventoElegido(input, currentEvento);
      rankingExtra := Filter(rankingExtra, NotOfEvent(evento));
      ClearedEventIsEmpty(old(rankingExtra), evento);
      ranking := LoadRankingExtra(input, usuarios, equipos);
      return true, ranking;
    }
  }

  /** After the delete, the event has no entries left, so its ranking is empty. */
  lemma ClearedEventIsEmpty(ledger: seq<ExtraEntry>, evento: string)
    ensures Filter(Filter(ledger, NotOfEvent(evento)), OfEvent(evento)) == []
    ensures ExtraRanking([]) == []
  {
    var rest := Filter(ledger, NotOfEvent(evento));
    FilterMembers(ledger, NotOfEvent(evento));
    assert forall i :: 0 <= i < |rest| ==> rest[i] in rest;
    FilterNone(rest, OfEvent(evento));
  }

  // ---------------------------------------------------------------------
  // CSV export
  // ---------------------------------------------------------------------

  /** A UTF-16 code unit, the element of a JavaScript string. */
  type Unit = x: int | 0 <= x < 0x1_0000

  predicate IsHigh(u: Unit) { 0xD800 <= u < 0xDC00 }
  predicate IsLow(u: Unit) { 0xDC00 <= u < 0xE000 }

  /** The JavaScript string of a text: characters above U+FFFF become surrogate pairs. */
  function Utf16Char(c: char): (us: seq<Unit>)
    ensures 1 <= |us| <= 2
  {
    var n := c as int;
    if n < 0x1_0000 then [n]
    else [0xD800 + (n - 0x1_0000) / 0x400, 0xDC00 + (n - 0x1_0000) % 0x400]
  }

  function Utf16(s: string): seq<Unit>
  {
    if |s| == 0 then [] else Utf16(s[..|s| - 1]) + Utf16Char(s[|s| - 1])
  }

  /** No lone surrogate: every high unit is followed by a low one, and every low unit follows a high one. */
  predicate WellFormed(us: seq<Unit>)
    decreases |us|
  {
    if |us| == 0 then true
    else if IsHigh(us[0]) then |us| >= 2 && IsLow(us[1]) && WellFormed(us[2..])
    else !IsLow(us[0]) && WellFormed(us[1..])
  }

  lemma {:induction false} WellFormedConcat(a: seq<Unit>, b: seq<Unit>)
    requires WellFormed(a) && WellFormed(b)
    ensures WellFormed(a + b)
    decreases |a|
  {
    if |a| == 0 {
      assert a + b == b;
    } else if IsHigh(a[0]) {
      assert (a + b)[0] == a[0] && (a + b)[1] == a[1];
      assert (a + b)[2..] == a[2..] + b;
      WellFormedConcat(a[2..], b);
    } else {
      assert (a + b)[0] == a[0];
      assert (a + b)[1..] == a[1..] + b;
      WellFormedConcat(a[1..], b);
    }
  }

  /** Every text has a well-formed JavaScript string. */
  lemma {:induction false} Utf16WellFormed(s: string)
    ensures WellFormed(Utf16(s))
  {
    if |s| > 0 {
      Utf16WellFormed(s[..|s| - 1]);
      var c := s[|s| - 1];
      var us := Utf16Char(c);
      if c as int >= 0x1_0000 {
        assert us[2..] == [];
      } else {
        assert us[1..] == [];
      }
      WellFormedConcat(Utf16(s[..|s| - 1]), us);
    }
  }

  /** The six emojis the export removes. */
  predicate IsMedal(c: char)
  {
    c == GoldMedal || c == SilverMedal || c == BronzeMedal || c == Target || c == CircusTent || c == VideoGame
  }

  /**
   * `/[🥇🥈🥉🎯🎪🎮]/g` without the `u` flag is a class of code units: the
   * surrogate halves of the six emojis.
   */
  predicate IsMedalUnit(u: Unit)
  {
    u == 0xD83E || u == 0xDD47 || u == 0xDD48 || u == 0xDD49 ||
    u == 0xD83C || u == 0xDFAF || u == 0xDFAA || u == 0xDFAE
  }

  function KeepUnit(u: Unit): bool { !IsMedalUnit(u) }

  /** The cleaning regular expression as written: each matching code unit is removed on its own. */
  function StripMedalUnits(us: seq<Unit>): (r: seq<Unit>)
    ensures |r| <= |us|
    ensures forall i :: 0 <= i < |r| ==> !IsMedalUnit(r[i])
  {
    var r := Filter(us, KeepUnit);
    FilterMembers(us, KeepUnit);
    assert forall i :: 0 <= i < |r| ==> r[i] in r;
    r
  }

  const Trophy: char := '\U{1F3C6}'

  /**
   * As written, a cell holding any other emoji whose high surrogate is one
   * of the two above (here U+1F3C6, a trophy) loses that half and exports a
   * lone low surrogate.
   */
  lemma TrophyLosesHalf()
    ensures Utf16([Trophy]) == [0xD83C, 0xDFC6]
    ensures StripMedalUnits(Utf16([Trophy])) == [0xDFC6]
    ensures !WellFormed(StripMedalUnits(Utf16([Trophy])))
  {
    assert [Trophy][..0] == [];
    var us: seq<Unit> := [0xD83C, 0xDFC6];
    assert us[..1] == [0xD83C];
    assert us[..1][..0] == [];
  }

  function KeepChar(c: char): bool { !IsMedal(c) }

  /** The intended cleaning: the six emojis are removed as whole characters. */
  function StripMedals(s: string): (r: string)
    ensures |r| <= |s|
    ensures forall i :: 0 <= i < |r| ==> !IsMedal(r[i])
  {
    var r := Filter(s, KeepChar);
    FilterMembers(s, KeepChar);
    assert forall i :: 0 <= i < |r| ==> r[i] in r;
    r
  }

  /** The intended cleaning leaves no medal, never splits a character, and is idempotent. */
  lemma StripMedalsSpec(s: string)
    ensures forall i :: 0 <= i < |StripMedals(s)| ==> !IsMedal(StripMedals(s)[i])
    ensures WellFormed(Utf16(StripMedals(s)))
    ensures StripMedals(StripMedals(s)) == StripMedals(s)
  {
    var r := StripMedals(s);
    FilterMembers(s, KeepChar);
    assert forall i :: 0 <= i < |r| ==> r[i] in r;
    Utf16WellFormed(r);
    FilterAll(r, KeepChar);
  }

  /**
   * Both cleanings agree on every text whose characters above U+FFFF are
   * all among the six emojis.
   */
  lemma {:induction false} CleaningsAgree(s: string)
    requires forall i :: 0 <= i < |s| ==> s[i] as int < 0x1_0000 || IsMedal(s[i])
    ensures StripMedalUnits(Utf16(s)) == Utf16(StripMedals(s))
  {
    if |s| > 0 {
      var init, c := s[..|s| - 1], s[|s| - 1];
      assert forall i :: 0 <= i < |init| ==> init[i] == s[i];
      CleaningsAgree(init);
      var t := StripMedals(init);
      FilterConcat(Utf16(init), Utf16Char(c), KeepUnit);
      assert StripMedalUnits(Utf16(s)) == Utf16(t) + StripMedalUnits(Utf16Char(c));
      if IsMedal(c) {
        MedalVanishes(c);
        assert StripMedals(s) == t;
      } else {
        BmpKept(c);
        assert StripMedals(s) == t + [c];
        Utf16Snoc(t, c);
      }
    }
  }

  lemma Utf16Snoc(t: string, c: char)
    ensures Utf16(t + [c]) == Utf16(t) + Utf16Char(c)
  {
    assert (t + [c])[..|t|] == t;
  }

  /** Each medal is two code units, both removed by the class. */
  lemma MedalVanishes(c: char)
    requires IsMedal(c)
    ensures StripMedalUnits(Utf16Char(c)) == []
  {
    var us := Utf16Char(c);
    assert |us| == 2 && IsMedalUnit(us[0]) && IsMedalUnit(us[1]);
    FilterNone(us, KeepUnit);
  }

  /** A character below U+10000 is one code unit, never a surrogate, so the class keeps it. */
  lemma BmpKept(c: char)
    requires c as int < 0x1_0000
    ensures StripMedalUnits(Utf16Char(c)) == Utf16Char(c)
  {
    var us := Utf16Char(c);
    assert us == [c as int];
    assert KeepUnit(us[0]);
    FilterAll(us, KeepUnit);
  }

  /** The codes of JavaScript's white space and line terminators, which `trim` removes. */
  predicate IsSpaceCode(n: int)
  {
    n == 9 || n == 10 || n == 11 || n == 12 || n == 13 || n == 32 || n == 0xA0 || n == 0x1680 ||
    (0x2000 <= n <= 0x200A) || n == 0x2028 || n == 0x2029 || n == 0x202F || n == 0x205F ||
    n == 0x3000 || n == 0xFEFF
  }

  predicate IsJsSpace(c: char)
  {
    IsSpaceCode(c as int)
  }

  function TrimStart(s: string): (r: string)
    ensures |r| <= |s| && r == s[|s| - |r|..]
    ensures r == "" || !IsJsSpace(r[0])
    ensures forall i :: 0 <= i < |s| - |r| ==> IsJsSpace(s[i])
  {
    if |s| > 0 && IsJsSpace(s[0]) then TrimStart(s[1..]) else s
  }

  function TrimEnd(s: string): (r: string)
    ensures |r| <= |s| && r == s[..|r|]
    ensures r == "" || !IsJsSpace(r[|r| - 1])
    ensures forall i :: |r| <= i < |s| ==> IsJsSpace(s[i])
  {
    if |s| > 0 && IsJsSpace(s[|s| - 1]) then TrimEnd(s[..|s| - 1]) else s
  }

  /** `String.prototype.trim`: the text without leading or trailing white space. */
  function JsTrim(s: string): (r: string)
    ensures r == "" || (!IsJsSpace(r[0]) && !IsJsSpace(r[|r| - 1]))
  {
    var t := TrimStart(s);
    var r := TrimEnd(t);
    assert r != "" ==> r[0] == t[0];
    r
  }

  /** Trimming a text that has no surrounding white space leaves it alone. */
  lemma TrimNoSpace(s: string)
    requires s == "" || (!IsJsSpace(s[0]) && !IsJsSpace(s[|s| - 1]))
    ensures JsTrim(s) == s
  {
  }

  /** `trim` as the engine runs it, on the code units of the string. */
  function TrimStartUnits(us: seq<Unit>): (r: seq<Unit>)
    ensures |r| <= |us| && r == us[|us| - |r|..]
    ensures r == [] || !IsSpaceCode(r[0])
    ensures forall i :: 0 <= i < |us| - |r| ==> IsSpaceCode(us[i])
  {
    if |us| > 0 && IsSpaceCode(us[0]) then TrimStartUnits(us[1..]) else us
  }

  function TrimEndUnits(us: seq<Unit>): (r: seq<Unit>)
    ensures |r| <= |us| && r == us[..|r|]
    ensures r == [] || !IsSpaceCode(r[|r| - 1])
    ensures forall i :: |r| <= i < |us| ==> IsSpaceCode(us[i])
  {
    if |us| > 0 && IsSpaceCode(us[|us| - 1]) then TrimEndUnits(us[..|us| - 1]) else us
  }

  function TrimUnits(us: seq<Unit>): seq<Unit>
  {
    TrimEndUnits(TrimStartUnits(us))
  }

  /** The cell cleaning as written: the unit class applied, then `trim`. */
  function CleanUnits(us: seq<Unit>): seq<Unit>
  {
    TrimUnits(StripMedalUnits(us))
  }

  function QuoteUnits(cell: seq<Unit>): seq<Unit>
  {
    [0x22] + CleanUnits(cell) + [0x22]
  }

  /** `Array.prototype.join(sep)` on code-unit strings. */
  function JoinUnits(pieces: seq<seq<Unit>>, sep: Unit): seq<Unit>
  {
    if |pieces| == 0 then []
    else if |pieces| == 1 then pieces[0]
    else pieces[0] + [sep] + JoinUnits(pieces[1..], sep)
  }

  function QuotedCellUnits(cells: seq<seq<Unit>>): seq<seq<Unit>>
  {
    seq(|cells|, j requires 0 <= j < |cells| => QuoteUnits(cells[j]))
  }

  function RowUnits(cells: seq<seq<Unit>>): seq<Unit>
  {
    JoinUnits(QuotedCellUnits(cells), 0x2C)
  }

  function LineUnits(table: seq<seq<seq<Unit>>>): seq<seq<Unit>>
  {
    seq(|table|, i requires 0 <= i < |table| => RowUnits(table[i]))
  }

  /** The exported string as the engine builds it, code unit by code unit. */
  function CsvUnits(table: seq<seq<seq<Unit>>>): seq<Unit>
  {
    JoinUnits(LineUnits(table), 0x0A)
  }

  /** The table's cell texts as JavaScript strings. */
  function UnitTable(table: seq<seq<string>>): seq<seq<seq<Unit>>>
  {
    seq(|table|, i requires 0 <= i < |table| =>
      seq(|table[i]|, j requires 0 <= j < |table[i]| => Utf16(table[i][j])))
  }

  /** One exported cell: cleaned, trimmed and wrapped in double quotes. */
  function Clean(cell: string): string
  {
    JsTrim(StripMedals(cell))
  }

  function Quote(cell: string): string
  {
    "\"" + Clean(cell) + "\""
  }

  /** `Array.prototype.join(sep)` for a one-character separator. */
  function Join(pieces: seq<string>, sep: char): string
  {
    if |pieces| == 0 then ""
    else if |pieces| == 1 then pieces[0]
    else pieces[0] + [sep] + Join(pieces[1..], sep)
  }

  function IsChar(c: char): char -> bool
  {
    (x: char) => x == c
  }

  /** `String.prototype.split(sep)` for a one-character separator. */
  function Split(s: string, sep: char): (r: seq<string>)
    ensures |r| >= 1
    decreases |s|
  {
    match FindIndex(s, IsChar(sep))
    case None => [s]
    case Some(k) => [s[..k]] + Split(s[k + 1..], sep)
  }

  function QuotedCells(cells: seq<string>): seq<string>
  {
    seq(|cells|, j requires 0 <= j < |cells| => Quote(cells[j]))
  }

  function RowText(cells: seq<string>): string
  {
    Join(QuotedCells(cells), ',')
  }

  function Lines(table: seq<seq<string>>): seq<string>
  {
    seq(|table|, i requires 0 <= i < |table| => RowText(table[i]))
  }

  /** The exported file: quoted cells joined by commas, rows joined by newlines. */
  function CsvText(table: seq<seq<string>>): string
  {
    Join(Lines(table), '\n')
  }

  /** The inner loop of `exportRanking`: one table row's cells, cleaned and quoted. */
  method ExportRow(cols: seq<seq<Unit>>) returns (row: seq<seq<Unit>>)
    ensures row == QuotedCellUnits(cols)
  {
    row := [];
    for j := 0 to |cols|
      invariant |row| == j
      invariant forall k :: 0 <= k < j ==> row[k] == QuoteUnits(cols[k])
    {
      var text := TrimUnits(StripMedalUnits(cols[j]));
      row := row + [[0x22] + text + [0x22]];
    }
  }

  /**
   * The outer loop of `exportRanking` filling `csv`; each cell is the
   * JavaScript string its `innerText` returns.
   */
  method ExportCsv(table: seq<seq<seq<Unit>>>) returns (csvString: seq<Unit>)
    ensures csvString == CsvUnits(table)
  {
    var csv: seq<seq<Unit>> := [];
    for i := 0 to |table|
      invariant |csv| == i
      invariant forall k :: 0 <= k < i ==> csv[k] == RowUnits(table[k])
    {
      var row := ExportRow(table[i]);
      csv := csv + [JoinUnits(row, 0x2C)];
    }
    assert csv == LineUnits(table);
    csvString := JoinUnits(csv, 0x0A);
  }

  lemma {:induction false} Utf16Concat(a: string, b: string)
    ensures Utf16(a + b) == Utf16(a) + Utf16(b)
    decreases |b|
  {
    if |b| == 0 {
      assert a + b == a;
    } else {
      var ab := a + b;
      assert ab[..|ab| - 1] == a + b[..|b| - 1];
      assert ab[|ab| - 1] == b[|b| - 1];
      Utf16Concat(a, b[..|b| - 1]);
    }
  }

  lemma Utf16Single(c: char)
    ensures Utf16([c]) == Utf16Char(c)
  {
    assert [c][..0] == [];
  }

  lemma Utf16Front(s: string)
    requires |s| > 0
    ensures Utf16(s) == Utf16Char(s[0]) + Utf16(s[1..])
  {
    var c := s[0];
    assert s == [c] + s[1..];
    Utf16Concat([c], s[1..]);
    Utf16Single(c);
  }

  /** No surrogate half and no character above U+FFFF is white space. */
  lemma SpaceIsBmp(n: int)
    requires IsSpaceCode(n)
    ensures !(0xD800 <= n < 0xE000)
  {
  }

  /** Trimming the front of the code units is trimming the front of the text. */
  lemma {:induction false} TrimStartAgree(s: string)
    ensures TrimStartUnits(Utf16(s)) == Utf16(TrimStart(s))
    decreases |s|
  {
    if |s| > 0 {
      var us := Utf16(s);
      Utf16Front(s);
      if IsJsSpace(s[0]) {
        SpaceIsBmp(s[0] as int);
        assert us[1..] == Utf16(s[1..]);
        TrimStartAgree(s[1..]);
      } else {
        assert !IsSpaceCode(us[0]);
      }
    }
  }

  /** Trimming the end of the code units is trimming the end of the text. */
  lemma {:induction false} TrimEndAgree(s: string)
    ensures TrimEndUnits(Utf16(s)) == Utf16(TrimEnd(s))
    decreases |s|
  {
    if |s| > 0 {
      var us := Utf16(s);
      var c := s[|s| - 1];
      if IsJsSpace(c) {
        SpaceIsBmp(c as int);
        assert us == Utf16(s[..|s| - 1]) + [c as int];
        assert us[..|us| - 1] == Utf16(s[..|s| - 1]);
        TrimEndAgree(s[..|s| - 1]);
      } else {
        assert !IsSpaceCode(us[|us| - 1]);
      }
    }
  }

  lemma TrimAgree(s: string)
    ensures TrimUnits(Utf16(s)) == Utf16(JsTrim(s))
  {
    TrimStartAgree(s);
    TrimEndAgree(TrimStart(s));
  }

  /** When the cleanings agree, the cell exported as written is the intended cell. */
  lemma QuoteAgree(cell: string)
    requires forall k :: 0 <= k < |cell| ==> cell[k] as int < 0x1_0000 || IsMedal(cell[k])
    ensures QuoteUnits(Utf16(cell)) == Utf16(Quote(cell))
  {
    CleaningsAgree(cell);
    TrimAgree(StripMedals(cell));
    var q: string := "\"";
    assert Utf16(q) == [0x22] by {
      assert q[..0] == [];
    }
    Utf16Concat(q, Clean(cell));
    Utf16Concat(q + Clean(cell), q);
  }

  lemma {:induction false} JoinAgree(us: seq<seq<Unit>>, pieces: seq<string>, sepU: Unit, sep: char)
    requires |us| == |pieces|
    requires forall i :: 0 <= i < |us| ==> us[i] == Utf16(pieces[i])
    requires Utf16([sep]) == [sepU]
    ensures JoinUnits(us, sepU) == Utf16(Join(pieces, sep))
  {
    if |us| > 1 {
      JoinAgree(us[1..], pieces[1..], sepU, sep);
      Utf16Concat(pieces[0], [sep]);
      Utf16Concat(pieces[0] + [sep], Join(pieces[1..], sep));
    }
  }

  /**
   * The export as written produces exactly the JavaScript string of the
   * intended export whenever every character above U+FFFF in the table is
   * one of the six emojis.
   */
  lemma ExportAgrees(table: seq<seq<string>>)
    requires forall i, j, k :: 0 <= i < |table| && 0 <= j < |table[i]| && 0 <= k < |table[i][j]| ==>
      table[i][j][k] as int < 0x1_0000 || IsMedal(table[i][j][k])
    ensures CsvUnits(UnitTable(table)) == Utf16(CsvText(table))
  {
    var comma: string := ",";
    var newline: string := "\n";
    assert Utf16(comma) == [0x2C] by { assert comma[..0] == []; }
    assert Utf16(newline) == [0x0A] by { assert newline[..0] == []; }
    var rows := LineUnits(UnitTable(table));
    forall i | 0 <= i < |table| ensures rows[i] == Utf16(Lines(table)[i]) {
      var cells := table[i];
      var qs := QuotedCellUnits(UnitTable(table)[i]);
      forall j | 0 <= j < |cells| ensures qs[j] == Utf16(QuotedCells(cells)[j]) {
        QuoteAgree(cells[j]);
      }
      JoinAgree(qs, QuotedCells(cells), 0x2C, ',');
    }
    JoinAgree(rows, Lines(table), 0x0A, '\n');
  }

  /** As written, a cell holding the trophy exports a lone low surrogate. */
  lemma TrophyCellExport()
    ensures CsvUnits(UnitTable([[[Trophy]]])) == [0x22, 0xDFC6, 0x22]
    ensures !WellFormed(CsvUnits(UnitTable([[[Trophy]]])))
  {
    var t: seq<seq<seq<Unit>>> := [[[0xD83C, 0xDFC6]]];
    var table: seq<seq<string>> := [[[Trophy]]];
    assert UnitTable(table) == t by {
      TrophyLosesHalf();
      assert UnitTable(table)[0][0] == Utf16(table[0][0]);
      assert UnitTable(table)[0] == t[0];
    }
    TrophyUnitsExport(t);
  }

  lemma TrophyUnitsExport(t: seq<seq<seq<Unit>>>)
    requires t == [[[0xD83C, 0xDFC6]]]
    ensures CsvUnits(t) == [0x22, 0xDFC6, 0x22]
    ensures !WellFormed(CsvUnits(t))
  {
    TrophyUnitsClean();
    assert QuotedCellUnits(t[0]) == [[0x22, 0xDFC6, 0x22]];
    assert LineUnits(t) == [[0x22, 0xDFC6, 0x22]];
    var out: seq<Unit> := [0x22, 0xDFC6, 0x22];
    assert out[1..] == [0xDFC6, 0x22];
  }

  lemma TrophyUnitsClean()
    ensures QuoteUnits([0xD83C, 0xDFC6]) == [0x22, 0xDFC6, 0x22]
  {
    TrophyUnitsStrip();
    var us: seq<Unit> := [0xDFC6];
    assert !IsSpaceCode(us[0]);
    assert TrimStartUnits(us) == us;
    assert TrimEndUnits(us) == us;
  }

  lemma TrophyUnitsStrip()
    ensures StripMedalUnits([0xD83C, 0xDFC6]) == [0xDFC6]
  {
    var cell: seq<Unit> := [0xD83C, 0xDFC6];
    assert cell[..1] == [0xD83C];
    assert cell[..1][..0] == [];
  }

  /** The first separator of `a + [sep] + b` is the one after `a` when `a` has none. */
  lemma FirstSeparator(a: string, b: string, sep: char)
    requires sep !in a
    ensures FindIndex(a + [sep] + b, IsChar(sep)) == Some(|a|)
  {
    var s := a + [sep] + b;
    assert IsChar(sep)(s[|a|]);
    forall j | 0 <= j < |a| ensures !IsChar(sep)(s[j]) {
      assert s[j] == a[j] && a[j] in a;
    }
  }

  lemma {:induction false} NotInJoin(pieces: seq<string>, sep: char, c: char)
    requires c != sep && forall i :: 0 <= i < |pieces| ==> c !in pieces[i]
    ensures c !in Join(pieces, sep)
  {
    if |pieces| > 1 {
      NotInJoin(pieces[1..], sep, c);
    }
  }

  /** Splitting a join restores the pieces when none of them holds the separator. */
  lemma {:induction false} SplitJoin(pieces: seq<string>, sep: char)
    requires |pieces| >= 1
    requires forall i :: 0 <= i < |pieces| ==> sep !in pieces[i]
    ensures Split(Join(pieces, sep), sep) == pieces
  {
    if |pieces| == 1 {
      forall j | 0 <= j < |pieces[0]| ensures !IsChar(sep)(pieces[0][j]) {
        assert pieces[0][j] in pieces[0];
      }
    } else {
      var a, b := pieces[0], Join(pieces[1..], sep);
      FirstSeparator(a, b, sep);
      var s := a + [sep] + b;
      assert s[..|a|] == a && s[|a| + 1..] == b;
      SplitJoin(pieces[1..], sep);
      assert pieces == [a] + pieces[1..];
    }
  }

  /** Reading a field back: its surrounding quotes removed. */
  function Unquote(f: string): string
  {
    if |f| >= 2 then f[1..|f| - 1] else f
  }

  function CleanTable(table: seq<seq<string>>): seq<seq<string>>
  {
    seq(|table|, i requires 0 <= i < |table| =>
      seq(|table[i]|, j requires 0 <= j < |table[i]| => Clean(table[i][j])))
  }

  function ParseLine(line: string): seq<string>
  {
    var fs := Split(line, ',');
    seq(|fs|, j requires 0 <= j < |fs| => Unquote(fs[j]))
  }

  /** A reader for the exported text: split lines, split fields, unquote. */
  function ParseCsv(csv: string): seq<seq<string>>
  {
    var ls := Split(csv, '\n');
    seq(|ls|, i requires 0 <= i < |ls| => ParseLine(ls[i]))
  }

  /** One exported line reads back as its cleaned cells. */
  lemma LineRoundTrip(cells: seq<string>)
    requires |cells| >= 1
    requires forall j :: 0 <= j < |cells| ==> ',' !in Clean(cells[j])
    ensures ParseLine(RowText(cells)) == seq(|cells|, j requires 0 <= j < |cells| => Clean(cells[j]))
  {
    var q := QuotedCells(cells);
    assert forall j :: 0 <= j < |q| ==> ',' !in q[j];
    SplitJoin(q, ',');
  }

  /**
   * The export loses nothing but what the cleaning removes: when no cleaned
   * cell holds a comma or a newline, reading the file back gives the
   * cleaned table.
   */
  lemma CsvRoundTrip(table: seq<seq<string>>)
    requires |table| >= 1
    requires forall i :: 0 <= i < |table| ==> |table[i]| >= 1
    requires forall i, j :: 0 <= i < |table| && 0 <= j < |table[i]| ==>
      ',' !in Clean(table[i][j]) && '\n' !in Clean(table[i][j])
    ensures ParseCsv(CsvText(table)) == CleanTable(table)
  {
    var ls := Lines(table);
    forall i | 0 <= i < |ls| ensures '\n' !in ls[i] {
      var q := QuotedCells(table[i]);
      assert forall j :: 0 <= j < |q| ==> '\n' !in q[j];
      NotInJoin(q, ',', '\n');
    }
    SplitJoin(ls, '\n');
    forall i | 0 <= i < |table| ensures ParseLine(ls[i]) == CleanTable(table)[i] {
      LineRoundTrip(table[i]);
    }
  }

  /**
   * The position cell of a podium row exports as the bare number: the
   * medal and the space before the number are cleaned away.
   */
  lemma PositionCellExport(medal: string, index: nat)
    requires medal == "" || (|medal| == 1 && IsMedal(medal[0]))
    ensures Clean(PositionCell(medal, index)) == NatToString(index + 1)
  {
    var digits := NatToString(index + 1);
    StripPosition(medal, digits);
    TrimDigits(digits);
  }

  lemma StripPosition(medal: string, digits: string)
    requires medal == "" || (|medal| == 1 && IsMedal(medal[0]))
    requires forall i :: 0 <= i < |digits| ==> '0' <= digits[i] <= '9'
    ensures StripMedals(medal + " " + digits) == " " + digits
  {
    var rest := " " + digits;
    assert medal + " " + digits == medal + rest;
    FilterConcat(medal, rest, KeepChar);
    FilterNone(medal, KeepChar);
    forall i | 0 <= i < |rest| ensures KeepChar(rest[i]) {
      if i > 0 {
        assert rest[i] == digits[i - 1];
        DigitNotSpace(rest[i]);
      }
    }
    FilterAll(rest, KeepChar);
  }

  /** A decimal digit is neither white space nor one of the podium emojis. */
  lemma DigitNotSpace(c: char)
    requires '0' <= c <= '9'
    ensures !IsJsSpace(c) && KeepChar(c)
  {
  }

  lemma TrimDigits(digits: string)
    requires |digits| >= 1
    requires forall i :: 0 <= i < |digits| ==> '0' <= digits[i] <= '9'
    ensures JsTrim(" " + digits) == digits
  {
    var t := " " + digits;
    assert t[1..] == digits;
    DigitNotSpace(digits[0]);
    DigitNotSpace(digits[|digits| - 1]);
    assert TrimStart(digits) == digits;
    assert TrimStart(t) == digits;
    assert TrimEnd(digits) == digits;
  }
}
