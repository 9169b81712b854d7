/**
 * The value-level rules of the single-elimination bracket (js/brackets.js):
 * how big the bracket is, in which order participants are placed, how
 * round 1 and every later round are paired, what a match record holds when
 * it is created, how a recorded score is judged against the points
 * threshold, and how a finished match moves a participant's statistics and
 * the extra-ranking ledger. The manager that owns the tables is in
 * module Brackets.
 */
module BracketDraw {
  import opened Schema
  import opened Sorting

  // ---------------------------------------------------------------------
  // Sizing: Math.pow(2, Math.ceil(Math.log2(Math.max(2, n)))), over integers
  // ---------------------------------------------------------------------

  function Pow2(k: nat): (p: nat)
    ensures p >= 1
  {
    if k == 0 then 1 else 2 * Pow2(k - 1)
  }

  ghost predicate IsPowerOfTwo(x: int)
  {
    exists k: nat :: Pow2(k) == x
  }

  lemma {:induction false} Pow2Monotone(a: nat, b: nat)
    requires a <= b
    ensures Pow2(a) <= Pow2(b)
  {
    if a < b {
      Pow2Monotone(a, b - 1);
    }
  }

  /** The first exponent from `k` upwards whose power of two reaches `m`. */
  function CeilLog2From(m: int, k: nat): (e: nat)
    decreases m - Pow2(k)
    ensures e >= k && Pow2(e) >= m
    ensures e > k ==> Pow2(e - 1) < m
  {
    if Pow2(k) >= m then k else CeilLog2From(m, k + 1)
  }

  /** `Math.max(2, n)`. */
  function AtLeastTwo(n: nat): nat
  {
    if n < 2 then 2 else n
  }

  /** The bracket size for `n` participants: a power of two, at least `max(2, n)`, and the least such. */
  function BracketSize(n: nat): (size: nat)
    ensures IsPowerOfTwo(size)
    ensures size >= AtLeastTwo(n)
    ensures size / 2 < AtLeastTwo(n)
  {
    var e := CeilLog2From(AtLeastTwo(n), 0);
    assert Pow2(e) / 2 == Pow2(e - 1);
    Pow2(e)
  }

  /** No power of two that holds `max(2, n)` players is smaller than the bracket size. */
  lemma BracketSizeLeast(n: nat, k: nat)
    requires Pow2(k) >= AtLeastTwo(n)
    ensures BracketSize(n) <= Pow2(k)
  {
    var size := BracketSize(n);
    var e: nat :| Pow2(e) == size;
    if k < e {
      Pow2Monotone(k, e - 1);
    } else {
      Pow2Monotone(e, k);
    }
  }

  /** The number of walkovers: `bracketSize - cantidad`; below `n` once there are two players. */
  function Byes(n: nat): (b: nat)
    ensures b + n == BracketSize(n)
    ensures n >= 2 ==> b < n
  {
    BracketSize(n) - n
  }

  /** Nobody gets a walkover exactly when the participant count is itself a power of two. */
  lemma ByesZeroIffPowerOfTwo(n: nat)
    requires n >= 2
    ensures Byes(n) == 0 <==> IsPowerOfTwo(n)
  {
    if IsPowerOfTwo(n) {
      var k: nat :| Pow2(k) == n;
      BracketSizeLeast(n, k);
    }
  }

  lemma PowerOfTwoEven(x: int)
    requires IsPowerOfTwo(x) && x >= 2
    ensures x % 2 == 0
  {
    var k: nat :| Pow2(k) == x;
    assert k > 0;
  }

  // ---------------------------------------------------------------------
  // Participants and the round-1 order
  // ---------------------------------------------------------------------

  /** A row of `bracket_participantes`; `semilla` is None when the form left it empty. */
  datatype Participant = Participant(
    id: Id,
    bracketId: Id,
    usuarioId: Id,
    semilla: Option<int>,
    victorias: int,
    derrotas: int,
    puntosAcumulados: int,
    activo: bool)

  /** `p.semilla` is truthy: present and not 0. */
  predicate Seeded(p: Participant)
  {
    p.semilla.Some? && p.semilla.value != 0
  }

  predicate Unseeded(p: Participant)
  {
    !Seeded(p)
  }

  function SeedKey(p: Participant): int
  {
    if p.semilla.Some? then p.semilla.value else 0
  }

  /**
   * `[...conSemilla.sort((a, b) => a.semilla - b.semilla), ...sinSemilla]`:
   * the seeded participants first, ascending by seed, then the unseeded ones
   * in their list order; nobody is added or lost.
   */
  function SeedOrder(ps: seq<Participant>): (order: seq<Participant>)
    ensures |order| == |ps|
    ensures multiset(order) == multiset(ps)
  {
    FilterComplement(ps, Seeded, Unseeded);
    assert |multiset(Filter(ps, Seeded)) + multiset(Filter(ps, Unseeded))| == |ps|;
    SortBy(Filter(ps, Seeded), SeedKey) + Filter(ps, Unseeded)
  }

  lemma SeededPart(ps: seq<Participant>)
    ensures |SortBy(Filter(ps, Seeded), SeedKey)| == CountIf(ps, Seeded)
    ensures forall x :: x in SortBy(Filter(ps, Seeded), SeedKey) ==> Seeded(x)
    ensures SeedOrder(ps) == SortBy(Filter(ps, Seeded), SeedKey) + Filter(ps, Unseeded)
  {
    var f := Filter(ps, Seeded);
    FilterLength(ps, Seeded);
    FilterMembers(ps, Seeded);
    forall x | x in SortBy(f, SeedKey) ensures Seeded(x) {
      assert x in multiset(SortBy(f, SeedKey));
      assert x in multiset(f);
    }
  }

  /**
   * The round-1 order in detail: exactly its first `CountIf(ps, Seeded)`
   * places hold seeded participants, and the rest is the unseeded
   * participants in list order.
   */
  lemma SeedOrderShape(ps: seq<Participant>)
    ensures CountIf(ps, Seeded) <= |SeedOrder(ps)|
    ensures forall i :: 0 <= i < |ps| ==> (Seeded(SeedOrder(ps)[i]) <==> i < CountIf(ps, Seeded))
    ensures SeedOrder(ps)[CountIf(ps, Seeded)..] == Filter(ps, Unseeded)
  {
    SeededPart(ps);
    FilterMembers(ps, Unseeded);
    ConcatSplit(SortBy(Filter(ps, Seeded), SeedKey), Filter(ps, Unseeded), Seeded);
  }

  /** The seeded places ascend by seed. */
  lemma SeedOrderAscending(ps: seq<Participant>)
    ensures CountIf(ps, Seeded) <= |SeedOrder(ps)|
    ensures forall i, j :: 0 <= i < j < CountIf(ps, Seeded) ==> SeedKey(SeedOrder(ps)[i]) <= SeedKey(SeedOrder(ps)[j])
  {
    SeededPart(ps);
    var seeded := SortBy(Filter(ps, Seeded), SeedKey);
    var order := SeedOrder(ps);
    assert forall i :: 0 <= i < |seeded| ==> order[i] == seeded[i];
  }

  /** The `usuario_id` of each participant, in order. */
  function UserIds(ps: seq<Participant>): (ids: seq<Id>)
    ensures |ids| == |ps|
    ensures forall i :: 0 <= i < |ps| ==> ids[i] == ps[i].usuarioId
  {
    seq(|ps|, i requires 0 <= i < |ps| => ps[i].usuarioId)
  }

  // ---------------------------------------------------------------------
  // Pairings
  // ---------------------------------------------------------------------

  /** One match to be created: `usuario2` None is a walkover. */
  datatype Pairing = Pairing(usuario1: Id, usuario2: Option<Id>)

  function PairPlayers(p: Pairing): seq<Id>
  {
    if p.usuario2.Some? then [p.usuario1, p.usuario2.value] else [p.usuario1]
  }

  /** Everyone placed in a list of pairings, match by match. */
  function Players(ps: seq<Pairing>): seq<Id>
  {
    if |ps| == 0 then [] else PairPlayers(ps[0]) + Players(ps[1..])
  }

  lemma {:induction false} PlayersAppend(a: seq<Pairing>, b: seq<Pairing>)
    ensures Players(a + b) == Players(a) + Players(b)
  {
    if |a| > 0 {
      assert (a + b)[0] == a[0];
      assert (a + b)[1..] == a[1..] + b;
      PlayersAppend(a[1..], b);
      calc {
        Players(a + b);
        PairPlayers(a[0]) + Players(a[1..] + b);
        PairPlayers(a[0]) + (Players(a[1..]) + Players(b));
        (PairPlayers(a[0]) + Players(a[1..])) + Players(b);
      }
    } else {
      assert a + b == b;
    }
  }

  /** One walkover for each of `xs`, in order. */
  function ByePairs(xs: seq<Id>): (r: seq<Pairing>)
    ensures |r| == |xs|
    ensures forall i :: 0 <= i < |xs| ==> r[i] == Pairing(xs[i], None)
  {
    if |xs| == 0 then [] else [Pairing(xs[0], None)] + ByePairs(xs[1..])
  }

  lemma {:induction false} ByePairsPlayers(xs: seq<Id>)
    ensures Players(ByePairs(xs)) == xs
  {
    if |xs| > 0 {
      ByePairsPlayers(xs[1..]);
      assert ByePairs(xs)[1..] == ByePairs(xs[1..]);
    }
  }

  /**
   * Outermost-inward pairing: position i meets position len-1-i for
   * floor(len/2) matches; with an odd count the middle one gets a walkover.
   */
  function InwardPairs(rest: seq<Id>): (r: seq<Pairing>)
    ensures |r| == (|rest| + 1) / 2
  {
    seq(|rest| / 2, i requires 0 <= i < |rest| / 2 => Pairing(rest[i], Some(rest[|rest| - 1 - i])))
      + (if |rest| % 2 == 1 then [Pairing(rest[|rest| / 2], None)] else [])
  }

  /** Taking off the outermost pair leaves the pairing of the inner players. */
  lemma InwardPairsPeel(rest: seq<Id>)
    requires |rest| >= 2
    ensures InwardPairs(rest) == [Pairing(rest[0], Some(rest[|rest| - 1]))] + InwardPairs(rest[1..|rest| - 1])
  {
    var inner := rest[1..|rest| - 1];
    var r := InwardPairs(rest);
    var t := [Pairing(rest[0], Some(rest[|rest| - 1]))] + InwardPairs(inner);
    assert |r| == |t|;
    forall i | 0 <= i < |r| ensures r[i] == t[i] {
      if i > 0 {
        assert t[i] == InwardPairs(inner)[i - 1];
      }
    }
  }

  /** The players of the inward pairing, match by match. */
  function InwardOrder(rest: seq<Id>): seq<Id>
  {
    if |rest| < 2 then rest else [rest[0], rest[|rest| - 1]] + InwardOrder(rest[1..|rest| - 1])
  }

  lemma PlayersCons(p: Pairing, t: seq<Pairing>)
    ensures Players([p] + t) == PairPlayers(p) + Players(t)
  {
    assert ([p] + t)[0] == p;
    assert ([p] + t)[1..] == t;
  }

  lemma {:induction false} InwardPairsOrder(rest: seq<Id>)
    ensures Players(InwardPairs(rest)) == InwardOrder(rest)
  {
    if |rest| >= 2 {
      InwardPairsPeel(rest);
      InwardPairsOrder(rest[1..|rest| - 1]);
      PlayersCons(Pairing(rest[0], Some(rest[|rest| - 1])), InwardPairs(rest[1..|rest| - 1]));
    } else if |rest| == 1 {
      assert InwardPairs(rest) == [Pairing(rest[0], None)];
      PlayersCons(Pairing(rest[0], None), []);
    } else {
      assert InwardPairs(rest) == [];
    }
  }

  lemma SplitEnds(rest: seq<Id>)
    requires |rest| >= 2
    ensures multiset(rest) == multiset{rest[0], rest[|rest| - 1]} + multiset(rest[1..|rest| - 1])
  {
    assert rest == [rest[0]] + rest[1..|rest| - 1] + [rest[|rest| - 1]];
  }

  lemma {:induction false} InwardOrderPerm(rest: seq<Id>)
    ensures multiset(InwardOrder(rest)) == multiset(rest)
  {
    if |rest| >= 2 {
      InwardOrderPerm(rest[1..|rest| - 1]);
      SplitEnds(rest);
      assert InwardOrder(rest) == [rest[0], rest[|rest| - 1]] + InwardOrder(rest[1..|rest| - 1]);
    }
  }

  /** Everyone left after the walkovers is paired, exactly as often as they occur. */
  lemma InwardPairsPlayers(rest: seq<Id>)
    ensures multiset(Players(InwardPairs(rest))) == multiset(rest)
  {
    InwardPairsOrder(rest);
    InwardOrderPerm(rest);
  }

  /** The round-1 pairing: walkovers for the first `byes` players, then inward pairs of the rest. */
  function Round1Pairs(ids: seq<Id>, size: nat): (r: seq<Pairing>)
    requires |ids| <= size <= 2 * |ids|
    ensures |r| == (size - |ids|) + (2 * |ids| - size + 1) / 2
  {
    var byes := size - |ids|;
    ByePairs(ids[..byes]) + InwardPairs(ids[byes..])
  }

  /**
   * Round 1 index by index: (1) the first `byes` ordered players each get a
   * walkover; (2) after them, the i-th remaining player meets the i-th
   * from the end; (3) an odd leftover gets a walkover.
   */
  lemma Round1PairsAt(ids: seq<Id>, size: nat)
    requires |ids| <= size <= 2 * |ids|
    ensures var r := Round1Pairs(ids, size);
      var byes := size - |ids|;
      && (forall j :: 0 <= j < byes ==> r[j] == Pairing(ids[j], None))
      && (forall j {:trigger r[j]} :: byes <= j < byes + (|ids| - byes) / 2 ==>
            r[j] == Pairing(ids[j], Some(ids[|ids| - 1 - (j - byes)])))
      && ((|ids| - byes) % 2 == 1 ==>
            r[byes + (|ids| - byes) / 2] == Pairing(ids[byes + (|ids| - byes) / 2], None))
  {
    var byes := size - |ids|;
    var a := ByePairs(ids[..byes]);
    var rest := ids[byes..];
    var b := InwardPairs(rest);
    var r := Round1Pairs(ids, size);
    assert r == a + b;
    forall j | byes <= j < byes + |rest| / 2
      ensures r[j] == Pairing(ids[j], Some(ids[|ids| - 1 - (j - byes)]))
    {
      assert r[j] == b[j - byes];
    }
    if |rest| % 2 == 1 {
      assert r[byes + |rest| / 2] == b[|rest| / 2];
    }
  }

  /** Every participant of the order appears in round 1, exactly as often as in the order. */
  lemma Round1Covers(ids: seq<Id>, size: nat)
    requires |ids| <= size <= 2 * |ids|
    ensures multiset(Players(Round1Pairs(ids, size))) == multiset(ids)
  {
    var byes := size - |ids|;
    PlayersAppend(ByePairs(ids[..byes]), InwardPairs(ids[byes..]));
    ByePairsPlayers(ids[..byes]);
    InwardPairsPlayers(ids[byes..]);
    MultisetSplit(ids, byes);
  }

  /**
   * With the computed bracket size, round 1 has size/2 matches and the
   * players left after the walkovers are even in number, so the extra
   * walkover for an odd leftover never happens.
   */
  lemma Round1Count(ids: seq<Id>)
    requires |ids| >= 2
    ensures |ids| <= BracketSize(|ids|) <= 2 * |ids|
    ensures (|ids| - Byes(|ids|)) % 2 == 0
    ensures |Round1Pairs(ids, BracketSize(|ids|))| == BracketSize(|ids|) / 2
  {
    PowerOfTwoEven(BracketSize(|ids|));
  }

  /** The loop-by-loop construction of `generarPartidosRonda1` (the unused shuffled copy omitted). */
  method GenerarPartidosRonda1(participantes: seq<Participant>, bracketSize: nat)
    returns (partidos: seq<Pairing>)
    requires |participantes| <= bracketSize <= 2 * |participantes|
    ensures partidos == Round1Pairs(UserIds(participantes), bracketSize)
  {
    var ids := UserIds(participantes);
    var byes := bracketSize - |participantes|;
    partidos := [];
    var i := 0;
    while i < byes
      invariant 0 <= i <= byes
      invariant |partidos| == i
      invariant forall k :: 0 <= k < i ==> partidos[k] == Pairing(ids[k], None)
    {
      partidos := partidos + [Pairing(ids[i], None)];
      i := i + 1;
    }
    assert partidos == ByePairs(ids[..byes]);
    var pareados := EmparejarRestantes(ids[byes..]);
    partidos := partidos + pareados;
  }

  /**
   * The second half of `generarPartidosRonda1`: the i-th remaining player
   * meets the i-th from the end, and an odd leftover gets a walkover.
   */
  method EmparejarRestantes(restantes: seq<Id>) returns (partidos: seq<Pairing>)
    ensures partidos == InwardPairs(restantes)
  {
    var len := |restantes|;
    var pares := len / 2;
    partidos := [];
    var i := 0;
    while i < pares
      invariant 0 <= i <= pares
      invariant |partidos| == i
      invariant forall j :: 0 <= j < i ==> partidos[j] == Pairing(restantes[j], Some(restantes[len - 1 - j]))
    {
      partidos := partidos + [Pairing(restantes[i], Some(restantes[len - 1 - i]))];
      i := i + 1;
    }
    if len % 2 != 0 {
      partidos := partidos + [Pairing(restantes[pares], None)];
    }
  }

  /**
   * Pairing winners for the next round: winners 2k and 2k+1 meet in
   * match k+1; an odd last winner gets a walkover.
   */
  function NextRoundPairs(w: seq<Id>): (r: seq<Pairing>)
    ensures |r| == (|w| + 1) / 2
    ensures forall k :: 0 <= k < |r| ==>
      r[k] == if 2 * k + 1 < |w| then Pairing(w[2 * k], Some(w[2 * k + 1])) else Pairing(w[2 * k], None)
  {
    if |w| == 0 then []
    else if |w| == 1 then [Pairing(w[0], None)]
    else
      var r := [Pairing(w[0], Some(w[1]))] + NextRoundPairs(w[2..]);
      assert forall k :: 1 <= k < |r| ==> r[k] == NextRoundPairs(w[2..])[k - 1];
      r
  }

  /** Every winner appears in the next round once, in match order. */
  lemma {:induction false} NextRoundCovers(w: seq<Id>)
    ensures Players(NextRoundPairs(w)) == w
  {
    if |w| >= 2 {
      NextRoundCovers(w[2..]);
      assert NextRoundPairs(w)[1..] == NextRoundPairs(w[2..]);
      assert w == [w[0], w[1]] + w[2..];
    }
  }

  // ---------------------------------------------------------------------
  // Match records
  // ---------------------------------------------------------------------

  datatype MatchState = Pendiente | Finalizado

  /** A row of `bracket_partidos`; scores start at the table default 0. */
  datatype Match = Match(
    id: Id,
    bracketId: Id,
    ronda: int,
    partidoNumero: int,
    usuario1: Option<Id>,
    usuario2: Option<Id>,
    puntos1: int,
    puntos2: int,
    puntosParaGanar: int,
    estado: MatchState,
    ganador: Option<Id>,
    perdedor: Option<Id>)

  /** The record inserted for a pairing: a walkover is born finished, won by its one player. */
  function NewMatch(p: Pairing, bracketId: Id, ronda: int, numero: int, ppg: int, id: Id): Match
  {
    Match(id, bracketId, ronda, numero, Some(p.usuario1), p.usuario2, 0, 0, ppg,
          if p.usuario2.Some? then Pendiente else Finalizado,
          if p.usuario2.Some? then None else Some(p.usuario1),
          None)
  }

  /** The rows inserted for one round, numbered from 1 in pairing order. */
  function MatchesFor(pairs: seq<Pairing>, bracketId: Id, ronda: int, ppg: int, firstId: Id): (ms: seq<Match>)
    ensures |ms| == |pairs|
    ensures forall i :: 0 <= i < |ms| ==>
      && ms[i].id == firstId + i
      && ms[i].bracketId == bracketId
      && ms[i].ronda == ronda
      && ms[i].partidoNumero == i + 1
      && ms[i].usuario1 == Some(pairs[i].usuario1)
      && ms[i].usuario2 == pairs[i].usuario2
      && ms[i].puntosParaGanar == ppg
      && (ms[i].estado == Finalizado <==> pairs[i].usuario2.None?)
      && (ms[i].ganador.Some? <==> pairs[i].usuario2.None?)
      && (ms[i].ganador.Some? ==> ms[i].ganador == ms[i].usuario1)
      && ms[i].perdedor.None?
  {
    seq(|pairs|, i requires 0 <= i < |pairs| => NewMatch(pairs[i], bracketId, ronda, i + 1, ppg, firstId + i))
  }

  /** The `i += 2` loop of `generarSiguienteRonda` that builds `nuevosPartidos`. */
  method BuildNextRound(ganadores: seq<Id>, bracketId: Id, ronda: int, ppg: int, firstId: Id)
    returns (nuevos: seq<Match>)
    ensures nuevos == MatchesFor(NextRoundPairs(ganadores), bracketId, ronda, ppg, firstId)
  {
    var target := MatchesFor(NextRoundPairs(ganadores), bracketId, ronda, ppg, firstId);
    nuevos := [];
    var i := 0;
    while i < |ganadores|
      invariant 0 <= i <= |ganadores| + 1 && i % 2 == 0
      invariant |nuevos| == i / 2
      invariant forall k :: 0 <= k < i / 2 ==> nuevos[k] == target[k]
    {
      var n := Match(firstId + i / 2, bracketId, ronda, i / 2 + 1, Some(ganadores[i]), None, 0, 0, ppg,
                     Finalizado, Some(ganadores[i]), None);
      if i + 1 < |ganadores| {
        n := n.(usuario2 := Some(ganadores[i + 1]), estado := Pendiente, ganador := None);
      }
      NextMatchAt(ganadores, bracketId, ronda, ppg, firstId, i / 2);
      assert n == target[i / 2];
      nuevos := nuevos + [n];
      i := i + 2;
    }
  }

  /** Match k of the next round, written out. */
  lemma NextMatchAt(ganadores: seq<Id>, bracketId: Id, ronda: int, ppg: int, firstId: Id, k: nat)
    requires 2 * k < |ganadores|
    ensures var ms := MatchesFor(NextRoundPairs(ganadores), bracketId, ronda, ppg, firstId);
      k < |ms| &&
      ms[k] == if 2 * k + 1 < |ganadores|
        then Match(firstId + k, bracketId, ronda, k + 1, Some(ganadores[2 * k]), Some(ganadores[2 * k + 1]),
                   0, 0, ppg, Pendiente, None, None)
        else Match(firstId + k, bracketId, ronda, k + 1, Some(ganadores[2 * k]), None,
                   0, 0, ppg, Finalizado, Some(ganadores[2 * k]), None)
  {
    var pairs := NextRoundPairs(ganadores);
    assert MatchesFor(pairs, bracketId, ronda, ppg, firstId)[k] == NewMatch(pairs[k], bracketId, ronda, k + 1, ppg, firstId + k);
  }

  // ---------------------------------------------------------------------
  // Judging a recorded score
  // ---------------------------------------------------------------------

  /** `a || b` on numbers: `a` unless it is 0. */
  function OrElse(a: int, b: int): int
  {
    if a != 0 then a else b
  }

  /** `partido.puntos_para_ganar || currentBracket?.puntos_para_ganar || 3`; never 0. */
  function Threshold(matchPpg: int, bracketPpg: Option<int>): (t: int)
    ensures t != 0
    ensures matchPpg != 0 ==> t == matchPpg
    ensures matchPpg == 0 && bracketPpg.Some? && bracketPpg.value != 0 ==> t == bracketPpg.value
    ensures matchPpg == 0 && (bracketPpg.None? || bracketPpg.value == 0) ==> t == 3
  {
    OrElse(matchPpg, OrElse(if bracketPpg.Some? then bracketPpg.value else 0, 3))
  }

  /** What `guardarPuntosPartido` does with a score. */
  datatype Outcome =
    | Walkover(presente: Option<Id>)  // a side is missing: the present one wins
    | TwoWinners                      // both reached the threshold: rejected
    | Won(ganador: Id, perdedor: Id)  // exactly one side reached it
    | NotYet                          // neither did: the scores are stored

  function Judge(u1: Option<Id>, u2: Option<Id>, t: int, p1: int, p2: int): (o: Outcome)
    ensures o.Walkover? <==> u1.None? || u2.None?
    ensures o.Walkover? ==> o.presente == if u2.None? then u1 else u2
    ensures o.TwoWinners? <==> u1.Some? && u2.Some? && p1 >= t && p2 >= t
    ensures o.NotYet? <==> u1.Some? && u2.Some? && p1 < t && p2 < t
    ensures o.Won? <==> u1.Some? && u2.Some? && (p1 >= t) != (p2 >= t)
    ensures o.Won? && p1 >= t ==> o.ganador == u1.value && o.perdedor == u2.value
    ensures o.Won? && p2 >= t ==> o.ganador == u2.value && o.perdedor == u1.value
  {
    if u2.None? then Walkover(u1)
    else if u1.None? then Walkover(u2)
    else if p1 >= t && p2 >= t then TwoWinners
    else if p1 >= t then Won(u1.value, u2.value)
    else if p2 >= t then Won(u2.value, u1.value)
    else NotYet
  }

  /** Who won and lost in `finalizarPartido`, and with which points. */
  datatype Resolution = Resolution(
    ganador: Option<Id>,
    perdedor: Option<Id>,
    puntosGanador: int,
    puntosPerdedor: int)

  /**
   * The four branches of `finalizarPartido`: the winner and loser are
   * matched against the match's sides, and a points argument of 0 falls
   * back to the score already held in the (local) match row.
   */
  function Resolve(m: Match, ganadorId: Option<Id>, perdedorId: Option<Id>, pj1: int, pj2: int): Resolution
  {
    if ganadorId == m.usuario1 then
      Resolution(ganadorId, perdedorId, OrElse(pj1, m.puntos1), OrElse(pj2, m.puntos2))
    else if ganadorId == m.usuario2 then
      Resolution(ganadorId, perdedorId, OrElse(pj2, m.puntos2), OrElse(pj1, m.puntos1))
    else if perdedorId == m.usuario1 then
      Resolution(m.usuario2, m.usuario1, OrElse(pj2, m.puntos2), OrElse(pj1, m.puntos1))
    else if perdedorId == m.usuario2 then
      Resolution(m.usuario1, m.usuario2, OrElse(pj1, m.puntos1), OrElse(pj2, m.puntos2))
    else
      Resolution(ganadorId, perdedorId, 0, 0)
  }

  /** The update written to the stored row: each side's column gets the winner's or the loser's points. */
  function Finish(row: Match, m: Match, r: Resolution): (f: Match)
    ensures f.estado == Finalizado && f.ganador == r.ganador && f.perdedor == r.perdedor
    ensures f.id == row.id && f.bracketId == row.bracketId && f.ronda == row.ronda
    ensures f.partidoNumero == row.partidoNumero && f.usuario1 == row.usuario1 && f.usuario2 == row.usuario2
    ensures f.puntosParaGanar == row.puntosParaGanar
    ensures r.ganador.Some? && m.usuario1 == r.ganador && m.usuario2 != r.ganador ==>
      f.puntos1 == r.puntosGanador && f.puntos2 == r.puntosPerdedor
  {
    row.(ganador := r.ganador,
         perdedor := r.perdedor,
         puntos1 := if m.usuario1 == r.ganador then r.puntosGanador else r.puntosPerdedor,
         puntos2 := if m.usuario2 == r.ganador then r.puntosGanador else r.puntosPerdedor,
         estado := Finalizado)
  }

  /**
   * A decided two-player match is finished with the judged winner and
   * loser, and each column keeps its own player's points.
   */
  lemma FinishAfterWin(m: Match, t: int, p1: int, p2: int)
    requires m.usuario1.Some? && m.usuario2.Some? && m.usuario1 != m.usuario2
    requires Judge(m.usuario1, m.usuario2, t, p1, p2).Won?
    ensures var o := Judge(m.usuario1, m.usuario2, t, p1, p2);
      var r := Resolve(m, Some(o.ganador), Some(o.perdedor), p1, p2);
      var f := Finish(m, m, r);
      && r.ganador == Some(o.ganador) && r.perdedor == Some(o.perdedor)
      && f.ganador == Some(o.ganador) && f.perdedor == Some(o.perdedor)
      && f.puntos1 == OrElse(p1, m.puntos1)
      && f.puntos2 == OrElse(p2, m.puntos2)
      && f.estado == Finalizado
  {
  }

  /**
   * A walkover (no second player) is won by the first player with nobody
   * losing; the second column keeps its stored points.
   */
  lemma FinishWalkover(m: Match, p1: int)
    requires m.usuario1.Some? && m.usuario2.None?
    ensures var r := Resolve(m, m.usuario1, None, p1, 0);
      var f := Finish(m, m, r);
      && r.ganador == m.usuario1 && r.perdedor.None?
      && r.puntosGanador == OrElse(p1, m.puntos1)
      && f.ganador == m.usuario1 && f.perdedor.None?
      && f.puntos1 == OrElse(p1, m.puntos1) && f.puntos2 == m.puntos2
      && f.estado == Finalizado
  {
  }

  /**
   * As written, the `||` fallback also fires for a score the admin entered
   * as 0: a match stored at 1-2 and saved at 3-0 (to 3) is finished at 3-2,
   * and the loser is charged 2 points instead of 0.
   */
  lemma StaleLoserPoints()
    ensures var m := Match(1, 1, 1, 1, Some(1), Some(2), 1, 2, 3, Pendiente, None, None);
      var o := Judge(m.usuario1, m.usuario2, 3, 3, 0);
      var r := Resolve(m, Some(o.ganador), Some(o.perdedor), 3, 0);
      var f := Finish(m, m, r);
      && o == Won(1, 2)
      && r.puntosPerdedor == 2
      && f.puntos1 == 3 && f.puntos2 == 2
      && LedgerDelta(false, r.puntosPerdedor) == -2
  {
  }

  /** The intended `finalizarPartido`: the same four branches, with the scores as entered. */
  function ResolveEntered(m: Match, ganadorId: Option<Id>, perdedorId: Option<Id>, pj1: int, pj2: int): Resolution
  {
    if ganadorId == m.usuario1 then
      Resolution(ganadorId, perdedorId, pj1, pj2)
    else if ganadorId == m.usuario2 then
      Resolution(ganadorId, perdedorId, pj2, pj1)
    else if perdedorId == m.usuario1 then
      Resolution(m.usuario2, m.usuario1, pj2, pj1)
    else if perdedorId == m.usuario2 then
      Resolution(m.usuario1, m.usuario2, pj1, pj2)
    else
      Resolution(ganadorId, perdedorId, 0, 0)
  }

  /**
   * With the intended resolution, a decided match is finished with exactly
   * the entered scores, the winner is credited their own score and the
   * loser is charged theirs; it differs from the code only where an
   * entered score is 0.
   */
  lemma ResolveEnteredKeepsScores(m: Match, t: int, p1: int, p2: int)
    requires m.usuario1.Some? && m.usuario2.Some? && m.usuario1 != m.usuario2
    requires Judge(m.usuario1, m.usuario2, t, p1, p2).Won?
    ensures var o := Judge(m.usuario1, m.usuario2, t, p1, p2);
      var r := ResolveEntered(m, Some(o.ganador), Some(o.perdedor), p1, p2);
      var f := Finish(m, m, r);
      && f.ganador == Some(o.ganador) && f.perdedor == Some(o.perdedor)
      && f.puntos1 == p1 && f.puntos2 == p2
      && r.puntosGanador == (if Some(o.ganador) == m.usuario1 then p1 else p2)
      && r.puntosPerdedor == (if Some(o.perdedor) == m.usuario1 then p1 else p2)
    ensures p1 != 0 && p2 != 0 ==>
      Resolve(m, Some(Judge(m.usuario1, m.usuario2, t, p1, p2).ganador),
                 Some(Judge(m.usuario1, m.usuario2, t, p1, p2).perdedor), p1, p2)
      == ResolveEntered(m, Some(Judge(m.usuario1, m.usuario2, t, p1, p2).ganador),
                           Some(Judge(m.usuario1, m.usuario2, t, p1, p2).perdedor), p1, p2)
  {
  }

  // ---------------------------------------------------------------------
  // Statistics and the extra-ranking ledger
  // ---------------------------------------------------------------------

  /** The signed ledger amount: `+puntos` for a win, `-puntos` for a loss. */
  function LedgerDelta(esVictoria: bool, puntos: int): int
  {
    if esVictoria then puntos else -puntos
  }

  /** A participant row after one result: one more win or loss, points moved by the ledger amount. */
  function StatsAfter(p: Participant, esVictoria: bool, puntos: int): (q: Participant)
    ensures q.victorias == p.victorias + (if esVictoria then 1 else 0)
    ensures q.derrotas == p.derrotas + (if esVictoria then 0 else 1)
    ensures q.puntosAcumulados == p.puntosAcumulados + LedgerDelta(esVictoria, puntos)
    ensures q.id == p.id && q.usuarioId == p.usuarioId && q.semilla == p.semilla && q.activo == p.activo
  {
    p.(victorias := if esVictoria then p.victorias + 1 else p.victorias,
       derrotas := if esVictoria then p.derrotas else p.derrotas + 1,
       puntosAcumulados := if esVictoria then p.puntosAcumulados + puntos
                           else p.puntosAcumulados - puntos)
  }

  /** `registrarPuntosRankingExtra`: one signed entry, unless the amount is 0. */
  function LedgerAfter(ledger: seq<ExtraEntry>, usuarioId: Id, esVictoria: bool, puntos: int, evento: string)
    : (r: seq<ExtraEntry>)
    ensures |r| >= |ledger| && r[..|ledger|] == ledger
    ensures |r| == |ledger| <==> puntos == 0
    ensures |r| > |ledger| ==>
      |r| == |ledger| + 1 && r[|ledger|] == ExtraEntry(usuarioId, if esVictoria then puntos else -puntos, evento)
  {
    var d := LedgerDelta(esVictoria, puntos);
    if d == 0 then ledger else ledger + [ExtraEntry(usuarioId, d, evento)]
  }

  /**
   * The ledger moves the user's event total by exactly the change in their
   * accumulated points, and leaves every other total alone.
   */
  lemma LedgerTracksStats(ledger: seq<ExtraEntry>, p: Participant, esVictoria: bool, puntos: int,
                          evento: string, v: Id, e: string)
    ensures LedgerTotal(LedgerAfter(ledger, p.usuarioId, esVictoria, puntos, evento), v, e)
            - LedgerTotal(ledger, v, e)
         == if v == p.usuarioId && e == evento
            then StatsAfter(p, esVictoria, puntos).puntosAcumulados - p.puntosAcumulados
            else 0
  {
    var d := LedgerDelta(esVictoria, puntos);
    if d != 0 {
      LedgerTotalAppend(ledger, ExtraEntry(p.usuarioId, d, evento), v, e);
    }
  }

  // ---------------------------------------------------------------------
  // Round control
  // ---------------------------------------------------------------------

  /** `currentBracket?.ronda_actual || 1` (a missing bracket or round 0 reads as round 1). */
  function CurrentRound(rondaActual: Option<int>): (c: int)
    ensures c != 0
    ensures rondaActual.Some? && rondaActual.value != 0 ==> c == rondaActual.value
  {
    if rondaActual.Some? && rondaActual.value != 0 then rondaActual.value else 1
  }

  function InRound(r: int): Match -> bool
  {
    (m: Match) => m.ronda == r
  }

  /** The matches of round `r` exist and are all finished. */
  function RoundComplete(ms: seq<Match>, r: int): (done: bool)
    ensures done <==>
      (exists i :: 0 <= i < |ms| && ms[i].ronda == r) &&
      (forall i :: 0 <= i < |ms| && ms[i].ronda == r ==> ms[i].estado == Finalizado)
  {
    var cur := Filter(ms, InRound(r));
    FilterMembers(ms, InRound(r));
    assert (exists i :: 0 <= i < |ms| && ms[i].ronda == r) ==> |cur| > 0 by {
      if i :| 0 <= i < |ms| && ms[i].ronda == r {
        assert ms[i] in ms && InRound(r)(ms[i]);
      }
    }
    assert |cur| > 0 ==> exists i :: 0 <= i < |ms| && ms[i].ronda == r by {
      if |cur| > 0 {
        assert cur[0] in cur;
        var i :| 0 <= i < |ms| && ms[i] == cur[0];
        assert ms[i].ronda == r;
      }
    }
    assert (forall m :: m in cur ==> m.estado == Finalizado) <==>
           (forall i :: 0 <= i < |ms| && ms[i].ronda == r ==> ms[i].estado == Finalizado) by {
      if forall m :: m in cur ==> m.estado == Finalizado {
        forall i | 0 <= i < |ms| && ms[i].ronda == r ensures ms[i].estado == Finalizado {
          assert ms[i] in ms && InRound(r)(ms[i]);
        }
      }
    }
    |cur| > 0 && forall m :: m in cur ==> m.estado == Finalizado
  }

  /** `partidosRondaActual.map(p => p.ganador_id).filter(id => id !== null)`, in match order. */
  function Winners(ms: seq<Match>, r: int): (w: seq<Id>)
    ensures |w| <= CountIf(ms, InRound(r))
    ensures forall x :: x in w ==> exists i :: 0 <= i < |ms| && ms[i].ronda == r && ms[i].ganador == Some(x)
    ensures forall i :: 0 <= i < |ms| && ms[i].ronda == r && ms[i].ganador.Some? ==> ms[i].ganador.value in w
  {
    if |ms| == 0 then []
    else
      var m := ms[|ms| - 1];
      var w := Winners(ms[..|ms| - 1], r) + (if m.ronda == r && m.ganador.Some? then [m.ganador.value] else []);
      assert forall i :: 0 <= i < |ms| - 1 ==> ms[..|ms| - 1][i] == ms[i];
      assert forall x :: x in w ==> exists i :: 0 <= i < |ms| && ms[i].ronda == r && ms[i].ganador == Some(x) by {
        forall x | x in w ensures exists i :: 0 <= i < |ms| && ms[i].ronda == r && ms[i].ganador == Some(x) {
          if x in Winners(ms[..|ms| - 1], r) {
            var i :| 0 <= i < |ms| - 1 && ms[..|ms| - 1][i].ronda == r && ms[..|ms| - 1][i].ganador == Some(x);
            assert ms[i] == ms[..|ms| - 1][i];
          } else {
            assert ms[|ms| - 1].ganador == Some(x);
          }
        }
      }
      w
  }

  /** What one match adds to the winner list of round `r`. */
  function WinnerOf(m: Match, r: int): seq<Id>
  {
    if m.ronda == r && m.ganador.Some? then [m.ganador.value] else []
  }

  lemma WinnersStep(ms: seq<Match>, r: int)
    requires |ms| > 0
    ensures Winners(ms, r) == Winners(ms[..|ms| - 1], r) + WinnerOf(ms[|ms| - 1], r)
  {
  }

  /** The winners of a match list are those of its first part followed by those of the rest: match order is kept. */
  lemma {:induction false} WinnersConcat(a: seq<Match>, b: seq<Match>, r: int)
    ensures Winners(a + b, r) == Winners(a, r) + Winners(b, r)
    decreases |b|
  {
    if |b| == 0 {
      assert a + b == a;
    } else {
      var ab := a + b;
      assert ab[..|ab| - 1] == a + b[..|b| - 1];
      assert ab[|ab| - 1] == b[|b| - 1];
      WinnersStep(ab, r);
      WinnersStep(b, r);
      WinnersConcat(a, b[..|b| - 1], r);
    }
  }

  /** One match contributes its winner exactly when it is of the round and decided. */
  lemma WinnersOne(m: Match, r: int)
    ensures Winners([m], r) == WinnerOf(m, r)
  {
    assert [m][..0] == [];
  }

  /** When every match of the round names a winner, each contributes exactly one. */
  lemma {:induction false} WinnersAllDecided(ms: seq<Match>, r: int)
    requires forall i :: 0 <= i < |ms| && ms[i].ronda == r ==> ms[i].ganador.Some?
    ensures |Winners(ms, r)| == CountIf(ms, InRound(r))
  {
    if |ms| > 0 {
      WinnersAllDecided(ms[..|ms| - 1], r);
    }
  }
}
