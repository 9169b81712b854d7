/**
 * Rows of the hosted data store's tables that more than one manager reads or
 * writes, plus the small wrappers every module uses.
 */
module Schema {

  /** A nullable value (`null` in the source). */
  datatype Option<+T> = None | Some(value: T)

  /** Primary keys handed out by the store; never 0, so a present id is always truthy. */
  type Id = x: int | x >= 1 witness 1

  /** A row of `administradores`. */
  datatype Admin = Admin(
    id: Id,
    usuario: string,
    passwordHash: string,
    nombreCompleto: string,
    nivelAcceso: int,
    activo: bool)

  /** A row of `usuarios` (a player); `puntosMain` may go negative through corrections. */
  datatype Usuario = Usuario(id: Id, nombre: string, equipoId: Option<Id>, puntosMain: int)

  /** A row of `equipos`. */
  datatype Equipo = Equipo(id: Id, nombre: string, tag: string)

  /** A row of the append-only `ranking_extra` ledger: a signed amount for one user in one event. */
  datatype ExtraEntry = ExtraEntry(usuarioId: Id, puntosExtra: int, eventoNombre: string)

  /** Keeps the elements of `s` that satisfy `p`, in order (`Array.prototype.filter`). */
  function Filter<T>(s: seq<T>, p: T -> bool): (r: seq<T>)
    ensures |r| <= |s|
  {
    if |s| == 0 then []
    else Filter(s[..|s| - 1], p) + (if p(s[|s| - 1]) then [s[|s| - 1]] else [])
  }

  /** `filter` keeps exactly the elements that satisfy the predicate. */
  lemma {:induction false} FilterMembers<T>(s: seq<T>, p: T -> bool)
    ensures forall x :: x in Filter(s, p) ==> x in s && p(x)
    ensures forall x :: x in s && p(x) ==> x in Filter(s, p)
  {
    if |s| > 0 {
      FilterMembers(s[..|s| - 1], p);
      assert s == s[..|s| - 1] + [s[|s| - 1]];
    }
  }

  /** The number of elements of `s` that satisfy `p`. */
  function CountIf<T>(s: seq<T>, p: T -> bool): (n: nat)
    ensures n <= |s|
    ensures n == 0 <==> forall x :: x in s ==> !p(x)
  {
    if |s| == 0 then 0
    else CountIf(s[..|s| - 1], p) + (if p(s[|s| - 1]) then 1 else 0)
  }

  lemma {:induction false} FilterLength<T>(s: seq<T>, p: T -> bool)
    ensures |Filter(s, p)| == CountIf(s, p)
  {
    if |s| > 0 {
      FilterLength(s[..|s| - 1], p);
    }
  }

  /** The index of the first element satisfying `p` (`Array.prototype.findIndex`), if any. */
  function FindIndex<T>(s: seq<T>, p: T -> bool): (r: Option<nat>)
    ensures r.Some? ==> r.value < |s| && p(s[r.value]) && forall j :: 0 <= j < r.value ==> !p(s[j])
    ensures r.None? ==> forall j :: 0 <= j < |s| ==> !p(s[j])
  {
    if |s| == 0 then None
    else if p(s[0]) then Some(0)
    else match FindIndex(s[1..], p)
      case None => None
      case Some(k) => Some(k + 1)
  }

  /**
   * `.single()`: the one element satisfying `p`; no element, or more than
   * one, is an error (None).
   */
  function Single<T>(s: seq<T>, p: T -> bool): (r: Option<T>)
    ensures r.Some? <==> CountIf(s, p) == 1
    ensures r.Some? ==> r.value in s && p(r.value)
  {
    var rows := Filter(s, p);
    FilterLength(s, p);
    FilterMembers(s, p);
    if |rows| == 1 then
      assert rows[0] in rows;
      Some(rows[0])
    else None
  }

  /** Filtering distributes over concatenation. */
  lemma {:induction false} FilterConcat<T>(s: seq<T>, t: seq<T>, p: T -> bool)
    ensures Filter(s + t, p) == Filter(s, p) + Filter(t, p)
  {
    if |t| == 0 {
      assert s + t == s;
    } else {
      var init, x := t[..|t| - 1], t[|t| - 1];
      FilterConcat(s, init, p);
      assert s + t == (s + init) + [x];
      FilterSnoc(s + init, x, p);
      FilterSnoc(init, x, p);
      assert t == init + [x];
    }
  }

  /** A filter keeps a sequence whole when every element passes. */
  lemma {:induction false} FilterAll<T>(s: seq<T>, p: T -> bool)
    requires forall i :: 0 <= i < |s| ==> p(s[i])
    ensures Filter(s, p) == s
  {
    if |s| > 0 {
      var init := s[..|s| - 1];
      FilterAll(init, p);
      assert s == init + [s[|s| - 1]];
      FilterSnoc(init, s[|s| - 1], p);
    }
  }

  /** A filter keeps nothing when no element passes. */
  lemma FilterNone<T>(s: seq<T>, p: T -> bool)
    requires forall i :: 0 <= i < |s| ==> !p(s[i])
    ensures Filter(s, p) == []
  {
    FilterMembers(s, p);
    if Filter(s, p) != [] {
      assert Filter(s, p)[0] in Filter(s, p);
    }
  }

  /** The decimal rendering of a natural number (JavaScript's number-to-string for integers). */
  function NatToString(n: nat): (s: string)
    ensures |s| >= 1
    ensures forall i :: 0 <= i < |s| ==> '0' <= s[i] <= '9'
    ensures n >= 10 ==> s[0] != '0'
  {
    var d := ['0', '1', '2', '3', '4', '5', '6', '7', '8', '9'][n % 10];
    if n < 10 then [d] else NatToString(n / 10) + [d]
  }

  /** The decimal rendering of an integer, with a leading '-' when negative. */
  function IntToString(n: int): (s: string)
    ensures |s| >= 1
    ensures (s[0] == '-') <==> n < 0
  {
    if n < 0 then "-" + NatToString(-n) else NatToString(n)
  }

  /** Splitting by a predicate and its negation loses and invents nothing. */
  lemma {:induction false} FilterComplement<T>(s: seq<T>, p: T -> bool, q: T -> bool)
    requires forall x :: q(x) == !p(x)
    ensures multiset(Filter(s, p)) + multiset(Filter(s, q)) == multiset(s)
  {
    if |s| > 0 {
      var init := s[..|s| - 1];
      var x := s[|s| - 1];
      FilterComplement(init, p, q);
      MultisetSplit(s, |s| - 1);
      assert s[|s| - 1..] == [x];
      MultisetStep(multiset(Filter(init, p)), multiset(Filter(init, q)), multiset(init), x);
    }
  }

  lemma MultisetStep<T>(a: multiset<T>, b: multiset<T>, c: multiset<T>, x: T)
    requires a + b == c
    ensures (a + multiset{x}) + b == c + multiset{x}
    ensures a + (b + multiset{x}) == c + multiset{x}
  {
  }

  /** `filter` of an appended element keeps it exactly when it satisfies the predicate. */
  lemma FilterSnoc<T>(s: seq<T>, x: T, p: T -> bool)
    ensures Filter(s + [x], p) == Filter(s, p) + (if p(x) then [x] else [])
  {
    assert (s + [x])[..|s|] == s;
  }

  /** `findIndex` only looks at the predicate's value at each index. */
  lemma {:induction false} FindIndexSamePred<T>(s: seq<T>, t: seq<T>, p: T -> bool)
    requires |s| == |t|
    requires forall i :: 0 <= i < |s| ==> p(s[i]) == p(t[i])
    ensures FindIndex(s, p) == FindIndex(t, p)
  {
    if |s| > 0 && !p(s[0]) {
      FindIndexSamePred(s[1..], t[1..], p);
    }
  }

  /** The sum of a user's ledger amounts within one event. */
  function LedgerTotal(ledger: seq<ExtraEntry>, usuarioId: Id, evento: string): int
  {
    if |ledger| == 0 then 0
    else
      var e := ledger[|ledger| - 1];
      LedgerTotal(ledger[..|ledger| - 1], usuarioId, evento)
        + (if e.usuarioId == usuarioId && e.eventoNombre == evento then e.puntosExtra else 0)
  }

  /** Appending an entry moves exactly the total it belongs to, by exactly its amount. */
  lemma LedgerTotalAppend(ledger: seq<ExtraEntry>, e: ExtraEntry, usuarioId: Id, evento: string)
    ensures LedgerTotal(ledger + [e], usuarioId, evento) ==
      LedgerTotal(ledger, usuarioId, evento)
        + (if e.usuarioId == usuarioId && e.eventoNombre == evento then e.puntosExtra else 0)
  {
    assert (ledger + [e])[..|ledger|] == ledger;
  }

  /** In `a + b` with `a` all satisfying `p` and `b` none, `p` holds exactly on the first `|a|` places. */
  lemma ConcatSplit<T>(a: seq<T>, b: seq<T>, p: T -> bool)
    requires forall x :: x in a ==> p(x)
    requires forall x :: x in b ==> !p(x)
    ensures forall i :: 0 <= i < |a + b| ==> (p((a + b)[i]) <==> i < |a|)
    ensures (a + b)[..|a|] == a && (a + b)[|a|..] == b
  {
    forall i | 0 <= i < |a + b| ensures p((a + b)[i]) <==> i < |a| {
      if i < |a| {
        assert (a + b)[i] == a[i] && a[i] in a;
      } else {
        assert (a + b)[i] == b[i - |a|] && b[i - |a|] in b;
      }
    }
  }

  lemma MultisetSplit<T>(s: seq<T>, k: nat)
    requires k <= |s|
    ensures multiset(s) == multiset(s[..k]) + multiset(s[k..])
  {
    assert s == s[..k] + s[k..];
  }
  /** No two elements share a key (a unique constraint of the store). */
  predicate DistinctBy<T, K(==)>(s: seq<T>, key: T -> K)
  {
    forall i, j :: 0 <= i < j < |s| ==> key(s[i]) != key(s[j])
  }

  /** A filter keeps a sub-multiset of its input. */
  lemma FilterSubMultiset<T>(s: seq<T>, p: T -> bool)
    ensures multiset(Filter(s, p)) <= multiset(s)
  {
    FilterComplement(s, p, x => !p(x));
  }

  /** With distinct keys, each element occurs once. */
  lemma DistinctOnce<T, K>(g: seq<T>, key: T -> K, a: nat)
    requires a < |g| && DistinctBy(g, key)
    ensures multiset(g)[g[a]] == 1
  {
    var before, after := g[..a], g[a + 1..];
    assert g == before + [g[a]] + after;
    forall x | 0 <= x < |before| ensures before[x] != g[a] {
      assert before[x] == g[x];
    }
    forall x | 0 <= x < |after| ensures after[x] != g[a] {
      assert after[x] == g[a + 1 + x];
    }
    assert g[a] !in before && g[a] !in after;
  }

  /** Taking some of the elements, in any order, keeps the keys distinct. */
  lemma DistinctKept<T, K>(g: seq<T>, r: seq<T>, key: T -> K)
    requires DistinctBy(g, key) && multiset(r) <= multiset(g)
    ensures DistinctBy(r, key)
  {
    forall a | 0 <= a < |g| ensures multiset(g)[g[a]] == 1 {
      DistinctOnce(g, key, a);
    }
    forall i, j | 0 <= i < j < |r| ensures key(r[i]) != key(r[j]) {
      assert r[i] in multiset(r) && r[j] in multiset(r);
      var a :| 0 <= a < |g| && g[a] == r[i];
      var b :| 0 <= b < |g| && g[b] == r[j];
      assert a != b ==> key(g[a]) != key(g[b]);
      assert r == r[..j] + [r[j]] + r[j + 1..];
      assert r[..j][i] == r[i];
      assert multiset(r)[r[i]] >= multiset(r[..j])[r[i]] + multiset([r[j]])[r[i]];
    }
  }

  /** A filter keeps the keys distinct. */
  lemma FilterDistinct<T, K>(s: seq<T>, p: T -> bool, key: T -> K)
    requires DistinctBy(s, key)
    ensures DistinctBy(Filter(s, p), key)
  {
    FilterSubMultiset(s, p);
    DistinctKept(s, Filter(s, p), key);
  }
}
