/** The SQL that the models use, over tables as sequences of rows, so that duplicates and fan-out are visible. */
module Relational {
  import opened Options

  // ---------------------------------------------------------------- sums

  function Sum<T>(rows: seq<T>, amount: T -> int): int {
    if rows == [] then 0 else Sum(rows[..|rows| - 1], amount) + amount(rows[|rows| - 1])
  }

  lemma {:induction false} SumAlike<T, U>(rows: seq<T>, amount: T -> int, others: seq<U>, weight: U -> int)
    requires |rows| == |others| && forall i | 0 <= i < |rows| :: amount(rows[i]) == weight(others[i])
    ensures Sum(rows, amount) == Sum(others, weight)
  {
    if rows != [] {
      SumAlike(rows[..|rows| - 1], amount, others[..|others| - 1], weight);
    }
  }

  // ---------------------------------------------------------------- joins

  function MatchesOf<L, R>(l: L, rs: seq<R>, on: (L, R) -> bool): seq<R> {
    if rs == [] then []
    else
      var last := rs[|rs| - 1];
      MatchesOf(l, rs[..|rs| - 1], on) + if on(l, last) then [last] else []
  }

  function Pairs<L, R>(l: L, rs: seq<R>): seq<(L, R)> { seq(|rs|, i requires 0 <= i < |rs| => (l, rs[i])) }

  /** Every matching pair, left rows in order; a left row without a match is dropped, one with two is repeated. */
  function InnerJoin<L, R>(ls: seq<L>, rs: seq<R>, on: (L, R) -> bool): seq<(L, R)> {
    if ls == [] then []
    else InnerJoin(ls[..|ls| - 1], rs, on) + Pairs(ls[|ls| - 1], MatchesOf(ls[|ls| - 1], rs, on))
  }

  /** As the inner join, but a left row without a match is kept once, with no right side. */
  function LeftJoin<L, R>(ls: seq<L>, rs: seq<R>, on: (L, R) -> bool): seq<(L, Option<R>)> {
    if ls == [] then []
    else
      var l := ls[|ls| - 1];
      var found := MatchesOf(l, rs, on);
      LeftJoin(ls[..|ls| - 1], rs, on) +
      if found == [] then [(l, None)] else seq(|found|, i requires 0 <= i < |found| => (l, Some(found[i])))
  }

  /** At most one row of the table matches, wherever it stands. */
  ghost predicate AtMostOneMatch<L, R>(l: L, rs: seq<R>, on: (L, R) -> bool) {
    forall i, j | 0 <= i < |rs| && 0 <= j < |rs| && on(l, rs[i]) && on(l, rs[j]) :: i == j
  }

  ghost predicate SomeMatch<L, R>(l: L, rs: seq<R>, on: (L, R) -> bool) {
    exists i :: 0 <= i < |rs| && on(l, rs[i])
  }

  lemma {:induction false} NoMatches<L, R>(l: L, rs: seq<R>, on: (L, R) -> bool)
    requires !SomeMatch(l, rs, on)
    ensures MatchesOf(l, rs, on) == []
  {
    if rs != [] {
      assert forall i | 0 <= i < |rs| - 1 :: rs[..|rs| - 1][i] == rs[i];
      NoMatches(l, rs[..|rs| - 1], on);
    }
  }

  lemma {:induction false} OneMatch<L, R>(l: L, rs: seq<R>, on: (L, R) -> bool, k: nat)
    requires k < |rs| && on(l, rs[k]) && AtMostOneMatch(l, rs, on)
    ensures MatchesOf(l, rs, on) == [rs[k]]
  {
    var before := rs[..|rs| - 1];
    assert forall i | 0 <= i < |before| :: before[i] == rs[i];
    if k == |rs| - 1 {
      NoMatches(l, before, on);
    } else {
      OneMatch(l, before, on, k);
    }
  }

  ghost predicate MatchedBy<L, R>(row: (L, R), l: L, on: (L, R) -> bool) { row.0 == l && on(l, row.1) }

  /** Where every left row has exactly one match, the join has one row per left row, in order. */
  lemma {:induction false} InnerJoinIsOneToOne<L, R>(ls: seq<L>, rs: seq<R>, on: (L, R) -> bool)
    requires forall i | 0 <= i < |ls| :: SomeMatch(ls[i], rs, on) && AtMostOneMatch(ls[i], rs, on)
    ensures |InnerJoin(ls, rs, on)| == |ls|
    ensures forall i | 0 <= i < |ls| :: MatchedBy(InnerJoin(ls, rs, on)[i], ls[i], on)
  {
    if ls != [] {
      var l := ls[|ls| - 1];
      InnerJoinIsOneToOne(ls[..|ls| - 1], rs, on);
      var k := TheMatch(l, rs, on);
      assert InnerJoin(ls, rs, on) == InnerJoin(ls[..|ls| - 1], rs, on) + [(l, rs[k])];
    }
  }

  lemma TheMatch<L, R>(l: L, rs: seq<R>, on: (L, R) -> bool) returns (k: nat)
    requires SomeMatch(l, rs, on) && AtMostOneMatch(l, rs, on)
    ensures k < |rs| && on(l, rs[k]) && MatchesOf(l, rs, on) == [rs[k]]
  {
    k :| 0 <= k < |rs| && on(l, rs[k]);
    OneMatch(l, rs, on, k);
  }

  /** The left row with its match, or without one when it has none. */
  ghost predicate KeptWith<L, R>(row: (L, Option<R>), l: L, rs: seq<R>, on: (L, R) -> bool) {
    && row.0 == l
    && (row.1.None? <==> !SomeMatch(l, rs, on))
    && (row.1.Some? ==> row.1.value in rs && on(l, row.1.value))
  }

  /** Where no left row has two matches, the left join has one row per left row, in order. */
  lemma {:induction false} LeftJoinIsOneToOne<L, R>(ls: seq<L>, rs: seq<R>, on: (L, R) -> bool)
    requires forall i | 0 <= i < |ls| :: AtMostOneMatch(ls[i], rs, on)
    ensures |LeftJoin(ls, rs, on)| == |ls|
    ensures forall i | 0 <= i < |ls| :: KeptWith(LeftJoin(ls, rs, on)[i], ls[i], rs, on)
  {
    if ls != [] {
      LeftJoinIsOneToOne(ls[..|ls| - 1], rs, on);
      var row := LastLeftRow(ls, rs, on);
      assert LeftJoin(ls, rs, on) == LeftJoin(ls[..|ls| - 1], rs, on) + [row];
    }
  }

  lemma {:induction false} LastLeftRow<L, R>(ls: seq<L>, rs: seq<R>, on: (L, R) -> bool) returns (row: (L, Option<R>))
    requires ls != [] && AtMostOneMatch(ls[|ls| - 1], rs, on)
    ensures KeptWith(row, ls[|ls| - 1], rs, on)
    ensures LeftJoin(ls, rs, on) == LeftJoin(ls[..|ls| - 1], rs, on) + [row]
  {
    var l := ls[|ls| - 1];
    if SomeMatch(l, rs, on) {
      var k := TheMatch(l, rs, on);
      row := (l, Some(rs[k]));
    } else {
      NoMatches(l, rs, on);
      row := (l, None);
    }
  }

  /** Which row a match is found in does not depend on the order of the table. */
  lemma {:induction false} SameMatches<L, R>(l: L, rs: seq<R>, qs: seq<R>, on: (L, R) -> bool)
    requires AtMostOneMatch(l, rs, on) && AtMostOneMatch(l, qs, on)
    requires (forall i | 0 <= i < |rs| :: rs[i] in qs) && (forall i | 0 <= i < |qs| :: qs[i] in rs)
    ensures MatchesOf(l, rs, on) == MatchesOf(l, qs, on)
  {
    if SomeMatch(l, rs, on) {
      var i :| 0 <= i < |rs| && on(l, rs[i]);
      var j :| 0 <= j < |qs| && qs[j] == rs[i];
      OneMatch(l, rs, on, i);
      OneMatch(l, qs, on, j);
    } else {
      forall j | 0 <= j < |qs| ensures !on(l, qs[j]) {
        var i :| 0 <= i < |rs| && rs[i] == qs[j];
      }
      NoMatches(l, rs, on);
      NoMatches(l, qs, on);
    }
  }

  lemma {:induction false} JoinIgnoresOrder<L, R>(ls: seq<L>, rs: seq<R>, qs: seq<R>, on: (L, R) -> bool)
    requires forall i | 0 <= i < |ls| :: AtMostOneMatch(ls[i], rs, on) && AtMostOneMatch(ls[i], qs, on)
    requires (forall i | 0 <= i < |rs| :: rs[i] in qs) && (forall i | 0 <= i < |qs| :: qs[i] in rs)
    ensures InnerJoin(ls, rs, on) == InnerJoin(ls, qs, on)
  {
    if ls != [] {
      SameMatches(ls[|ls| - 1], rs, qs, on);
      JoinIgnoresOrder(ls[..|ls| - 1], rs, qs, on);
    }
  }

  ghost predicate IsJoined<L, R>(x: (L, R), ls: seq<L>, rs: seq<R>, on: (L, R) -> bool) {
    x.0 in ls && x.1 in rs && on(x.0, x.1)
  }

  lemma {:induction false} MatchesAreRows<L, R>(l: L, rs: seq<R>, on: (L, R) -> bool)
    ensures forall k | 0 <= k < |MatchesOf(l, rs, on)| ::
              MatchesOf(l, rs, on)[k] in rs && on(l, MatchesOf(l, rs, on)[k])
    ensures SomeMatch(l, rs, on) ==> MatchesOf(l, rs, on) != []
  {
    if rs != [] {
      MatchesAreRows(l, rs[..|rs| - 1], on);
      if SomeMatch(l, rs, on) && !on(l, rs[|rs| - 1]) {
        var i :| 0 <= i < |rs| && on(l, rs[i]);
        assert on(l, rs[..|rs| - 1][i]);
      }
    }
  }

  /** Every row of an inner join is a matching pair of rows. */
  lemma {:induction false} InnerJoinRows<L, R>(ls: seq<L>, rs: seq<R>, on: (L, R) -> bool)
    ensures forall k | 0 <= k < |InnerJoin(ls, rs, on)| :: IsJoined(InnerJoin(ls, rs, on)[k], ls, rs, on)
  {
    if ls != [] {
      var before := InnerJoin(ls[..|ls| - 1], rs, on);
      InnerJoinRows(ls[..|ls| - 1], rs, on);
      MatchesAreRows(ls[|ls| - 1], rs, on);
      forall k | 0 <= k < |before| ensures IsJoined(InnerJoin(ls, rs, on)[k], ls, rs, on) {
        assert IsJoined(before[k], ls[..|ls| - 1], rs, on);
      }
    }
  }

  /** A left row that has a match is in the join. */
  lemma {:induction false} InnerJoinCovers<L, R>(ls: seq<L>, rs: seq<R>, on: (L, R) -> bool, i: nat) returns (k: nat)
    requires i < |ls| && SomeMatch(ls[i], rs, on)
    ensures k < |InnerJoin(ls, rs, on)| && InnerJoin(ls, rs, on)[k].0 == ls[i]
  {
    if i < |ls| - 1 {
      k := InnerJoinCovers(ls[..|ls| - 1], rs, on, i);
    } else {
      MatchesAreRows(ls[i], rs, on);
      k := |InnerJoin(ls[..i], rs, on)|;
    }
  }

  /** With at most one match each, distinct left rows stay distinct: no row is repeated. */
  lemma {:induction false} InnerJoinRepeatsNothing<L, R>(ls: seq<L>, rs: seq<R>, on: (L, R) -> bool)
    requires forall i | 0 <= i < |ls| :: AtMostOneMatch(ls[i], rs, on)
    requires forall i, j | 0 <= i < j < |ls| :: ls[i] != ls[j]
    ensures forall j, k | 0 <= j < k < |InnerJoin(ls, rs, on)| ::
              InnerJoin(ls, rs, on)[j].0 != InnerJoin(ls, rs, on)[k].0
  {
    if ls != [] {
      var n := |ls| - 1;
      var before := InnerJoin(ls[..n], rs, on);
      InnerJoinRepeatsNothing(ls[..n], rs, on);
      InnerJoinRows(ls[..n], rs, on);
      AtMostOneFound(ls[n], rs, on);
      forall j | 0 <= j < |before| ensures before[j].0 != ls[n] {
        assert IsJoined(before[j], ls[..n], rs, on);
      }
    }
  }

  lemma {:induction false} AtMostOneFound<L, R>(l: L, rs: seq<R>, on: (L, R) -> bool)
    requires AtMostOneMatch(l, rs, on)
    ensures |MatchesOf(l, rs, on)| <= 1
  {
    if SomeMatch(l, rs, on) {
      var k :| 0 <= k < |rs| && on(l, rs[k]);
      OneMatch(l, rs, on, k);
    } else {
      NoMatches(l, rs, on);
    }
  }

  // ---------------------------------------------------------------- grouping

  ghost predicate NoDuplicates<K>(keys: seq<K>) {
    forall i, j | 0 <= i < j < |keys| :: keys[i] != keys[j]
  }

  /** The distinct keys of the rows that have one, in order of first appearance. */
  function GroupKeys<T, K(==)>(rows: seq<T>, key: T -> Option<K>): (keys: seq<K>)
    ensures NoDuplicates(keys)
    ensures forall i | 0 <= i < |rows| && key(rows[i]).Some? :: key(rows[i]).value in keys
    ensures forall k | k in keys :: exists i :: 0 <= i < |rows| && key(rows[i]) == Some(k)
  {
    if rows == [] then []
    else
      var before := GroupKeys(rows[..|rows| - 1], key);
      var last := key(rows[|rows| - 1]);
      if last.None? || last.value in before then
        assert forall k | k in before :: exists i :: 0 <= i < |rows| && key(rows[i]) == Some(k) by {
          forall k | k in before ensures exists i :: 0 <= i < |rows| && key(rows[i]) == Some(k) {
            var i :| 0 <= i < |rows| - 1 && key(rows[..|rows| - 1][i]) == Some(k);
            assert key(rows[i]) == Some(k);
          }
        }
        before
      else
        assert forall k | k in before + [last.value] :: exists i :: 0 <= i < |rows| && key(rows[i]) == Some(k) by {
          forall k | k in before + [last.value] ensures exists i :: 0 <= i < |rows| && key(rows[i]) == Some(k) {
            if k in before {
              var i :| 0 <= i < |rows| - 1 && key(rows[..|rows| - 1][i]) == Some(k);
              assert key(rows[i]) == Some(k);
            } else {
              assert key(rows[|rows| - 1]) == Some(k);
            }
          }
        }
        before + [last.value]
  }

  /** The distinct keys as a set: what count(distinct ...) counts. */
  function KeySet<T, K(==)>(rows: seq<T>, key: T -> Option<K>): set<K> {
    set i | 0 <= i < |rows| && key(rows[i]).Some? :: key(rows[i]).value
  }

  lemma {:induction false} KeysAreSet<T, K>(rows: seq<T>, key: T -> Option<K>, k: K)
    ensures k in KeySet(rows, key) <==> k in GroupKeys(rows, key)
  {
  }

  lemma KeySetGrows<T, K>(rows: seq<T>, key: T -> Option<K>)
    requires rows != []
    ensures var last := key(rows[|rows| - 1]);
            KeySet(rows, key) == KeySet(rows[..|rows| - 1], key) + if last.None? then {} else {last.value}
  {
    var before := rows[..|rows| - 1];
    assert forall i | 0 <= i < |before| :: before[i] == rows[i];
  }

  lemma {:induction false} DistinctKeysCounted<T, K>(rows: seq<T>, key: T -> Option<K>)
    ensures |GroupKeys(rows, key)| == |KeySet(rows, key)|
  {
    if rows == [] {
      assert KeySet(rows, key) == {};
    } else {
      var before, last := rows[..|rows| - 1], key(rows[|rows| - 1]);
      DistinctKeysCounted(before, key);
      KeySetGrows(rows, key);
      if last.Some? { KeysAreSet(before, key, last.value); }
    }
  }

  /** The sum over the rows of one group. */
  function GroupSum<T, K(==)>(rows: seq<T>, key: T -> Option<K>, k: K, amount: T -> int): int {
    if rows == [] then 0
    else
      var last := rows[|rows| - 1];
      GroupSum(rows[..|rows| - 1], key, k, amount) + if key(last) == Some(k) then amount(last) else 0
  }

  // The group sums of the listed keys, added up.
  function SumOfGroups<T, K(==)>(rows: seq<T>, key: T -> Option<K>, keys: seq<K>, amount: T -> int): int {
    if keys == [] then 0
    else SumOfGroups(rows, key, keys[..|keys| - 1], amount) + GroupSum(rows, key, keys[|keys| - 1], amount)
  }

  lemma {:induction false} LastRowInGroups<T, K>(rows: seq<T>, key: T -> Option<K>, keys: seq<K>, amount: T -> int)
    requires rows != [] && NoDuplicates(keys)
    ensures var last := rows[|rows| - 1];
            SumOfGroups(rows, key, keys, amount) ==
            SumOfGroups(rows[..|rows| - 1], key, keys, amount)
            + if key(last).Some? && key(last).value in keys then amount(last) else 0
  {
    if keys != [] {
      LastRowInGroups(rows, key, keys[..|keys| - 1], amount);
    }
  }

  /**
    Distinct keys that cover the rows that have one partition them: the group sums add up to the plain sum over
    those rows.
   */
  lemma {:induction false} GroupSumsAddUp<T, K>(
      rows: seq<T>, key: T -> Option<K>, keys: seq<K>, amount: T -> int, weight: T -> int)
    requires NoDuplicates(keys)
    requires forall i | 0 <= i < |rows| ::
               if key(rows[i]).Some? then key(rows[i]).value in keys && weight(rows[i]) == amount(rows[i])
               else weight(rows[i]) == 0
    ensures SumOfGroups(rows, key, keys, amount) == Sum(rows, weight)
  {
    if rows == [] {
      EmptyGroups(key, keys, amount);
      assert rows == [];
    } else {
      LastRowInGroups(rows, key, keys, amount);
      GroupSumsAddUp(rows[..|rows| - 1], key, keys, amount, weight);
    }
  }

  lemma {:induction false} EmptyGroups<T, K>(key: T -> Option<K>, keys: seq<K>, amount: T -> int)
    ensures SumOfGroups<T, K>([], key, keys, amount) == 0
  {
    if keys != [] { EmptyGroups(key, keys[..|keys| - 1], amount); }
  }

  /** A table with one row per key, holding the group sums, totals what the rows total. */
  lemma {:induction false} TableOfGroupSums<T, K, G>(
      rows: seq<T>, key: T -> Option<K>, keys: seq<K>, amount: T -> int, groups: seq<G>, total: G -> int)
    requires |groups| == |keys|
    requires forall i | 0 <= i < |keys| :: total(groups[i]) == GroupSum(rows, key, keys[i], amount)
    ensures Sum(groups, total) == SumOfGroups(rows, key, keys, amount)
  {
    if keys != [] {
      TableOfGroupSums(rows, key, keys[..|keys| - 1], amount, groups[..|groups| - 1], total);
    }
  }

  // ---------------------------------------------------------------- scans and keyed tables

  /** The rows of a stored table, in some order: each key exactly once. */
  ghost predicate IsScan<K, V>(rows: seq<(K, V)>, table: map<K, V>) {
    && (forall i, j | 0 <= i < j < |rows| :: rows[i].0 != rows[j].0)
    && (forall i | 0 <= i < |rows| :: rows[i].0 in table && table[rows[i].0] == rows[i].1)
    && (forall k | k in table :: exists i :: 0 <= i < |rows| && rows[i].0 == k)
  }

  lemma {:induction false} ScanExists<K, V>(table: map<K, V>) returns (rows: seq<(K, V)>)
    ensures IsScan(rows, table)
    decreases |table|
  {
    if |table| == 0 {
      rows := [];
      assert table == map[];
    } else {
      var k :| k in table;
      var rest := ScanExists(table - {k});
      rows := rest + [(k, table[k])];
      ScanExtends(rest, table, k);
    }
  }

  lemma ScanExtends<K, V>(rest: seq<(K, V)>, table: map<K, V>, k: K)
    requires k in table && IsScan(rest, table - {k})
    ensures IsScan(rest + [(k, table[k])], table)
  {
    var rows := rest + [(k, table[k])];
    forall x | x in table ensures exists i :: 0 <= i < |rows| && rows[i].0 == x {
      if x == k {
        assert rows[|rest|].0 == x;
      } else {
        assert x in table - {k};
        var i :| 0 <= i < |rest| && rest[i].0 == x;
        assert rows[i].0 == x;
      }
    }
  }

  /** One fixed scan order of a table. */
  ghost function Scan<K(!new), V(!new)>(table: map<K, V>): (rows: seq<(K, V)>)
    ensures IsScan(rows, table)
  {
    ScanLemma(table);
    var rows :| IsScan(rows, table);
    rows
  }

  lemma ScanLemma<K(!new), V(!new)>(table: map<K, V>)
    ensures exists rows: seq<(K, V)> :: IsScan(rows, table)
  {
    var rows := ScanExists(table);
  }
}
