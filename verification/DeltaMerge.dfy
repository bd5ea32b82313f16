/** The keyed, never-deleting merge by which Gold tables are kept, and when it equals a rebuild. */
module DeltaMerge {
  import opened Options

  ghost predicate UniqueKeys<V, K>(rows: seq<V>, key: V -> K) {
    forall i, j | 0 <= i < j < |rows| :: key(rows[i]) != key(rows[j])
  }

  predicate HasKey<V, K(==)>(rows: seq<V>, key: V -> K, k: K) {
    exists i | 0 <= i < |rows| :: key(rows[i]) == k
  }

  function WithKey<V, K(==)>(rows: seq<V>, key: V -> K, k: K): seq<V> {
    if rows == [] then []
    else
      var last := rows[|rows| - 1];
      WithKey(rows[..|rows| - 1], key, k) + if key(last) == k then [last] else []
  }

  function Updated<V, K(==)>(target: seq<V>, source: seq<V>, key: V -> K): (rows: seq<V>)
    ensures |rows| == |target|
  {
    seq(|target|, i requires 0 <= i < |target| =>
      var found := WithKey(source, key, key(target[i]));
      if found == [] then target[i] else found[0])
  }

  function Unmatched<V, K(==)>(target: seq<V>, source: seq<V>, key: V -> K): seq<V> {
    if source == [] then []
    else
      var last := source[|source| - 1];
      Unmatched(target, source[..|source| - 1], key) + if HasKey(target, key, key(last)) then [] else [last]
  }

  /**
    The merge statement: matched rows take the source row, unmatched source rows are inserted, no
    row is deleted.  It fails when one target row has two matching source rows.
   */
  function Upsert<V, K(==)>(target: seq<V>, source: seq<V>, key: V -> K): Option<seq<V>> {
    if exists i | 0 <= i < |target| :: |WithKey(source, key, key(target[i]))| >= 2 then None
    else Some(Updated(target, source, key) + Unmatched(target, source, key))
  }

  /** Two tables with the same rows under the same keys, each key once. */
  ghost predicate SameRows<V, K>(a: seq<V>, b: seq<V>, key: V -> K) {
    && UniqueKeys(a, key) && UniqueKeys(b, key)
    && (forall i | 0 <= i < |a| :: a[i] in b)
    && (forall i | 0 <= i < |b| :: b[i] in a)
  }

  ghost predicate KeysWithin<V, K>(a: seq<V>, b: seq<V>, key: V -> K) {
    forall i | 0 <= i < |a| :: HasKey(b, key, key(a[i]))
  }

  // ---------------------------------------------------------------- what a merge leaves

  lemma {:induction false} WithKeyRows<V, K>(rows: seq<V>, key: V -> K, k: K)
    ensures forall v | v in WithKey(rows, key, k) :: v in rows && key(v) == k
    ensures WithKey(rows, key, k) != [] <==> HasKey(rows, key, k)
  {
    if rows != [] {
      var before := rows[..|rows| - 1];
      WithKeyRows(before, key, k);
      if HasKey(before, key, k) {
        var i :| 0 <= i < |before| && key(before[i]) == k;
        assert key(rows[i]) == k;
      }
      if HasKey(rows, key, k) && key(rows[|rows| - 1]) != k {
        var i :| 0 <= i < |rows| && key(rows[i]) == k;
        assert key(before[i]) == k;
      }
    }
  }

  lemma {:induction false} WithUniqueKey<V, K>(rows: seq<V>, key: V -> K, i: nat)
    requires i < |rows| && UniqueKeys(rows, key)
    ensures WithKey(rows, key, key(rows[i])) == [rows[i]]
  {
    var before := rows[..|rows| - 1];
    var k := key(rows[i]);
    if i < |before| {
      assert before[i] == rows[i];
      WithUniqueKey(before, key, i);
    } else {
      WithKeyRows(before, key, k);
      assert forall j | 0 <= j < |before| :: before[j] == rows[j];
    }
  }

  lemma {:induction false} TwoWithKey<V, K>(rows: seq<V>, key: V -> K, i: nat, j: nat)
    requires i < j < |rows| && key(rows[i]) == key(rows[j])
    ensures |WithKey(rows, key, key(rows[i]))| >= 2
  {
    var before := rows[..|rows| - 1];
    if j < |before| {
      TwoWithKey(before, key, i, j);
    } else {
      WithKeyRows(before, key, key(rows[i]));
      assert key(before[i]) == key(rows[i]);
    }
  }

  lemma {:induction false} TwoRowsOfKey<V, K>(rows: seq<V>, key: V -> K, k: K) returns (i: nat, j: nat)
    requires |WithKey(rows, key, k)| >= 2
    ensures i < j < |rows| && key(rows[i]) == key(rows[j]) == k
  {
    var n := |rows| - 1;
    if |WithKey(rows[..n], key, k)| >= 2 {
      i, j := TwoRowsOfKey(rows[..n], key, k);
    } else {
      WithKeyRows(rows[..n], key, k);
      i :| 0 <= i < n && key(rows[..n][i]) == k;
      j := n;
    }
  }

  lemma {:induction false} UnmatchedRows<V, K>(target: seq<V>, source: seq<V>, key: V -> K)
    ensures var left := Unmatched(target, source, key);
            && (forall i | 0 <= i < |left| :: left[i] in source && !HasKey(target, key, key(left[i])))
            && (forall i | 0 <= i < |source| && !HasKey(target, key, key(source[i])) :: source[i] in left)
            && (UniqueKeys(source, key) ==> UniqueKeys(left, key))
  {
    if source != [] {
      var before := source[..|source| - 1];
      var last := source[|source| - 1];
      UnmatchedRows(target, before, key);
      assert source == before + [last];
      var earlier := Unmatched(target, before, key);
      if UniqueKeys(source, key) {
        forall i | 0 <= i < |earlier| ensures key(earlier[i]) != key(last) {
          assert earlier[i] in before;
          var j :| 0 <= j < |before| && before[j] == earlier[i];
          assert source[j] == before[j];
        }
      }
    }
  }

  /**
    A merge of a table with unique keys into one with unique keys succeeds, updates and inserts, and deletes
    nothing.
   */
  lemma UpsertSucceeds<V, K>(target: seq<V>, source: seq<V>, key: V -> K)
    requires UniqueKeys(target, key) && UniqueKeys(source, key)
    ensures Upsert(target, source, key).Some?
    ensures var after := Upsert(target, source, key).value;
            && UniqueKeys(after, key)
            && (forall v | v in source :: v in after)
            && (forall v | v in after :: v in source || (v in target && !HasKey(source, key, key(v))))
            && (forall v | v in target && !HasKey(source, key, key(v)) :: v in after)
  {
    forall i | 0 <= i < |target| ensures |WithKey(source, key, key(target[i]))| <= 1 {
      UniqueMatch(source, key, key(target[i]));
    }
    UpdatedRows(target, source, key);
    UnmatchedRows(target, source, key);
    var up, added := Updated(target, source, key), Unmatched(target, source, key);
    forall v | v in up + added ensures v in source || (v in target && !HasKey(source, key, key(v))) {
      var i :| 0 <= i < |up + added| && (up + added)[i] == v;
      assert v == if i < |up| then up[i] else added[i - |up|];
      assert i < |up| ==> up[i] in up;
    }
    forall v | v in source ensures v in up + added {
      if HasKey(target, key, key(v)) {
        var i :| 0 <= i < |target| && key(target[i]) == key(v);
        var j :| 0 <= j < |source| && source[j] == v;
        WithUniqueKey(source, key, j);
        assert up[i] == v;
      }
    }
    forall i, j | 0 <= i < |up| && 0 <= j < |added| ensures key(up[i]) != key(added[j]) {
      assert added[j] in added && !HasKey(target, key, key(added[j]));
      assert key(up[i]) == key(target[i]) && HasKey(target, key, key(target[i]));
    }
  }

  lemma {:induction false} UniqueMatch<V, K>(source: seq<V>, key: V -> K, k: K)
    requires UniqueKeys(source, key)
    ensures |WithKey(source, key, k)| <= 1
  {
    WithKeyRows(source, key, k);
    if HasKey(source, key, k) {
      var i :| 0 <= i < |source| && key(source[i]) == k;
      WithUniqueKey(source, key, i);
    }
  }

  lemma UpdatedRows<V, K>(target: seq<V>, source: seq<V>, key: V -> K)
    requires UniqueKeys(target, key) && UniqueKeys(source, key)
    ensures var up := Updated(target, source, key);
            && (forall i | 0 <= i < |up| :: key(up[i]) == key(target[i]))
            && UniqueKeys(up, key)
            && (forall v | v in up :: v in source || (v in target && !HasKey(source, key, key(v))))
            && (forall v | v in target && !HasKey(source, key, key(v)) :: v in up)
  {
    var up := Updated(target, source, key);
    forall i | 0 <= i < |up|
      ensures key(up[i]) == key(target[i])
      ensures if HasKey(source, key, key(target[i])) then up[i] in source else up[i] == target[i]
    {
      WithKeyRows(source, key, key(target[i]));
      var found := WithKey(source, key, key(target[i]));
      if found != [] { assert found[0] in found; }
    }
    forall v | v in target && !HasKey(source, key, key(v)) ensures v in up {
      var i :| 0 <= i < |target| && target[i] == v;
      assert up[i] == v;
    }
  }

  /** The merged table equals a rebuild exactly when every key it held is still in the view. */
  lemma MergeEqualsRebuildExactly<V, K>(target: seq<V>, view: seq<V>, key: V -> K)
    requires UniqueKeys(target, key) && UniqueKeys(view, key)
    ensures Upsert(target, view, key).Some?
    ensures SameRows(Upsert(target, view, key).value, view, key) <==> KeysWithin(target, view, key)
  {
    UpsertSucceeds(target, view, key);
    var after := Upsert(target, view, key).value;
    if SameRows(after, view, key) {
      forall i | 0 <= i < |target| ensures HasKey(view, key, key(target[i])) {
        StaysOrHasKey(target, view, after, key, i);
      }
    }
    if KeysWithin(target, view, key) {
      forall v | v in after ensures v in view {
        if v in target {
          var i :| 0 <= i < |target| && target[i] == v;
        }
      }
    }
  }

  lemma StaysOrHasKey<V, K>(target: seq<V>, view: seq<V>, after: seq<V>, key: V -> K, i: nat)
    requires i < |target| && (forall v | v in target && !HasKey(view, key, key(v)) :: v in after)
    requires forall v | v in after :: v in view
    ensures HasKey(view, key, key(target[i]))
  {
  }

  /** A view that has two rows for one key is inserted once and then fails every later merge of itself. */
  lemma RemergeFailsExactlyOnDuplicates<V, K>(view: seq<V>, key: V -> K)
    ensures Upsert([], view, key) == Some(view)
    ensures Upsert(view, view, key).None? <==> !UniqueKeys(view, key)
  {
    UnmatchedAll(view, key);
    FirstMerge(view, key);
    if UniqueKeys(view, key) {
      UpsertSucceeds(view, view, key);
    } else {
      DuplicatesFail(view, key);
    }
  }

  lemma DuplicatesFail<V, K>(view: seq<V>, key: V -> K)
    requires !UniqueKeys(view, key)
    ensures Upsert(view, view, key).None?
  {
    var i, j :| 0 <= i < j < |view| && key(view[i]) == key(view[j]);
    TwoWithKey(view, key, i, j);
  }

  lemma {:induction false} FirstMerge<V, K>(view: seq<V>, key: V -> K)
    requires Unmatched([], view, key) == view
    ensures Upsert([], view, key) == Some(view)
  {
    assert Updated([], view, key) == [];
    assert [] + view == view;
  }

  lemma {:induction false} UnmatchedAll<V, K>(view: seq<V>, key: V -> K)
    ensures Unmatched([], view, key) == view
  {
    if view != [] {
      UnmatchedAll(view[..|view| - 1], key);
      assert view == view[..|view| - 1] + [view[|view| - 1]];
    }
  }

  // ---------------------------------------------------------------- one merge after another

  /**
    Whatever the rows, a merge that succeeds leaves the keys of both sides, and it fails on a stored key with two
    source rows.
   */
  lemma {:induction false} UpsertKeys<V, K>(target: seq<V>, source: seq<V>, key: V -> K, k: K)
    ensures Upsert(target, source, key).Some? ==>
              (HasKey(Upsert(target, source, key).value, key, k) <==> HasKey(target, key, k) || HasKey(source, key, k))
    ensures HasKey(target, key, k) && |WithKey(source, key, k)| >= 2 ==> Upsert(target, source, key).None?
  {
    UnmatchedRows(target, source, key);
    UpdatedKeys(target, source, key);
    var up, left := Updated(target, source, key), Unmatched(target, source, key);
    var after := up + left;
    if HasKey(target, key, k) {
      var i :| 0 <= i < |target| && key(target[i]) == k;
      assert key(after[i]) == k;
    } else if HasKey(source, key, k) {
      var j :| 0 <= j < |source| && key(source[j]) == k;
      var m :| 0 <= m < |left| && left[m] == source[j];
      assert key(after[|up| + m]) == k;
    } else {
      forall i | 0 <= i < |after| ensures key(after[i]) != k {
        assert if i < |up| then key(after[i]) == key(target[i])
               else after[i] == left[i - |up|] && left[i - |up|] in source;
      }
    }
  }

  lemma UpdatedKeys<V, K>(target: seq<V>, source: seq<V>, key: V -> K)
    ensures forall i | 0 <= i < |target| :: key(Updated(target, source, key)[i]) == key(target[i])
  {
    forall i | 0 <= i < |target| ensures key(Updated(target, source, key)[i]) == key(target[i]) {
      WithKeyRows(source, key, key(target[i]));
      var found := WithKey(source, key, key(target[i]));
      if found != [] { assert found[0] in found; }
    }
  }

  /** The views that successive runs merge into one table; None is a run that did not get to it. */
  function MergedInOrder<V, K(==)>(views: seq<Option<seq<V>>>, key: V -> K): Option<seq<V>> {
    if views == [] then Some([])
    else
      var before, last := MergedInOrder(views[..|views| - 1], key), views[|views| - 1];
      if before.None? || last.None? then before else Upsert(before.value, last.value, key)
  }

  predicate KeyInView<V, K(==)>(views: seq<Option<seq<V>>>, key: V -> K, i: int, k: K) {
    0 <= i < |views| && views[i].Some? && HasKey(views[i].value, key, k)
  }

  predicate TwiceInView<V, K(==)>(views: seq<Option<seq<V>>>, key: V -> K, i: int, k: K) {
    0 <= i < |views| && views[i].Some? && |WithKey(views[i].value, key, k)| >= 2
  }

  ghost predicate UniqueViews<V, K>(views: seq<Option<seq<V>>>, key: V -> K) {
    forall i | 0 <= i < |views| && views[i].Some? :: UniqueKeys(views[i].value, key)
  }

  /** No key is ever lost, and none comes from nowhere. */
  lemma {:induction false} MergedKeys<V, K>(views: seq<Option<seq<V>>>, key: V -> K, k: K)
    requires MergedInOrder(views, key).Some?
    ensures HasKey(MergedInOrder(views, key).value, key, k) <==> exists i :: KeyInView(views, key, i, k)
  {
    if views != [] {
      var n := |views| - 1;
      var before := views[..n];
      MergedKeys(before, key, k);
      assert forall i :: KeyInView(before, key, i, k) ==> KeyInView(views, key, i, k);
      assert forall i :: KeyInView(views, key, i, k) ==> i == n || KeyInView(before, key, i, k);
      if views[n].Some? {
        UpsertKeys(MergedInOrder(before, key).value, views[n].value, key, k);
        assert KeyInView(views, key, n, k) <==> HasKey(views[n].value, key, k);
      }
    }
  }

  /** Some merge fails exactly when a key of one view has two rows in a later view. */
  lemma {:induction false} MergingFailsExactly<V, K(!new)>(views: seq<Option<seq<V>>>, key: V -> K)
    ensures MergedInOrder(views, key).None? <==>
            exists i, j, k :: i < j && KeyInView(views, key, i, k) && TwiceInView(views, key, j, k)
  {
    if views != [] {
      var n := |views| - 1;
      var before := views[..n];
      MergingFailsExactly(before, key);
      EarlierViews(views, key, n);
      if MergedInOrder(before, key).Some? && views[n].Some? {
        LastMergeFailsExactly(views, key);
      }
    }
  }

  lemma EarlierViews<V, K(!new)>(views: seq<Option<seq<V>>>, key: V -> K, n: nat)
    requires n <= |views|
    ensures forall i, k :: KeyInView(views[..n], key, i, k) <==> i < n && KeyInView(views, key, i, k)
    ensures forall i, k :: TwiceInView(views[..n], key, i, k) <==> i < n && TwiceInView(views, key, i, k)
  {
  }

  lemma {:induction false} LastMergeFailsExactly<V, K(!new)>(views: seq<Option<seq<V>>>, key: V -> K)
    requires views != [] && views[|views| - 1].Some? && MergedInOrder(views[..|views| - 1], key).Some?
    ensures MergedInOrder(views, key).None? <==>
            exists i, k :: i < |views| - 1 && KeyInView(views, key, i, k) && TwiceInView(views, key, |views| - 1, k)
  {
    var n := |views| - 1;
    var before, target, source := views[..n], MergedInOrder(views[..n], key).value, views[n].value;
    EarlierViews(views, key, n);
    if Upsert(target, source, key).None? {
      var m :| 0 <= m < |target| && |WithKey(source, key, key(target[m]))| >= 2;
      MergedKeys(before, key, key(target[m]));
      assert HasKey(target, key, key(target[m])) && TwiceInView(views, key, n, key(target[m]));
      var i :| KeyInView(before, key, i, key(target[m]));
      assert KeyInView(views, key, i, key(target[m]));
    }
    if i, k :| i < n && KeyInView(views, key, i, k) && TwiceInView(views, key, n, k) {
      assert KeyInView(before, key, i, k);
      MergedKeys(before, key, k);
      UpsertKeys(target, source, key, k);
    }
  }

  lemma {:induction false} MergingUniqueViews<V, K>(views: seq<Option<seq<V>>>, key: V -> K)
    requires UniqueViews(views, key)
    ensures MergedInOrder(views, key).Some? && UniqueKeys(MergedInOrder(views, key).value, key)
  {
    if views != [] {
      var n := |views| - 1;
      MergingUniqueViews(views[..n], key);
      if views[n].Some? { UpsertSucceeds(MergedInOrder(views[..n], key).value, views[n].value, key); }
    }
  }

  /**
    After a run that reached the table, it equals that run's view exactly when no earlier view had a key that is
    gone.
   */
  lemma {:induction false} MergedEqualsLastExactly<V, K>(views: seq<Option<seq<V>>>, key: V -> K)
    requires UniqueViews(views, key) && views != [] && views[|views| - 1].Some?
    ensures MergedInOrder(views, key).Some?
    ensures SameRows(MergedInOrder(views, key).value, views[|views| - 1].value, key) <==>
            forall i | 0 <= i < |views| && views[i].Some? :: KeysWithin(views[i].value, views[|views| - 1].value, key)
  {
    var n := |views| - 1;
    var before, last := views[..n], views[n].value;
    MergingUniqueViews(before, key);
    var target := MergedInOrder(before, key).value;
    MergeEqualsRebuildExactly(target, last, key);
    if KeysWithin(target, last, key) {
      forall i | 0 <= i <= n && views[i].Some? ensures KeysWithin(views[i].value, last, key) {
        ViewStaysWithin(views, key, i);
      }
    }
    if forall i | 0 <= i <= n && views[i].Some? :: KeysWithin(views[i].value, last, key) {
      forall m | 0 <= m < |target| ensures HasKey(last, key, key(target[m])) {
        MergedKeys(before, key, key(target[m]));
        assert HasKey(target, key, key(target[m]));
        var i :| KeyInView(before, key, i, key(target[m]));
        assert KeysWithin(views[i].value, last, key);
      }
    }
  }

  lemma ViewStaysWithin<V, K>(views: seq<Option<seq<V>>>, key: V -> K, i: nat)
    requires UniqueViews(views, key) && i < |views| && views[i].Some? && views[|views| - 1].Some?
    requires MergedInOrder(views[..|views| - 1], key).Some?
    requires KeysWithin(MergedInOrder(views[..|views| - 1], key).value, views[|views| - 1].value, key)
    ensures KeysWithin(views[i].value, views[|views| - 1].value, key)
  {
    var n := |views| - 1;
    var view, last, target := views[i].value, views[n].value, MergedInOrder(views[..n], key).value;
    forall m | 0 <= m < |view| ensures HasKey(last, key, key(view[m])) {
      if i < n {
        assert KeyInView(views[..n], key, i, key(view[m]));
        MergedKeys(views[..n], key, key(view[m]));
        var j :| 0 <= j < |target| && key(target[j]) == key(view[m]);
      }
    }
  }

  // ---------------------------------------------------------------- the materialization

  datatype Relation<V> = Missing | View | Table(rows: seq<V>)

  class Target<V, K(==)> {
    var relation: Relation<V>

    constructor ()
      ensures relation == Missing
    {
      relation := Missing;
    }

    /** The rows that a run merges into: those of an existing table, none otherwise. */
    function Stored(): seq<V>
      reads this
    {
      if relation.Table? then relation.rows else []
    }

    /** One run: create the table when there is none, replace a view of that name, then merge. */
    method Materialize(view: seq<V>, key: V -> K) returns (ok: bool)
      modifies this
      ensures relation.Table?
      ensures ok <==> Upsert(old(Stored()), view, key).Some?
      ensures Stored() == if ok then Upsert(old(Stored()), view, key).value else old(Stored())
    {
      if relation.Missing? {
        relation := Table([]);
      } else if relation.View? {
        relation := Missing;
        relation := Table([]);
      }
      var merged := Upsert(relation.rows, view, key);
      if merged.None? {
        return false;
      }
      relation := Table(merged.value);
      return true;
    }
  }
}
