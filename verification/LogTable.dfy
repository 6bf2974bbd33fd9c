/**
What reaches the log table. A batch is one multi-row INSERT and the record id is the primary key, so
a batch is stored whole, or not at all when one of its ids is already in the table or occurs twice.
Ids can repeat: the proxy replaces its own id by the one in the upstream's response.
 */
module LogTable {
  import opened BatchWorker

  type Id<!R> = R -> string

  ghost predicate DistinctIds<R>(id: Id<R>, rs: seq<R>) {
    forall i, j :: 0 <= i < j < |rs| ==> id(rs[i]) != id(rs[j])
  }

  /** The INSERT of `batch` succeeds. */
  ghost predicate Fits<R(!new)>(id: Id<R>, table: seq<R>, batch: seq<R>) {
    DistinctIds(id, batch) && forall i, j :: 0 <= i < |table| && 0 <= j < |batch| ==> id(table[i]) != id(batch[j])
  }

  /** The rows in the table after the batches, in the order of insertion. */
  ghost function Rows<R(!new)>(id: Id<R>, batches: seq<seq<R>>): seq<R> {
    if batches == [] then []
    else
      var n := |batches| - 1;
      var before := Rows(id, batches[..n]);
      before + if Fits(id, before, batches[n]) then batches[n] else []
  }

  /** The `i`-th batch is stored. */
  ghost predicate Stored<R(!new)>(id: Id<R>, batches: seq<seq<R>>, i: nat)
    requires i < |batches|
  {
    Fits(id, Rows(id, batches[..i]), batches[i])
  }

  lemma {:induction false} RowsDistinct<R(!new)>(id: Id<R>, batches: seq<seq<R>>)
    ensures DistinctIds(id, Rows(id, batches))
  {
    if batches != [] {
      RowsDistinct(id, batches[..|batches| - 1]);
    }
  }

  lemma {:induction false} SourceOf<R(!new)>(id: Id<R>, batches: seq<seq<R>>, x: R) returns (i: nat)
    requires x in Rows(id, batches)
    ensures i < |batches| && Stored(id, batches, i) && x in batches[i]
  {
    var n := |batches| - 1;
    if x in Rows(id, batches[..n]) {
      i := SourceOf(id, batches[..n], x);
      StoredEarlier(id, batches, i);
    } else {
      i := n;
    }
  }

  lemma {:induction false} StoredReaches<R(!new)>(id: Id<R>, batches: seq<seq<R>>, i: nat, x: R)
    requires i < |batches| && Stored(id, batches, i) && x in batches[i]
    ensures x in Rows(id, batches)
  {
    var n := |batches| - 1;
    if i < n {
      StoredEarlier(id, batches, i);
      StoredReaches(id, batches[..n], i, x);
    }
    RowsGrow(id, batches);
  }

  lemma {:induction false} RowsGrow<R(!new)>(id: Id<R>, batches: seq<seq<R>>)
    requires batches != []
    ensures
      var n := |batches| - 1;
      Rows(id, batches) == Rows(id, batches[..n]) + if Stored(id, batches, n) then batches[n] else []
  {
  }

  lemma StoredEarlier<R(!new)>(id: Id<R>, batches: seq<seq<R>>, i: nat)
    requires i < |batches| - 1
    ensures batches[..|batches| - 1][i] == batches[i]
    ensures Stored(id, batches[..|batches| - 1], i) == Stored(id, batches, i)
  {
    assert batches[..|batches| - 1][..i] == batches[..i];
  }

  /** A record reaches the table exactly when its batch is stored: no batch is stored in part. */
  lemma ReachesExactly<R(!new)>(id: Id<R>, batches: seq<seq<R>>, x: R)
    ensures x in Rows(id, batches) <==> exists i: nat :: i < |batches| && Stored(id, batches, i) && x in batches[i]
  {
    if x in Rows(id, batches) {
      var i := SourceOf(id, batches, x);
    }
    if i: nat :| i < |batches| && Stored(id, batches, i) && x in batches[i] {
      StoredReaches(id, batches, i, x);
    }
  }

  lemma DistinctParts<R(!new)>(id: Id<R>, a: seq<R>, b: seq<R>)
    ensures DistinctIds(id, a + b) <==> DistinctIds(id, a) && Fits(id, a, b)
  {
    var all := a + b;
    if DistinctIds(id, all) {
      forall i, j | 0 <= i < j < |a| ensures id(a[i]) != id(a[j]) { assert all[i] == a[i] && all[j] == a[j]; }
      forall i, j | 0 <= i < j < |b| ensures id(b[i]) != id(b[j]) {
        assert all[|a| + i] == b[i] && all[|a| + j] == b[j];
      }
      forall i, j | 0 <= i < |a| && 0 <= j < |b| ensures id(a[i]) != id(b[j]) {
        assert all[i] == a[i] && all[|a| + j] == b[j];
      }
    }
  }

  /** Everything handed over reaches the table, in order, if and only if no id repeats among it. */
  lemma {:induction false} AllReachExactly<R(!new)>(id: Id<R>, batches: seq<seq<R>>)
    ensures Rows(id, batches) == Flat(batches) <==> DistinctIds(id, Flat(batches))
  {
    RowsDistinct(id, batches);
    if batches != [] && DistinctIds(id, Flat(batches)) {
      var n := |batches| - 1;
      DistinctParts(id, Flat(batches[..n]), batches[n]);
      AllReachExactly(id, batches[..n]);
    }
  }

  /** Once the worker has ended, the table is exactly the accepted records in order if and only if their ids are all
      different. */
  lemma AcceptedReachExactly<R(!new)>(id: Id<R>, run: seq<World<R>>, events: seq<Event<R>>, n: nat)
    requires IsRun(run, events) && n < |run| && run[n].store.stopped
    ensures Rows(id, run[n].store.batches) == run[n].accepted <==> DistinctIds(id, run[n].accepted)
  {
    NothingLost(run, events, n);
    AllReachExactly(id, run[n].store.batches);
  }

  /** One repeated id keeps every other record of its batch out as well. */
  lemma RepeatLosesBatch<R(!new)>(id: Id<R>, batches: seq<seq<R>>, i: nat, x: R, y: R)
    requires i < |batches| && x in Rows(id, batches[..i]) && y in batches[i] && id(x) == id(y)
    ensures Rows(id, batches[..i + 1]) == Rows(id, batches[..i])
  {
    assert batches[..i + 1][..i] == batches[..i] && batches[..i + 1][i] == batches[i];
    var k :| 0 <= k < |Rows(id, batches[..i])| && Rows(id, batches[..i])[k] == x;
    var j :| 0 <= j < |batches[i]| && batches[i][j] == y;
    assert !Fits(id, Rows(id, batches[..i]), batches[i]);
  }
}
