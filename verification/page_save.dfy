/** The loop body of the daily crawl's `save_to_db`, item by item: the
    presence check, the insert of an absent id, and the loop invariant
    that relates the store after any prefix of a page to the store
    before it. */
module PageSave {
  import opened Records
  import opened Store

  /** The row a summary's save writes: `model_dump(exclude_none=True)`. */
  function NewRow(li: ListingItem): Row {
    Written(li.ToSaveable())
  }

  /** `f` applied to each element, in order. */
  function MapSeq<A, B>(f: A -> B, xs: seq<A>): (r: seq<B>)
    ensures |r| == |xs|
  {
    if |xs| == 0 then [] else MapSeq(f, xs[..|xs| - 1]) + [f(xs[|xs| - 1])]
  }

  /** Element `i` of the mapped sequence is `f` of element `i`. */
  lemma {:induction false} MapSeqAt<A, B>(f: A -> B, xs: seq<A>, i: nat)
    requires i < |xs|
    ensures MapSeq(f, xs)[i] == f(xs[i])
    decreases |xs|
  {
    if i < |xs| - 1 {
      assert xs[..|xs| - 1][i] == xs[i];
      MapSeqAt(f, xs[..|xs| - 1], i);
    }
  }

  /** The ids of the first `n` items that belong to table `t`. */
  function IdsBefore(items: seq<ListingItem>, n: nat, t: string): set<Value>
    requires n <= |items|
  {
    if n == 0 then {}
    else IdsBefore(items, n - 1, t) + (if items[n - 1].table == t then {items[n - 1].listingId} else {})
  }

  lemma {:induction false} IdsBeforeMembers(items: seq<ListingItem>, n: nat, t: string, k: Value)
    requires n <= |items|
    ensures k in IdsBefore(items, n, t) <==> exists i | 0 <= i < n :: items[i].table == t && items[i].listingId == k
    decreases n
  {
    if n > 0 {
      IdsBeforeMembers(items, n - 1, t, k);
    }
  }

  /** Only the first `n` items matter. */
  lemma {:induction false} IdsBeforeOfPrefix(items: seq<ListingItem>, items': seq<ListingItem>, n: nat, t: string)
    requires n <= |items| && n <= |items'| && items[..n] == items'[..n]
    ensures IdsBefore(items, n, t) == IdsBefore(items', n, t)
    decreases n
  {
    if n > 0 {
      assert items[n - 1] == items[..n][n - 1] == items'[n - 1];
      assert items[..n - 1] == items[..n][..n - 1];
      assert items'[..n - 1] == items'[..n][..n - 1];
      IdsBeforeOfPrefix(items, items', n - 1, t);
    }
  }

  /** The ids of a concatenation are those of its parts. */
  lemma {:induction false} IdsBeforeAppend(a: seq<ListingItem>, b: seq<ListingItem>, n: nat, t: string)
    requires n <= |b|
    ensures IdsBefore(a + b, |a| + n, t) == IdsBefore(a, |a|, t) + IdsBefore(b, n, t)
    decreases n
  {
    if n == 0 {
      assert (a + b)[..|a|] == a[..|a|];
      IdsBeforeOfPrefix(a + b, a, |a|, t);
    } else {
      IdsBeforeAppend(a, b, n - 1, t);
      assert (a + b)[|a| + n - 1] == b[n - 1];
    }
  }

  /** No later item among the first `n` has the id of item `i`. */
  predicate LastBefore(items: seq<ListingItem>, i: nat, n: nat)
    requires i < n <= |items|
  {
    forall j | i < j < n :: items[j].listingId != items[i].listingId
  }

  /** What `is_present_in_db` answers for item `i` when the loop reaches
      it: its table exists, and its id was stored before the page or was
      inserted for an earlier item of the page. */
  predicate CheckedPresent(db: Db, items: seq<ListingItem>, i: nat)
    requires i < |items|
  {
    var t := items[i].table;
    t in db && (items[i].listingId in db[t] || items[i].listingId in IdsBefore(items, i, t))
  }

  /** The loop body for one item: check presence, and write `row` under
      the id when the check says absent. The insert of an absent id
      succeeds whenever its table exists. */
  function SaveOne(db: Db, li: ListingItem, row: Row): (r: (Db, bool))
    ensures SavedOne(db, li, row, r)
  {
    var isPresent := li.table in db && li.listingId in db[li.table];
    if isPresent || li.table !in db then (db, isPresent)
    else (db[li.table := db[li.table][li.listingId := row]], false)
  }

  /** The store half of the loop invariant: the tables keep their rows
      and gain the ids seen so far. */
  predicate StoreInvariant(db: Db, items: seq<ListingItem>, n: nat, db': Db)
    requires n <= |items|
  {
    && db'.Keys == db.Keys
    && (forall t | t in db :: db'[t].Keys == db[t].Keys + IdsBefore(items, n, t))
    && (forall t, k | t in db && k in db[t] :: db'[t][k] == db[t][k])
  }

  /** One table's keys after two runs of the loop: what the first added
      and then what the second added. */
  lemma TableKeysAppend(keys0: set<Value>, keys1: set<Value>, keys2: set<Value>, a: seq<ListingItem>, b: seq<ListingItem>, t: string)
    requires keys1 == keys0 + IdsBefore(a, |a|, t) && keys2 == keys1 + IdsBefore(b, |b|, t)
    ensures keys2 == keys0 + IdsBefore(a + b, |a + b|, t)
  {
    IdsBeforeAppend(a, b, |b|, t);
    assert |a| + |b| == |a + b|;
  }

  /** Saving one list after another grows the store as saving their
      concatenation would. */
  lemma StoreInvariantAppend(db: Db, db1: Db, db2: Db, a: seq<ListingItem>, b: seq<ListingItem>)
    requires StoreInvariant(db, a, |a|, db1) && StoreInvariant(db1, b, |b|, db2)
    ensures StoreInvariant(db, a + b, |a + b|, db2)
  {
    forall t | t in db
      ensures db2[t].Keys == db[t].Keys + IdsBefore(a + b, |a + b|, t)
    {
      TableKeysAppend(db[t].Keys, db1[t].Keys, db2[t].Keys, a, b, t);
    }
    forall t, k | t in db && k in db[t]
      ensures db2[t][k] == db[t][k]
    {
      assert k in db1[t];
    }
  }


  /** The presence half: every id seen so far is recorded, with the
      answer of its last check. */
  predicate PresentInvariant(db: Db, items: seq<ListingItem>, n: nat, present: map<Value, bool>)
    requires n <= |items|
  {
    && (forall i | 0 <= i < n :: items[i].listingId in present)
    && (forall k | k in present :: exists i | 0 <= i < n :: items[i].listingId == k)
    && (forall i | 0 <= i < n && LastBefore(items, i, n) :: present[items[i].listingId] == CheckedPresent(db, items, i))
  }

  /** What one pass of the loop body does to the store, as `SaveOne`
      states it. */
  predicate SavedOne(db: Db, li: ListingItem, row: Row, r: (Db, bool)) {
    && (r.1 <==> li.table in db && li.listingId in db[li.table])
    && (!r.1 && li.table in db ==> r.0 == db[li.table := db[li.table][li.listingId := row]])
    && (r.1 || li.table !in db ==> r.0 == db)
  }

  /** The check of item `n` answers `CheckedPresent`. */
  lemma CheckStep(db: Db, items: seq<ListingItem>, n: nat, db': Db, row: Row, r: (Db, bool))
    requires n < |items| && StoreInvariant(db, items, n, db') && SavedOne(db', items[n], row, r)
    ensures r.1 == CheckedPresent(db, items, n)
  {
    IdsBeforeMembers(items, n, items[n].table, items[n].listingId);
  }

  lemma StoreStep(db: Db, items: seq<ListingItem>, n: nat, db': Db, row: Row, r: (Db, bool))
    requires n < |items| && StoreInvariant(db, items, n, db') && SavedOne(db', items[n], row, r)
    ensures StoreInvariant(db, items, n + 1, r.0)
  {
    var t := items[n].table;
    var id := items[n].listingId;
    var inserted := !r.1 && t in db';
    if inserted {
      PutRowFacts(db', t, id, row);
    }
    forall t' | t' in db
      ensures r.0[t'].Keys == db[t'].Keys + IdsBefore(items, n + 1, t')
    {
      if t' == t {
        assert IdsBefore(items, n + 1, t) == IdsBefore(items, n, t) + {id};
      } else {
        assert IdsBefore(items, n + 1, t') == IdsBefore(items, n, t');
      }
    }
    forall t', k | t' in db && k in db[t']
      ensures r.0[t'][k] == db[t'][k]
    {
      assert k in db'[t'];
      if inserted && t' == t {
        assert k != id by { assert k in db'[t]; }
      }
    }
  }


  /** After item `n`, the answer recorded for each last occurrence among
      the first `n + 1` items is its check. */
  lemma PresentStepAnswers(db: Db, items: seq<ListingItem>, n: nat, present: map<Value, bool>, isPresent: bool)
    requires n < |items|
    requires forall i | 0 <= i < n :: items[i].listingId in present
    requires forall i | 0 <= i < n && LastBefore(items, i, n) :: present[items[i].listingId] == CheckedPresent(db, items, i)
    requires isPresent == CheckedPresent(db, items, n)
    ensures var present' := present[items[n].listingId := isPresent];
      forall i | 0 <= i < n + 1 && LastBefore(items, i, n + 1) :: present'[items[i].listingId] == CheckedPresent(db, items, i)
  {
    var present' := present[items[n].listingId := isPresent];
    forall i | 0 <= i < n + 1 && LastBefore(items, i, n + 1)
      ensures present'[items[i].listingId] == CheckedPresent(db, items, i)
    {
      if i < n {
        assert LastBefore(items, i, n);
        assert items[i].listingId != items[n].listingId;
      }
    }
  }

  /** After item `n`, the recorded ids are exactly those of the first
      `n + 1` items. */
  lemma PresentStepKeys(items: seq<ListingItem>, n: nat, present: map<Value, bool>, isPresent: bool)
    requires n < |items|
    requires forall i | 0 <= i < n :: items[i].listingId in present
    requires forall k | k in present :: exists i | 0 <= i < n :: items[i].listingId == k
    ensures var present' := present[items[n].listingId := isPresent];
      && (forall i | 0 <= i < n + 1 :: items[i].listingId in present')
      && (forall k | k in present' :: exists i | 0 <= i < n + 1 :: items[i].listingId == k)
  {
    var present' := present[items[n].listingId := isPresent];
    forall k | k in present'
      ensures exists i | 0 <= i < n + 1 :: items[i].listingId == k
    {
      if k != items[n].listingId {
        var i :| 0 <= i < n && items[i].listingId == k;
      }
    }
  }

  lemma PresentStep(db: Db, items: seq<ListingItem>, n: nat, present: map<Value, bool>, isPresent: bool)
    requires n < |items| && PresentInvariant(db, items, n, present)
    requires isPresent == CheckedPresent(db, items, n)
    ensures PresentInvariant(db, items, n + 1, present[items[n].listingId := isPresent])
  {
    PresentStepKeys(items, n, present, isPresent);
    PresentStepAnswers(db, items, n, present, isPresent);
  }

  /** The last occurrence, among the first `n` items, of the id of item
      `i`. */
  lemma {:induction false} LastOccurrence(items: seq<ListingItem>, n: nat, i: nat) returns (j: nat)
    requires i < n <= |items|
    ensures i <= j < n && items[j].listingId == items[i].listingId && LastBefore(items, j, n)
    decreases n - i
  {
    if exists j' | i < j' < n :: items[j'].listingId == items[i].listingId {
      var j' :| i < j' < n && items[j'].listingId == items[i].listingId;
      j := LastOccurrence(items, n, j');
    } else {
      j := i;
    }
  }

  /** One pass of the loop body keeps the loop invariant. */
  lemma LoopStep(db: Db, items: seq<ListingItem>, n: nat, db': Db, present: map<Value, bool>, row: Row, r: (Db, bool))
    requires n < |items| && StoreInvariant(db, items, n, db') && PresentInvariant(db, items, n, present)
    requires SavedOne(db', items[n], row, r)
    ensures StoreInvariant(db, items, n + 1, r.0)
    ensures PresentInvariant(db, items, n + 1, present[items[n].listingId := r.1])
  {
    CheckStep(db, items, n, db', row, r);
    StoreStep(db, items, n, db', row, r);
    PresentStep(db, items, n, present, r.1);
  }

  /** The store and the `present` dict after the loop body has run on
      the first `n` items, an absent item `i` written as `rows[i]`. */
  function SaveUpTo(db: Db, items: seq<ListingItem>, rows: seq<Row>, n: nat): (Db, map<Value, bool>)
    requires n <= |items| && n <= |rows|
  {
    if n == 0 then (db, map[])
    else
      var prev := SaveUpTo(db, items, rows, n - 1);
      var r := SaveOne(prev.0, items[n - 1], rows[n - 1]);
      (r.0, prev.1[items[n - 1].listingId := r.1])
  }

  /** Whatever prefix of the page the loop has run on, the store and the
      dict meet the loop invariant. */
  lemma {:induction false} SaveUpToInvariants(db: Db, items: seq<ListingItem>, rows: seq<Row>, n: nat)
    requires n <= |items| && n <= |rows|
    ensures StoreInvariant(db, items, n, SaveUpTo(db, items, rows, n).0)
    ensures PresentInvariant(db, items, n, SaveUpTo(db, items, rows, n).1)
  {
    if n > 0 {
      var m := n - 1;
      SaveUpToInvariants(db, items, rows, m);
      var prev := SaveUpTo(db, items, rows, m);
      var r := SaveOne(prev.0, items[m], rows[m]);
      assert SaveUpTo(db, items, rows, m + 1) == (r.0, prev.1[items[m].listingId := r.1]);
      LoopStep(db, items, m, prev.0, prev.1, rows[m], r);
    }
  }

  /** What the loop leaves behind once it has run on the whole page:
      every table keeps its rows and gains exactly the page's ids, and the
      dict's values are all true iff the last check of every id found it
      present. */
  lemma SaveUpToOutcome(db: Db, items: seq<ListingItem>, rows: seq<Row>)
    requires |items| <= |rows|
    ensures SaveUpTo(db, items, rows, |items|).0.Keys == db.Keys
    ensures forall t | t in db ::
      SaveUpTo(db, items, rows, |items|).0[t].Keys == db[t].Keys + IdsBefore(items, |items|, t)
    ensures forall t, k | t in db && k in db[t] :: SaveUpTo(db, items, rows, |items|).0[t][k] == db[t][k]
    ensures var present := SaveUpTo(db, items, rows, |items|).1;
      (forall k | k in present :: present[k]) <==>
        forall i | 0 <= i < |items| && LastBefore(items, i, |items|) :: CheckedPresent(db, items, i)
  {
    SaveUpToInvariants(db, items, rows, |items|);
    AllPresentIff(db, items, SaveUpTo(db, items, rows, |items|).1);
  }

  /** After the loop, `all(present.values())` holds iff the last check of
      every id of the page found it present. */
  lemma AllPresentIff(db: Db, items: seq<ListingItem>, present: map<Value, bool>)
    requires PresentInvariant(db, items, |items|, present)
    ensures (forall k | k in present :: present[k]) <==>
      forall i | 0 <= i < |items| && LastBefore(items, i, |items|) :: CheckedPresent(db, items, i)
  {
    if forall k | k in present :: present[k] {
      forall i | 0 <= i < |items| && LastBefore(items, i, |items|)
        ensures CheckedPresent(db, items, i)
      {
        assert items[i].listingId in present;
      }
    }
    if forall i | 0 <= i < |items| && LastBefore(items, i, |items|) :: CheckedPresent(db, items, i) {
      forall k | k in present
        ensures present[k]
      {
        var i :| 0 <= i < |items| && items[i].listingId == k;
        var j := LastOccurrence(items, |items|, i);
      }
    }
  }

  /** No earlier item has the table and id of item `i`: item `i` is the
      first of the page to ask for that key. */
  predicate FirstBefore(items: seq<ListingItem>, i: nat)
    requires i < |items|
  {
    forall j | 0 <= j < i :: !(items[j].table == items[i].table && items[j].listingId == items[i].listingId)
  }

  /** The first occurrence of the key of item `i`. */
  lemma {:induction false} FirstOccurrence(items: seq<ListingItem>, i: nat) returns (j: nat)
    requires i < |items|
    ensures j <= i && items[j].table == items[i].table && items[j].listingId == items[i].listingId
    ensures FirstBefore(items, j)
    decreases i
  {
    if exists j' | 0 <= j' < i :: items[j'].table == items[i].table && items[j'].listingId == items[i].listingId {
      var j' :| 0 <= j' < i && items[j'].table == items[i].table && items[j'].listingId == items[i].listingId;
      j := FirstOccurrence(items, j');
    } else {
      j := i;
    }
  }

  /** The insert half of the loop invariant: among the first `n` items,
      the first to ask for a key the store did not hold wrote its row
      under that key. */
  predicate InsertInvariant(db: Db, items: seq<ListingItem>, rows: seq<Row>, n: nat, db': Db)
    requires n <= |items| && n <= |rows|
  {
    forall i | 0 <= i < n && FirstBefore(items, i) && items[i].table in db && items[i].listingId !in db[items[i].table] ::
      items[i].table in db' && items[i].listingId in db'[items[i].table] && db'[items[i].table][items[i].listingId] == rows[i]
  }

  /** One pass of the loop body keeps the insert half: item `n` inserts
      its row when it is the first to ask for a new key, and a key
      inserted earlier is found present and left alone. */
  lemma InsertStep(db: Db, items: seq<ListingItem>, rows: seq<Row>, n: nat, db': Db, r: (Db, bool))
    requires n < |items| && n < |rows|
    requires StoreInvariant(db, items, n, db') && InsertInvariant(db, items, rows, n, db')
    requires SavedOne(db', items[n], rows[n], r)
    ensures InsertInvariant(db, items, rows, n + 1, r.0)
  {
    var t := items[n].table;
    var id := items[n].listingId;
    if !r.1 && t in db' {
      PutRowFacts(db', t, id, rows[n]);
    }
    forall i | 0 <= i < n + 1 && FirstBefore(items, i) && items[i].table in db && items[i].listingId !in db[items[i].table]
      ensures items[i].table in r.0 && items[i].listingId in r.0[items[i].table]
      ensures r.0[items[i].table][items[i].listingId] == rows[i]
    {
      if i == n {
        IdsBeforeMembers(items, n, t, id);
        assert id !in db'[t];
      } else {
        assert items[i].listingId in db'[items[i].table];
      }
    }
  }

  /** Whatever prefix of the page the loop has run on, the insert half
      holds. */
  lemma {:induction false} SaveUpToInserts(db: Db, items: seq<ListingItem>, rows: seq<Row>, n: nat)
    requires n <= |items| && n <= |rows|
    ensures InsertInvariant(db, items, rows, n, SaveUpTo(db, items, rows, n).0)
  {
    if n > 0 {
      var m := n - 1;
      SaveUpToInserts(db, items, rows, m);
      SaveUpToInvariants(db, items, rows, m);
      var prev := SaveUpTo(db, items, rows, m);
      var r := SaveOne(prev.0, items[m], rows[m]);
      assert SaveUpTo(db, items, rows, m + 1).0 == r.0;
      InsertStep(db, items, rows, m, prev.0, r);
    }
  }

  /** What the rows the loop inserted hold: every key the store gained
      holds the row of the first item of the page that asked for it, and
      every item that first asked for a key the store lacked wrote its
      row there. */
  lemma SaveUpToNewRows(db: Db, items: seq<ListingItem>, rowOf: ListingItem -> Row)
    ensures var db' := SaveUpTo(db, items, MapSeq(rowOf, items), |items|).0;
      forall i | 0 <= i < |items| && FirstBefore(items, i) && items[i].table in db && items[i].listingId !in db[items[i].table] ::
        items[i].table in db' && items[i].listingId in db'[items[i].table] && db'[items[i].table][items[i].listingId] == rowOf(items[i])
    ensures var db' := SaveUpTo(db, items, MapSeq(rowOf, items), |items|).0;
      forall t, k | t in db && t in db' && k in db'[t] && k !in db[t] ::
        exists i | 0 <= i < |items| :: items[i].table == t && items[i].listingId == k && FirstBefore(items, i) && db'[t][k] == rowOf(items[i])
  {
    var rows := MapSeq(rowOf, items);
    var db' := SaveUpTo(db, items, rows, |items|).0;
    forall i | 0 <= i < |items|
      ensures rows[i] == rowOf(items[i])
    {
      MapSeqAt(rowOf, items, i);
    }
    SaveUpToInserts(db, items, rows, |items|);
    SaveUpToInvariants(db, items, rows, |items|);
    forall t, k | t in db && t in db' && k in db'[t] && k !in db[t]
      ensures exists i | 0 <= i < |items| :: items[i].table == t && items[i].listingId == k && FirstBefore(items, i) && db'[t][k] == rowOf(items[i])
    {
      IdsBeforeMembers(items, |items|, t, k);
      var i :| 0 <= i < |items| && items[i].table == t && items[i].listingId == k;
      var j := FirstOccurrence(items, i);
    }
  }

  /** An id repeated on a page counts as present from its second check
      on: the first check inserted it. */
  lemma RepeatedIdIsPresent(db: Db, items: seq<ListingItem>, i: nat, j: nat)
    requires i < j < |items| && items[i].table in db
    requires items[j].table == items[i].table && items[j].listingId == items[i].listingId
    ensures CheckedPresent(db, items, j)
  {
    IdsBeforeMembers(items, j, items[j].table, items[j].listingId);
  }
}
