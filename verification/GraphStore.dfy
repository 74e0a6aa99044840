/**
 The off-mode procurement store: insertion-ordered tables and secondary key
 indexes over joined strings.

 The on-mode behaviour it stands in for is a relational one: the first row with
 these two column values, or a new row.
 */
module GraphStore {
  import opened Wrappers

  // ---------------------------------------------------------------------
  // Insertion-ordered tables
  // ---------------------------------------------------------------------

  datatype Dict<V> = Dict(keys: seq<string>, at: map<string, V>)

  function Put<V>(d: Dict<V>, key: string, value: V): Dict<V> {
    Dict(if key in d.at then d.keys else d.keys + [key], d.at[key := value])
  }

  ghost predicate Ordered<V(!new)>(d: Dict<V>) {
    && (forall i, j :: 0 <= i < j < |d.keys| ==> d.keys[i] != d.keys[j])
    && (forall k :: k in d.keys <==> k in d.at)
  }

  function Rows<V>(d: Dict<V>, keys: seq<string>): seq<V>
    requires forall k :: k in keys ==> k in d.at
  {
    if keys == [] then [] else Rows(d, keys[..|keys| - 1]) + [d.at[keys[|keys| - 1]]]
  }

  lemma {:induction false} RowsAt<V>(d: Dict<V>, keys: seq<string>)
    requires forall k :: k in keys ==> k in d.at
    ensures |Rows(d, keys)| == |keys|
    ensures forall i :: 0 <= i < |keys| ==> Rows(d, keys)[i] == d.at[keys[i]]
  {
    if keys != [] {
      RowsAt(d, keys[..|keys| - 1]);
    }
  }

  // ---------------------------------------------------------------------
  // Get-or-create through a joined key, and its relational meaning
  // ---------------------------------------------------------------------

  /** A row found by two columns: an actor by (name, type), a project by
      (buyer, product summary). */
  datatype Row<E> = Row(id: string, left: string, right: string, extra: E)

  datatype KeyStore<E> = KeyStore(rows: Dict<Row<E>>, index: map<string, string>)

  function JoinKey(left: string, right: string): string {
    left + ":" + right
  }

  ghost predicate IndexValid<E(!new)>(s: KeyStore<E>) {
    && Ordered(s.rows)
    && (forall id :: id in s.rows.at ==> s.rows.at[id].id == id)
    && (forall key :: key in s.index ==>
          && s.index[key] in s.rows.at
          && JoinKey(s.rows.at[s.index[key]].left, s.rows.at[s.index[key]].right) == key)
    && (forall id :: id in s.rows.at ==>
          && JoinKey(s.rows.at[id].left, s.rows.at[id].right) in s.index
          && s.index[JoinKey(s.rows.at[id].left, s.rows.at[id].right)] == id)
  }

  datatype Request<E> = Request(left: string, right: string, extra: E, freshId: string)

  function AddRow<E>(s: KeyStore<E>, q: Request<E>): KeyStore<E> {
    KeyStore(Put(s.rows, q.freshId, Row(q.freshId, q.left, q.right, q.extra)),
             s.index[JoinKey(q.left, q.right) := q.freshId])
  }

  function StoreAfter<E>(s: KeyStore<E>, q: Request<E>): KeyStore<E> {
    if JoinKey(q.left, q.right) in s.index then s else AddRow(s, q)
  }

  function RowReturned<E(!new)>(s: KeyStore<E>, q: Request<E>): Row<E>
    requires IndexValid(s)
  {
    var key := JoinKey(q.left, q.right);
    if key in s.index then s.rows.at[s.index[key]] else Row(q.freshId, q.left, q.right, q.extra)
  }

  predicate HasColumns<E>(row: Row<E>, left: string, right: string) {
    row.left == left && row.right == right
  }

  /** The on-mode query: the first row with these two columns. */
  function FirstWith<E>(rows: seq<Row<E>>, left: string, right: string): Option<Row<E>> {
    if rows == [] then None
    else if HasColumns(rows[0], left, right) then Some(rows[0])
    else FirstWith(rows[1..], left, right)
  }

  function TableAfter<E>(rows: seq<Row<E>>, q: Request<E>): seq<Row<E>> {
    if FirstWith(rows, q.left, q.right).Some? then rows else rows + [Row(q.freshId, q.left, q.right, q.extra)]
  }

  function TableReturned<E>(rows: seq<Row<E>>, q: Request<E>): Row<E> {
    match FirstWith(rows, q.left, q.right)
    case Some(row) => row
    case None => Row(q.freshId, q.left, q.right, q.extra)
  }

  /** The column values present in a table. */
  ghost function Columns<E>(rows: seq<Row<E>>): set<(string, string)> {
    set row | row in rows :: (row.left, row.right)
  }

  lemma {:induction false} FirstWithFinds<E>(rows: seq<Row<E>>, left: string, right: string)
    ensures FirstWith(rows, left, right).Some? <==> (left, right) in Columns(rows)
    ensures FirstWith(rows, left, right).Some? ==>
              && HasColumns(FirstWith(rows, left, right).value, left, right)
              && FirstWith(rows, left, right).value in rows
  {
    if rows != [] {
      FirstWithFinds(rows[1..], left, right);
      assert forall row :: row in rows <==> row == rows[0] || row in rows[1..];
    }
  }

  /** The off-mode store holds exactly the on-mode table, in the same order. */
  ghost predicate Refines<E(!new)>(s: KeyStore<E>, table: seq<Row<E>>) {
    IndexValid(s) && table == Rows(s.rows, s.rows.keys)
  }

  /** Some row with other columns already uses the joined key of this request. */
  ghost predicate Collides<E(!new)>(table: seq<Row<E>>, q: Request<E>) {
    exists row :: row in table && JoinKey(row.left, row.right) == JoinKey(q.left, q.right)
                  && !HasColumns(row, q.left, q.right)
  }

  lemma PutOrdered<V(!new)>(d: Dict<V>, key: string, value: V)
    requires Ordered(d) && key !in d.at
    ensures Ordered(Put(d, key, value))
  {
    var t := Put(d, key, value);
    assert t.keys == d.keys + [key];
    assert forall k :: k in t.keys <==> k in d.keys || k == key;
  }

  lemma AddRowValid<E(!new)>(s: KeyStore<E>, q: Request<E>)
    requires IndexValid(s) && q.freshId !in s.rows.at && JoinKey(q.left, q.right) !in s.index
    ensures IndexValid(AddRow(s, q))
  {
    PutOrdered(s.rows, q.freshId, Row(q.freshId, q.left, q.right, q.extra));
    var t := AddRow(s, q);
    forall id | id in t.rows.at
      ensures t.rows.at[id].id == id
      ensures JoinKey(t.rows.at[id].left, t.rows.at[id].right) in t.index
      ensures t.index[JoinKey(t.rows.at[id].left, t.rows.at[id].right)] == id
    {
      assert id == q.freshId || (id in s.rows.at && t.rows.at[id] == s.rows.at[id]);
    }
  }

  lemma IndexStaysValid<E(!new)>(s: KeyStore<E>, q: Request<E>)
    requires IndexValid(s) && q.freshId !in s.rows.at
    ensures IndexValid(StoreAfter(s, q))
    ensures RowReturned(s, q).id in StoreAfter(s, q).rows.at
    ensures StoreAfter(s, q).rows.at[RowReturned(s, q).id] == RowReturned(s, q)
  {
    if JoinKey(q.left, q.right) !in s.index {
      AddRowValid(s, q);
    }
  }

  lemma {:induction false} RowsFrame<V>(d: Dict<V>, d': Dict<V>, keys: seq<string>)
    requires forall k :: k in keys ==> k in d.at && k in d'.at && d.at[k] == d'.at[k]
    ensures Rows(d, keys) == Rows(d', keys)
  {
    if keys != [] {
      RowsFrame(d, d', keys[..|keys| - 1]);
    }
  }

  lemma RowsUnchanged<E(!new)>(d: Dict<E>, key: string, value: E)
    requires Ordered(d) && key !in d.at
    ensures forall k :: k in Put(d, key, value).keys ==> k in Put(d, key, value).at
    ensures Rows(Put(d, key, value), Put(d, key, value).keys) == Rows(d, d.keys) + [value]
  {
    var d' := Put(d, key, value);
    assert d'.keys[..|d'.keys| - 1] == d.keys;
    RowsFrame(d, d', d.keys);
  }

  /** One call: the store keeps agreeing with the table and answers alike exactly
      when the joined key is not already taken by other columns. */
  lemma StepRefinesExactly<E(!new)>(s: KeyStore<E>, table: seq<Row<E>>, q: Request<E>)
    requires Refines(s, table) && q.freshId !in s.rows.at
    ensures RowReturned(s, q) == TableReturned(table, q) <==> !Collides(table, q)
    ensures !Collides(table, q) ==> Refines(StoreAfter(s, q), TableAfter(table, q))
  {
    FirstWithFinds(table, q.left, q.right);
    TableHasOneRowPerKey(s, table);
    var key := JoinKey(q.left, q.right);
    if key in s.index {
      var row := s.rows.at[s.index[key]];
      assert row in table;
      assert forall other :: other in table && JoinKey(other.left, other.right) == key ==> other == row;
    } else {
      IndexStaysValid(s, q);
      assert forall other :: other in table ==> JoinKey(other.left, other.right) != key;
      RowsUnchanged(s.rows, q.freshId, Row(q.freshId, q.left, q.right, q.extra));
    }
  }

  lemma TableHasOneRowPerKey<E(!new)>(s: KeyStore<E>, table: seq<Row<E>>)
    requires Refines(s, table)
    ensures forall row :: row in table <==> row.id in s.rows.at && s.rows.at[row.id] == row
    ensures forall row :: row in table ==>
              JoinKey(row.left, row.right) in s.index && s.index[JoinKey(row.left, row.right)] == row.id
  {
    RowsAt(s.rows, s.rows.keys);
    forall row | row in table
      ensures row.id in s.rows.at && s.rows.at[row.id] == row
    {
      var i :| 0 <= i < |table| && table[i] == row;
      assert s.rows.keys[i] in s.rows.keys;
    }
    forall id | id in s.rows.at
      ensures s.rows.at[id] in table
    {
      var i :| 0 <= i < |s.rows.keys| && s.rows.keys[i] == id;
      assert table[i] == s.rows.at[id];
    }
  }

  // Call sequences

  function RunStore<E>(s: KeyStore<E>, qs: seq<Request<E>>): KeyStore<E> {
    if qs == [] then s else StoreAfter(RunStore(s, qs[..|qs| - 1]), qs[|qs| - 1])
  }

  /** No request of the sequence reuses an id of the store or of another request. */
  ghost predicate FreshFor<E(!new)>(s: KeyStore<E>, qs: seq<Request<E>>) {
    FreshIds(qs) && forall i :: 0 <= i < |qs| ==> qs[i].freshId !in s.rows.at
  }

  /** Rows and index entries of the store survive every later call sequence. */
  lemma {:induction false} RunKeepsRows<E(!new)>(s: KeyStore<E>, qs: seq<Request<E>>)
    requires IndexValid(s) && FreshFor(s, qs)
    ensures IndexValid(RunStore(s, qs))
    ensures forall id :: id in s.rows.at ==> id in RunStore(s, qs).rows.at && RunStore(s, qs).rows.at[id] == s.rows.at[id]
    ensures forall key :: key in s.index ==> key in RunStore(s, qs).index && RunStore(s, qs).index[key] == s.index[key]
    ensures forall id :: id in RunStore(s, qs).rows.at ==> id in s.rows.at || exists m :: 0 <= m < |qs| && qs[m].freshId == id
  {
    if qs != [] {
      var n := |qs| - 1;
      RunKeepsRows(s, qs[..n]);
      var t := RunStore(s, qs[..n]);
      forall id | id in t.rows.at && id !in s.rows.at
        ensures exists m :: 0 <= m < n && qs[m].freshId == id
      {
        var m :| 0 <= m < n && qs[..n][m].freshId == id;
        assert qs[m].freshId == id;
      }
      IndexStaysValid(t, qs[n]);
    }
  }

  /** Asking again for the same columns, with whatever defaults and after any later
      calls, returns the same row and adds none. */
  lemma GetOrCreateIsIdempotent<E(!new)>(s: KeyStore<E>, q: Request<E>, later: seq<Request<E>>, again: Request<E>)
    requires IndexValid(s) && q.freshId !in s.rows.at && again.left == q.left && again.right == q.right
    requires FreshFor(StoreAfter(s, q), later)
    ensures IndexValid(RunStore(StoreAfter(s, q), later))
    ensures StoreAfter(RunStore(StoreAfter(s, q), later), again) == RunStore(StoreAfter(s, q), later)
    ensures RowReturned(RunStore(StoreAfter(s, q), later), again) == RowReturned(s, q)
  {
    IndexStaysValid(s, q);
    RunKeepsRows(StoreAfter(s, q), later);
  }

  function RunTable<E>(rows: seq<Row<E>>, qs: seq<Request<E>>): seq<Row<E>> {
    if qs == [] then rows else TableAfter(RunTable(rows, qs[..|qs| - 1]), qs[|qs| - 1])
  }

  predicate FreshIds<E>(qs: seq<Request<E>>) {
    forall i, j :: 0 <= i < j < |qs| ==> qs[i].freshId != qs[j].freshId
  }

  /** Two requests of the sequence differ in columns but not in joined key. */
  predicate Ambiguous<E>(qs: seq<Request<E>>, i: nat, j: nat)
    requires i < |qs| && j < |qs|
  {
    JoinKey(qs[i].left, qs[i].right) == JoinKey(qs[j].left, qs[j].right)
    && (qs[i].left != qs[j].left || qs[i].right != qs[j].right)
  }

  ghost predicate Unambiguous<E(!new)>(qs: seq<Request<E>>) {
    forall i, j :: 0 <= i < j < |qs| ==> !Ambiguous(qs, i, j)
  }

  function Empty<E>(): KeyStore<E> {
    KeyStore(Dict([], map[]), map[])
  }

  ghost function Requested<E(!new)>(qs: seq<Request<E>>): set<(string, string)> {
    set q | q in qs :: (q.left, q.right)
  }

  /** The table holds exactly the column values requested so far. */
  lemma {:induction false} TableHoldsRequests<E(!new)>(qs: seq<Request<E>>)
    ensures Columns(RunTable([], qs)) == Requested(qs)
  {
    if qs != [] {
      var init, q := qs[..|qs| - 1], qs[|qs| - 1];
      var before, after := RunTable([], init), RunTable([], qs);
      TableHoldsRequests(init);
      FirstWithFinds(before, q.left, q.right);
      assert Requested(qs) == Requested(init) + {(q.left, q.right)} by {
        assert forall r :: r in qs <==> r in init || r == q;
      }
      var row := Row(q.freshId, q.left, q.right, q.extra);
      assert Columns(before + [row]) == Columns(before) + {(q.left, q.right)} by {
        assert forall r :: r in before + [row] <==> r in before || r == row;
      }
    }
  }

  lemma IdsComeFromRequests<E(!new)>(qs: seq<Request<E>>)
    requires FreshIds(qs)
    ensures IndexValid(RunStore(Empty(), qs))
    ensures forall id :: id in RunStore(Empty(), qs).rows.at ==> exists m :: 0 <= m < |qs| && qs[m].freshId == id
  {
    RunKeepsRows(Empty(), qs);
  }

  lemma {:induction false} UnambiguousRunsRefine<E(!new)>(qs: seq<Request<E>>)
    requires FreshIds(qs) && Unambiguous(qs)
    ensures Refines(RunStore(Empty(), qs), RunTable([], qs))
  {
    if qs != [] {
      var n := |qs| - 1;
      assert forall i, j :: 0 <= i < j < n ==> (Ambiguous(qs[..n], i, j) <==> Ambiguous(qs, i, j));
      UnambiguousRunsRefine(qs[..n]);
      CollisionMeansAmbiguous(qs, n);
      FreshForNext(qs, n);
      StepRefinesExactly(RunStore(Empty(), qs[..n]), RunTable([], qs[..n]), qs[n]);
    }
  }

  lemma FreshForNext<E(!new)>(qs: seq<Request<E>>, n: nat)
    requires FreshIds(qs) && n < |qs|
    ensures qs[n].freshId !in RunStore(Empty(), qs[..n]).rows.at
  {
    IdsComeFromRequests(qs[..n]);
  }

  lemma CollisionMeansAmbiguous<E(!new)>(qs: seq<Request<E>>, n: nat)
    requires n < |qs|
    ensures Collides(RunTable([], qs[..n]), qs[n]) <==> exists m :: 0 <= m < n && Ambiguous(qs, m, n)
  {
    var table := RunTable([], qs[..n]);
    TableHoldsRequests(qs[..n]);
    if row :| row in table && JoinKey(row.left, row.right) == JoinKey(qs[n].left, qs[n].right)
              && !HasColumns(row, qs[n].left, qs[n].right) {
      assert (row.left, row.right) in Columns(table);
      var q :| q in qs[..n] && q.left == row.left && q.right == row.right;
      var m :| 0 <= m < n && qs[m] == q;
      assert Ambiguous(qs, m, n);
    }
    if m :| 0 <= m < n && Ambiguous(qs, m, n) {
      assert qs[m] in qs[..n];
      assert (qs[m].left, qs[m].right) in Columns(table);
      var row :| row in table && row.left == qs[m].left && row.right == qs[m].right;
      assert !HasColumns(row, qs[n].left, qs[n].right);
    }
  }

  /** Call `n` of the sequence gets the row the relational table would give. */
  ghost predicate AnswersAlike<E(!new)>(qs: seq<Request<E>>, n: nat)
    requires FreshIds(qs) && n < |qs|
  {
    IdsComeFromRequests(qs[..n]);
    RowReturned(RunStore(Empty(), qs[..n]), qs[n]) == TableReturned(RunTable([], qs[..n]), qs[n])
  }

  /** Over a whole call sequence the off-mode store answers every call as the
      on-mode table would exactly when no two requests share a joined key. */
  lemma StoreRefinesTableExactly<E(!new)>(qs: seq<Request<E>>)
    requires FreshIds(qs)
    ensures (forall n :: 0 <= n < |qs| ==> AnswersAlike(qs, n)) <==> Unambiguous(qs)
  {
    if Unambiguous(qs) {
      forall n | 0 <= n < |qs|
        ensures AnswersAlike(qs, n)
      {
        UnambiguousPrefix(qs, n);
        UnambiguousRunsRefine(qs[..n]);
        AnswerDecidedByCollision(qs, n);
      }
    } else {
      var n := FirstAmbiguity(qs, |qs|);
      UnambiguousRunsRefine(qs[..n]);
      AnswerDecidedByCollision(qs, n);
      assert !AnswersAlike(qs, n);
    }
  }

  /** A concrete collision: the second request is answered with the first one's row,
      where the table would give it a row of its own. */
  lemma CollisionExample() returns (qs: seq<Request<()>>)
    ensures FreshIds(qs) && |qs| == 2 && Ambiguous(qs, 0, 1) && !AnswersAlike(qs, 1)
    ensures IndexValid(RunStore(Empty(), qs[..1]))
    ensures RowReturned(RunStore(Empty(), qs[..1]), qs[1]) == Row("1", "a:b", "c", ())
    ensures TableReturned(RunTable([], qs[..1]), qs[1]) == Row("2", "a", "b:c", ())
  {
    qs := [Request("a:b", "c", (), "1"), Request("a", "b:c", (), "2")];
    assert qs[..1][..0] == [] && qs[..1][0] == qs[0];
    assert JoinKey("a:b", "c") == JoinKey("a", "b:c");
    IdsComeFromRequests(qs[..1]);
    assert RunStore(Empty(), qs[..1]) == StoreAfter(Empty(), qs[0]);
    assert RunTable([], qs[..1]) == TableAfter([], qs[0]) == [Row("1", "a:b", "c", ())];
  }

  lemma UnambiguousPrefix<E(!new)>(qs: seq<Request<E>>, n: nat)
    requires n <= |qs| && forall i, j :: 0 <= i < j < n ==> !Ambiguous(qs, i, j)
    ensures Unambiguous(qs[..n])
  {
    assert forall i, j :: 0 <= i < j < n ==> (Ambiguous(qs[..n], i, j) <==> Ambiguous(qs, i, j));
  }

  lemma AnswerDecidedByCollision<E(!new)>(qs: seq<Request<E>>, n: nat)
    requires FreshIds(qs) && n < |qs| && Refines(RunStore(Empty(), qs[..n]), RunTable([], qs[..n]))
    ensures AnswersAlike(qs, n) <==> forall m :: 0 <= m < n ==> !Ambiguous(qs, m, n)
  {
    FreshForNext(qs, n);
    CollisionMeansAmbiguous(qs, n);
    StepRefinesExactly(RunStore(Empty(), qs[..n]), RunTable([], qs[..n]), qs[n]);
  }

  lemma {:induction false} FirstAmbiguity<E(!new)>(qs: seq<Request<E>>, bound: nat) returns (n: nat)
    requires bound <= |qs| && exists i, j :: 0 <= i < j < bound && Ambiguous(qs, i, j)
    ensures n < bound && Unambiguous(qs[..n])
    ensures exists m :: 0 <= m < n && Ambiguous(qs, m, n)
  {
    if i, j :| 0 <= i < j < bound - 1 && Ambiguous(qs, i, j) {
      n := FirstAmbiguity(qs, bound - 1);
    } else {
      n := bound - 1;
      UnambiguousPrefix(qs, n);
    }
  }

  /** One colon-free component is enough for the joined key to be unambiguous:
      the second for actors, the first (a generated id) for projects. */
  lemma JoinKeyInjective(l1: string, r1: string, l2: string, r2: string)
    requires JoinKey(l1, r1) == JoinKey(l2, r2)
    requires (':' !in r1 && ':' !in r2) || (':' !in l1 && ':' !in l2)
    ensures l1 == l2 && r1 == r2
  {
    var k := JoinKey(l1, r1);
    assert forall i :: 0 <= i < |l1| ==> k[i] == l1[i];
    assert forall i :: 0 <= i < |l2| ==> k[i] == l2[i];
    assert forall i :: |l1| < i < |k| ==> k[i] == r1[i - |l1| - 1];
    assert forall i :: |l2| < i < |k| ==> k[i] == r2[i - |l2| - 1];
    assert k[|l1|] == ':' && k[|l2|] == ':';
    assert |l1| == |l2|;
    assert l1 == k[..|l1|] && r1 == k[|l1| + 1..];
    assert l2 == k[..|l2|] && r2 == k[|l2| + 1..];
  }

  lemma ColonFreeIsUnambiguous<E(!new)>(qs: seq<Request<E>>)
    requires (forall i :: 0 <= i < |qs| ==> ':' !in qs[i].left) || (forall i :: 0 <= i < |qs| ==> ':' !in qs[i].right)
    ensures Unambiguous(qs)
  {
    forall i, j | 0 <= i < j < |qs|
      ensures !Ambiguous(qs, i, j)
    {
      if JoinKey(qs[i].left, qs[i].right) == JoinKey(qs[j].left, qs[j].right) {
        JoinKeyInjective(qs[i].left, qs[i].right, qs[j].left, qs[j].right);
      }
    }
  }
}
