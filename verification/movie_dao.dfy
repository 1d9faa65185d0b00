/** `data/source/MovieDao.kt`: the `movie` table and the queries the
    repository runs on it.

    The table is its rows in storage order plus SQLite's AUTOINCREMENT
    counter (the largest key ever handed out). Room binds a key of 0 as NULL
    (`autoGenerate = true`), so such a row gets a fresh key; any other key is
    inserted as given unless a row with that key exists, in which case the
    insert is ignored and reports -1. */
module MovieDao {
  import opened Prelude
  import opened Movies

  datatype Db = Db(rows: seq<MovieEntity>, lastId: int)

  /** A stored row with its key reset: what was inserted, whatever key it got. */
  function Content(e: MovieEntity): MovieEntity
  {
    e.(id := 0)
  }

  /** Keys are distinct. */
  ghost predicate DistinctKeys(rows: seq<MovieEntity>)
  {
    forall i, j :: 0 <= i < j < |rows| ==> rows[i].id != rows[j].id
  }

  /** What SQLite keeps true of the table: distinct keys, none above the
      AUTOINCREMENT counter. */
  ghost predicate Valid(db: Db)
  {
    && db.lastId >= 0
    && DistinctKeys(db.rows)
    && (forall i :: 0 <= i < |db.rows| ==> db.rows[i].id <= db.lastId)
  }

  predicate KeyTaken(db: Db, id: int)
  {
    exists i :: 0 <= i < |db.rows| && db.rows[i].id == id
  }

  /** The key SQLite's AUTOINCREMENT chooses: one above any key ever used. */
  function NextKey(db: Db): (k: int)
    ensures Valid(db) ==> !KeyTaken(db, k)
  {
    db.lastId + 1
  }

  /** The rows of one partition: `genreId` null for the top-rated list, a
      genre id otherwise. */
  function InPartition(genreId: Option<string>): MovieEntity -> bool
  {
    (e: MovieEntity) => e.genreId == genreId
  }

  function Partition(db: Db, genreId: Option<string>): (r: seq<MovieEntity>)
    ensures forall i :: 0 <= i < |r| ==> r[i].genreId == genreId && r[i] in db.rows
  {
    Filter(InPartition(genreId), db.rows)
  }

  /** Every row of the partition is returned by its query. */
  lemma PartitionComplete(db: Db, genreId: Option<string>, i: nat)
    requires i < |db.rows| && db.rows[i].genreId == genreId
    ensures db.rows[i] in Partition(db, genreId)
  {
    FilterKeeps(InPartition(genreId), db.rows, i);
  }

  /** `getTopRatedMoviesStream`, the current value: `genreId is null`. */
  function TopRatedMovies(db: Db): (r: seq<MovieEntity>)
    ensures forall i :: 0 <= i < |r| ==> r[i].genreId.None? && r[i] in db.rows
  {
    Partition(db, None)
  }

  /** `getGenreMoviesStream(genreId)`, the current value: `genreId = :genreId`
      (a null `genreId` never equals a string). */
  function GenreMovies(db: Db, genreId: string): (r: seq<MovieEntity>)
    ensures forall i :: 0 <= i < |r| ==> r[i].genreId == Some(genreId) && r[i] in db.rows
  {
    Partition(db, Some(genreId))
  }

  /** `deleteMoviesForGenre(genreId)`. */
  function DeleteMoviesForGenre(db: Db, genreId: string): (db': Db)
    ensures Partition(db', Some(genreId)) == []
    ensures forall k :: k != Some(genreId) ==> Partition(db', k) == Partition(db, k)
    ensures db'.lastId == db.lastId
  {
    DeleteGenrePartitions(db, genreId);
    Db(Filter(NotInGenre(genreId), db.rows), db.lastId)
  }

  function NotInGenre(genreId: string): MovieEntity -> bool
  {
    (e: MovieEntity) => e.genreId != Some(genreId)
  }

  lemma DeleteGenrePartitions(db: Db, genreId: string)
    ensures var db' := Db(Filter(NotInGenre(genreId), db.rows), db.lastId);
      && Partition(db', Some(genreId)) == []
      && forall k :: k != Some(genreId) ==> Partition(db', k) == Partition(db, k)
  {
    FilterOfFilterDisjoint(InPartition(Some(genreId)), NotInGenre(genreId), db.rows);
    forall k | k != Some(genreId)
      ensures Filter(InPartition(k), Filter(NotInGenre(genreId), db.rows)) == Filter(InPartition(k), db.rows)
    {
      FilterOfFilter(InPartition(k), NotInGenre(genreId), db.rows);
    }
  }

  /** Deleting rows keeps the table's keys distinct and below the counter. */
  lemma DeleteMoviesForGenreKeepsValid(db: Db, genreId: string)
    ensures Valid(db) ==> Valid(DeleteMoviesForGenre(db, genreId))
  {
    if Valid(db) {
      FilterKeepsValid(NotInGenre(genreId), db);
    }
  }

  /** `deleteMovies()`: every row goes; the AUTOINCREMENT counter stays. */
  function DeleteMovies(db: Db): (db': Db)
    ensures db'.rows == []
    ensures db'.lastId == db.lastId
  {
    Db([], db.lastId)
  }

  /** After `deleteMovies()` both queries, for every genre, return nothing. */
  lemma DeleteMoviesEmptiesEveryPartition(db: Db, genreId: Option<string>)
    ensures Partition(DeleteMovies(db), genreId) == []
    ensures TopRatedMovies(DeleteMovies(db)) == []
  {
    FilterNone(InPartition(genreId), DeleteMovies(db).rows);
    FilterNone(InPartition(None), DeleteMovies(db).rows);
  }

  /** A filtered table keeps distinct keys. */
  lemma {:induction false} FilterDistinctKeys(p: MovieEntity -> bool, rows: seq<MovieEntity>)
    requires DistinctKeys(rows)
    ensures DistinctKeys(Filter(p, rows))
    decreases |rows|
  {
    if |rows| > 0 {
      var tail := rows[1..];
      FilterDistinctKeys(p, tail);
      var f := Filter(p, tail);
      if p(rows[0]) {
        var r := [rows[0]] + f;
        assert Filter(p, rows) == r;
        forall i, j | 0 <= i < j < |r|
          ensures r[i].id != r[j].id
        {
          if i == 0 {
            assert r[j] == f[j - 1] && f[j - 1] in tail;
            var k :| 0 <= k < |tail| && tail[k] == f[j - 1];
            assert rows[k + 1] == r[j];
          } else {
            assert r[i] == f[i - 1] && r[j] == f[j - 1];
          }
        }
      }
    }
  }

  lemma FilterKeepsValid(p: MovieEntity -> bool, db: Db)
    requires Valid(db)
    ensures Valid(Db(Filter(p, db.rows), db.lastId))
  {
    FilterDistinctKeys(p, db.rows);
    var f := Filter(p, db.rows);
    forall i | 0 <= i < |f|
      ensures f[i].id <= db.lastId
    {
      assert f[i] in db.rows;
    }
  }

  /** One row of `insertOrIgnoreMovies`: its key, or -1 when it was ignored. */
  function InsertOne(db: Db, e: MovieEntity): (res: (Db, int))
    ensures Valid(db) ==> Valid(res.0)
    ensures |db.rows| <= |res.0.rows| && res.0.rows[..|db.rows|] == db.rows
    ensures e.id == 0 || !KeyTaken(db, e.id) ==>
      res.1 == (if e.id == 0 then NextKey(db) else e.id) && res.0.rows == db.rows + [e.(id := res.1)]
    ensures e.id != 0 && KeyTaken(db, e.id) ==> res == (db, -1)
  {
    if e.id == 0 then
      var k := NextKey(db);
      (Db(db.rows + [e.(id := k)], k), k)
    else if KeyTaken(db, e.id) then (db, -1)
    else (Db(db.rows + [e], if e.id > db.lastId then e.id else db.lastId), e.id)
  }

  /** `insertOrIgnoreMovies(movies)`: the rows are inserted in order; the
      result holds, per row, its key or -1 when an existing row already had
      its key. The rows already in the table are kept. */
  function InsertOrIgnoreMovies(db: Db, movies: seq<MovieEntity>): (res: (Db, seq<int>))
    ensures Valid(db) ==> Valid(res.0)
    ensures |res.1| == |movies|
    ensures |db.rows| <= |res.0.rows| && res.0.rows[..|db.rows|] == db.rows
    decreases |movies|
  {
    if |movies| == 0 then (db, [])
    else
      var first := InsertOne(db, movies[0]);
      var rest := InsertOrIgnoreMovies(first.0, movies[1..]);
      assert rest.0.rows[..|db.rows|] == first.0.rows[..|db.rows|];
      (rest.0, [first.1] + rest.1)
  }

  /** Every row that was not ignored is in the table with the key reported. */
  lemma {:induction false} InsertedRowsStored(db: Db, movies: seq<MovieEntity>)
    ensures var res := InsertOrIgnoreMovies(db, movies);
      forall i :: 0 <= i < |movies| && res.1[i] != -1 ==> movies[i].(id := res.1[i]) in res.0.rows
    decreases |movies|
  {
    if |movies| > 0 {
      var first := InsertOne(db, movies[0]);
      var rest := InsertOrIgnoreMovies(first.0, movies[1..]);
      InsertedRowsStored(first.0, movies[1..]);
      var res := InsertOrIgnoreMovies(db, movies);
      assert res == (rest.0, [first.1] + rest.1);
      forall i | 0 <= i < |movies| && res.1[i] != -1
        ensures movies[i].(id := res.1[i]) in res.0.rows
      {
        if i == 0 {
          var j :| 0 <= j < |first.0.rows| && first.0.rows[j] == movies[0].(id := first.1);
          assert rest.0.rows[j] == first.0.rows[j];
        } else {
          assert res.1[i] == rest.1[i - 1] && movies[i] == movies[1..][i - 1];
        }
      }
    }
  }

  /** Inserting a batch is inserting its first part, then the rest into the
      table that results. */
  lemma {:induction false} InsertOrIgnoreConcat(db: Db, a: seq<MovieEntity>, b: seq<MovieEntity>)
    ensures var ra := InsertOrIgnoreMovies(db, a);
      var rb := InsertOrIgnoreMovies(ra.0, b);
      InsertOrIgnoreMovies(db, a + b) == (rb.0, ra.1 + rb.1)
    decreases |a|
  {
    if |a| == 0 {
      assert a + b == b;
      assert InsertOrIgnoreMovies(db, a) == (db, []);
      assert [] + InsertOrIgnoreMovies(db, b).1 == InsertOrIgnoreMovies(db, b).1;
    } else {
      assert (a + b)[0] == a[0] && (a + b)[1..] == a[1..] + b;
      var first := InsertOne(db, a[0]);
      InsertOrIgnoreConcat(first.0, a[1..], b);
      var ra := InsertOrIgnoreMovies(first.0, a[1..]);
      var rb := InsertOrIgnoreMovies(ra.0, b);
      assert InsertOrIgnoreMovies(db, a) == (ra.0, [first.1] + ra.1);
      assert InsertOrIgnoreMovies(db, a + b) == (rb.0, [first.1] + (ra.1 + rb.1));
      assert [first.1] + (ra.1 + rb.1) == ([first.1] + ra.1) + rb.1;
    }
  }

  /** A row is ignored only when its key is already taken in the table it
      meets (the rows before it in the batch included), and ignoring it
      leaves that table as it was; a key-0 row is never ignored. The key
      stays taken to the end of the batch. */
  lemma IgnoredOnlyOnConflict(db: Db, movies: seq<MovieEntity>, i: nat)
    requires Valid(db)
    requires i < |movies| && InsertOrIgnoreMovies(db, movies).1[i] == -1 && movies[i].id != -1
    ensures movies[i].id != 0
    ensures KeyTaken(InsertOrIgnoreMovies(db, movies[..i]).0, movies[i].id)
    ensures InsertOrIgnoreMovies(db, movies[..i + 1]).0 == InsertOrIgnoreMovies(db, movies[..i]).0
    ensures KeyTaken(InsertOrIgnoreMovies(db, movies).0, movies[i].id)
  {
    var res := InsertOrIgnoreMovies(db, movies);
    var before := InsertOrIgnoreMovies(db, movies[..i]).0;
    var one := InsertOne(before, movies[i]);
    InsertOrIgnoreConcat(db, movies[..i], movies[i..]);
    assert movies[..i] + movies[i..] == movies;
    var rest := InsertOrIgnoreMovies(before, movies[i..]);
    assert movies[i..][0] == movies[i];
    assert rest.1[0] == one.1;
    assert res.1[i] == one.1;
    assert one == (before, -1);
    InsertOrIgnoreConcat(db, movies[..i], [movies[i]]);
    assert movies[..i] + [movies[i]] == movies[..i + 1];
    assert [movies[i]][1..] == [];
    var j :| 0 <= j < |before.rows| && before.rows[j].id == movies[i].id;
    assert res.0.rows[j] == before.rows[j];
  }

  /** `deleteAndInsert(genreId, movies)`, one transaction: with a genre id
      only that genre's rows are deleted; with null (the default) EVERY row
      is deleted, genre rows included. */
  function DeleteAndInsert(db: Db, genreId: Option<string>, movies: seq<MovieEntity>): (db': Db)
    ensures Valid(db) ==> Valid(db')
    ensures genreId.Some? ==>
      var kept := Filter(NotInGenre(genreId.value), db.rows);
      |kept| <= |db'.rows| && db'.rows[..|kept|] == kept
  {
    var cleared := if genreId.Some? then DeleteMoviesForGenre(db, genreId.value) else DeleteMovies(db);
    if genreId.Some? then
      DeleteMoviesForGenreKeepsValid(db, genreId.value);
      InsertOrIgnoreMovies(cleared, movies).0
    else
      InsertOrIgnoreMovies(cleared, movies).0
  }

  /* ---------------------------------------------------------------------
     Rows whose key is 0, the only rows the repository inserts. */

  predicate AutoKeyed(movies: seq<MovieEntity>)
  {
    forall i :: 0 <= i < |movies| ==> movies[i].id == 0
  }

  /** The rows as stored: the i-th gets key `first + i`. */
  function WithKeys(movies: seq<MovieEntity>, first: int): (r: seq<MovieEntity>)
    ensures |r| == |movies|
    ensures forall i :: 0 <= i < |r| ==> r[i] == movies[i].(id := first + i)
  {
    seq(|movies|, i requires 0 <= i < |movies| => movies[i].(id := first + i))
  }

  function KeyRange(first: int, n: nat): (r: seq<int>)
    ensures |r| == n
    ensures forall i :: 0 <= i < n ==> r[i] == first + i
  {
    seq(n, i requires 0 <= i < n => first + i)
  }

  lemma WithKeysCons(movies: seq<MovieEntity>, first: int)
    requires |movies| > 0
    ensures [movies[0].(id := first)] + WithKeys(movies[1..], first + 1) == WithKeys(movies, first)
  {
  }

  lemma KeyRangeCons(first: int, n: nat)
    requires n > 0
    ensures [first] + KeyRange(first + 1, n - 1) == KeyRange(first, n)
  {
  }

  lemma InsertAutoKeyedStep(db: Db, movies: seq<MovieEntity>)
    requires Valid(db)
    requires |movies| > 0 && movies[0].id == 0
    ensures var db1 := Db(db.rows + [movies[0].(id := db.lastId + 1)], db.lastId + 1);
      && Valid(db1)
      && var rest := InsertOrIgnoreMovies(db1, movies[1..]);
         InsertOrIgnoreMovies(db, movies) == (rest.0, [db.lastId + 1] + rest.1)
  {
    var first := InsertOne(db, movies[0]);
    assert first == (Db(db.rows + [movies[0].(id := db.lastId + 1)], db.lastId + 1), db.lastId + 1);
  }

  /** Rows with key 0 never conflict: they are all appended, in order, with
      consecutive fresh keys. */
  lemma {:induction false} InsertAutoKeyed(db: Db, movies: seq<MovieEntity>)
    requires Valid(db)
    requires AutoKeyed(movies)
    ensures InsertOrIgnoreMovies(db, movies) ==
      (Db(db.rows + WithKeys(movies, db.lastId + 1), db.lastId + |movies|),
       KeyRange(db.lastId + 1, |movies|))
    decreases |movies|
  {
    if |movies| > 0 {
      var k := db.lastId + 1;
      var db1 := Db(db.rows + [movies[0].(id := k)], k);
      InsertAutoKeyedStep(db, movies);
      InsertAutoKeyed(db1, movies[1..]);
      WithKeysCons(movies, k);
      KeyRangeCons(k, |movies|);
      assert db1.rows + WithKeys(movies[1..], k + 1) == db.rows + ([movies[0].(id := k)] + WithKeys(movies[1..], k + 1));
    } else {
      assert db.rows + WithKeys(movies, db.lastId + 1) == db.rows;
    }
  }

  /** Resetting the keys of freshly keyed rows gives back the inserted rows. */
  lemma ContentOfWithKeys(movies: seq<MovieEntity>, first: int)
    requires AutoKeyed(movies)
    ensures Map(Content, WithKeys(movies, first)) == movies
  {
  }

  /** The partition `k` of a table after a key-0 insert: the rows it held,
      untouched, then the inserted rows of that partition in order. */
  lemma PartitionAfterInsert(db: Db, movies: seq<MovieEntity>, k: Option<string>)
    requires Valid(db)
    requires AutoKeyed(movies)
    ensures Partition(InsertOrIgnoreMovies(db, movies).0, k) ==
      Partition(db, k) + Filter(InPartition(k), WithKeys(movies, db.lastId + 1))
    ensures Map(Content, Filter(InPartition(k), WithKeys(movies, db.lastId + 1))) == Filter(InPartition(k), movies)
  {
    InsertAutoKeyed(db, movies);
    var keyed := WithKeys(movies, db.lastId + 1);
    FilterConcat(InPartition(k), db.rows, keyed);
    FilterMap(InPartition(k), InPartition(k), Content, keyed);
    ContentOfWithKeys(movies, db.lastId + 1);
  }

  /** `deleteAndInsert(genreId, movies)` with a genre id: afterwards that
      genre's partition holds exactly the inserted rows of that genre, with
      fresh keys. */
  lemma DeleteAndInsertGenre(db: Db, genreId: string, movies: seq<MovieEntity>)
    requires Valid(db)
    requires AutoKeyed(movies)
    ensures Map(Content, Partition(DeleteAndInsert(db, Some(genreId), movies), Some(genreId))) ==
      Filter(InPartition(Some(genreId)), movies)
  {
    var cleared := DeleteMoviesForGenre(db, genreId);
    DeleteMoviesForGenreKeepsValid(db, genreId);
    PartitionAfterInsert(cleared, movies, Some(genreId));
  }

  /** `deleteAndInsert(genreId, movies)` with a genre id: every other
      partition, top-rated included, keeps its rows and gains only the
      inserted rows of its own. */
  lemma DeleteAndInsertGenreOthers(db: Db, genreId: string, movies: seq<MovieEntity>, k: Option<string>)
    requires Valid(db)
    requires AutoKeyed(movies)
    requires k != Some(genreId)
    ensures Partition(DeleteAndInsert(db, Some(genreId), movies), k) ==
      Partition(db, k) + Filter(InPartition(k), WithKeys(movies, db.lastId + 1))
  {
    var cleared := DeleteMoviesForGenre(db, genreId);
    var keyed := WithKeys(movies, db.lastId + 1);
    assert WithKeys(movies, cleared.lastId + 1) == keyed;
    assert Partition(cleared, k) == Partition(db, k);
    var after := InsertOrIgnoreMovies(cleared, movies).0;
    assert Partition(after, k) == Partition(cleared, k) + Filter(InPartition(k), keyed) by {
      DeleteMoviesForGenreKeepsValid(db, genreId);
      PartitionAfterInsert(cleared, movies, k);
    }
    assert DeleteAndInsert(db, Some(genreId), movies) == after;
  }

  /** When every inserted row has the genre being replaced, the other
      partitions are untouched. */
  lemma DeleteAndInsertGenreOnly(db: Db, genreId: string, movies: seq<MovieEntity>, k: Option<string>)
    requires Valid(db)
    requires AutoKeyed(movies)
    requires forall i :: 0 <= i < |movies| ==> movies[i].genreId == Some(genreId)
    requires k != Some(genreId)
    ensures Partition(DeleteAndInsert(db, Some(genreId), movies), k) == Partition(db, k)
  {
    DeleteAndInsertGenreOthers(db, genreId, movies, k);
    FilterNone(InPartition(k), WithKeys(movies, db.lastId + 1));
    assert Partition(db, k) + [] == Partition(db, k);
  }

  /** `deleteAndInsert(null, movies)`: afterwards the whole table is exactly
      the inserted rows, whatever genres it held before. */
  lemma DeleteAndInsertAll(db: Db, movies: seq<MovieEntity>)
    requires Valid(db)
    requires AutoKeyed(movies)
    ensures Map(Content, DeleteAndInsert(db, None, movies).rows) == movies
  {
    var cleared := DeleteMovies(db);
    InsertAutoKeyed(cleared, movies);
    assert cleared.rows + WithKeys(movies, db.lastId + 1) == WithKeys(movies, db.lastId + 1);
    ContentOfWithKeys(movies, db.lastId + 1);
  }

  /** A key-0 row list stored by `deleteAndInsert` keeps its length: nothing
      is ignored. */
  lemma DeleteAndInsertStoresEveryRow(db: Db, genreId: Option<string>, movies: seq<MovieEntity>)
    requires Valid(db)
    requires AutoKeyed(movies)
    ensures var cleared := if genreId.Some? then DeleteMoviesForGenre(db, genreId.value) else DeleteMovies(db);
      |DeleteAndInsert(db, genreId, movies).rows| == |cleared.rows| + |movies|
  {
    var cleared := if genreId.Some? then DeleteMoviesForGenre(db, genreId.value) else DeleteMovies(db);
    if genreId.Some? {
      DeleteMoviesForGenreKeepsValid(db, genreId.value);
    }
    InsertAutoKeyed(cleared, movies);
  }

  /** Inserting a row whose key is already in the table changes nothing and
      reports -1. */
  lemma InsertConflictIgnored(db: Db, e: MovieEntity)
    requires e.id != 0 && KeyTaken(db, e.id)
    ensures InsertOrIgnoreMovies(db, [e]) == (db, [-1])
  {
    assert [e][1..] == [];
    assert InsertOne(db, e) == (db, -1);
    assert InsertOrIgnoreMovies(db, []) == (db, []);
    var r := InsertOrIgnoreMovies(db, [e]);
    assert r == (db, [-1] + []);
    assert r.1 == [-1];
    assert r.0 == db;
  }
}
