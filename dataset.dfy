/** The club/country reference table (`data/club_details.csv`, indexed by
    `club_name`) and fuzzy resolution of a scraped query against it. */
module Dataset {
  import opened Wrappers
  import opened Fuzzy

  /** One row with its index column restored by `reset_index()`. */
  datatype Entity = Entity(name: string, logo: string, link: string, league: string)

  type Table = seq<Entity>

  /** `db.index`: the names, in file order. */
  function Index(db: Table): (ns: seq<string>)
    ensures |ns| == |db|
    ensures forall k :: 0 <= k < |db| ==> ns[k] == db[k].name
  {
    if db == [] then [] else [db[0].name] + Index(db[1..])
  }

  /** `db.loc[[name]].reset_index().to_dict(orient="records")[0]`: the first
      row carrying `name`. */
  function Row(db: Table, name: string): (r: Option<Entity>)
    ensures r.Some? <==> name in Index(db)
    ensures r.Some? ==> r.value in db && r.value.name == name
  {
    if db == [] then None
    else if db[0].name == name then Some(db[0])
    else Row(db[1..], name)
  }

  /** The row found for a name is its first row. */
  lemma {:induction false} RowFirst(db: Table, name: string, p: nat)
    requires p < |db| && db[p].name == name
    ensures exists j :: 0 <= j <= p && Row(db, name) == Some(db[j]) && forall k :: 0 <= k < j ==> db[k].name != name
  {
    if db[0].name != name {
      RowFirst(db[1..], name, p - 1);
      var j :| 0 <= j <= p - 1 && Row(db[1..], name) == Some(db[1..][j]) &&
                forall k :: 0 <= k < j ==> db[1..][k].name != name;
      forall k | 0 <= k < j + 1 ensures db[k].name != name {
        if k > 0 {
          assert db[k] == db[1..][k - 1];
        }
      }
      assert db[j + 1] == db[1..][j];
    }
  }

  /** A name whose earlier rows all score below it is found at a row whose
      earlier rows all score below it. */
  lemma {:induction false} RowOfFirstBest(db: Table, n: string, key: string -> int, p: nat)
    requires p < |db| && db[p].name == n
    requires forall k :: 0 <= k < p ==> key(db[k].name) < key(n)
    ensures Row(db, n).Some?
    ensures exists j :: 0 <= j < |db| && db[j] == Row(db, n).value && forall k :: 0 <= k < j ==> key(db[k].name) < key(n)
  {
    RowFirst(db, n, p);
  }

  /** The entity resolved is the first row with the best score. */
  lemma {:induction false} ResolveFirst<Q>(db: Table, query: Q, score: (Q, string) -> int, cutoff: int)
    requires Resolve(db, query, score, cutoff).Some?
    ensures var e := Resolve(db, query, score, cutoff).value;
      exists j :: 0 <= j < |db| && db[j] == e && forall k :: 0 <= k < j ==> score(query, db[k].name) < score(query, e.name)
  {
    var names := Index(db);
    var found := Search(query, names, score, cutoff, 1);
    var key := ScoreKey(query, score);
    SearchFirstBest(query, names, score, cutoff, 1);
    var p :| 0 <= p < |names| && names[p] == found[0]
        && (forall k :: 0 <= k < p ==> score(query, names[k]) < score(query, found[0]));
    assert forall k :: 0 <= k < p ==> key(db[k].name) < key(found[0]) by {
      forall k | 0 <= k < p ensures key(db[k].name) < key(found[0]) {
        assert names[k] == db[k].name;
      }
    }
    RowOfFirstBest(db, found[0], key, p);
    assert Resolve(db, query, score, cutoff) == Row(db, found[0]);
  }

  /** `search(label, db.index, cutoff, limit=1)` followed by the row lookup:
      the best-scoring entity reaching the cutoff, if any. */
  function Resolve<Q>(db: Table, query: Q, score: (Q, string) -> int, cutoff: int): Option<Entity>
  {
    var found := Search(query, Index(db), score, cutoff, 1);
    if found == [] then None
    else
      SearchSound(query, Index(db), score, cutoff, 1);
      Row(db, found[0])
  }

  /** A resolved entity comes from the table, reaches the cutoff, scores
      at least as well as every row and strictly better than every row
      before it (ties go to the first row in table order); nothing is
      resolved exactly when no row reaches the cutoff. */
  lemma {:induction false} ResolveSpec<Q>(db: Table, query: Q, score: (Q, string) -> int, cutoff: int)
    ensures var r := Resolve(db, query, score, cutoff);
      r.Some? ==> r.value in db && score(query, r.value.name) >= cutoff
    ensures var r := Resolve(db, query, score, cutoff);
      r.Some? ==> forall e :: e in db ==> score(query, e.name) <= score(query, r.value.name)
    ensures var r := Resolve(db, query, score, cutoff);
      r.Some? ==> exists j :: 0 <= j < |db| && db[j] == r.value &&
                    forall k :: 0 <= k < j ==> score(query, db[k].name) < score(query, r.value.name)
    ensures Resolve(db, query, score, cutoff).None? <==>
      forall e :: e in db ==> score(query, e.name) < cutoff
  {
    if Resolve(db, query, score, cutoff).Some? {
      ResolveFirst(db, query, score, cutoff);
    }
    var names := Index(db);
    var found := Search(query, names, score, cutoff, 1);
    SearchSound(query, names, score, cutoff, 1);
    forall e | e in db && score(query, e.name) >= cutoff
      ensures found != [] && score(query, e.name) <= score(query, found[0])
    {
      var k :| 0 <= k < |db| && db[k] == e;
      assert names[k] == e.name;
      if e.name !in found {
        SearchComplete(query, names, score, cutoff, 1, e.name);
      }
    }
  }

  /** A query whose own row outscores every other row (as `fuzz.ratio` does
      for a name present verbatim and distinct from the others after
      preprocessing) resolves to that row. */
  lemma {:induction false} ResolvePresentName<Q>(db: Table, query: Q, score: (Q, string) -> int, cutoff: int, e: Entity)
    requires e in db && score(query, e.name) >= cutoff
    requires forall n :: n in Index(db) && n != e.name ==> score(query, n) < score(query, e.name)
    ensures Resolve(db, query, score, cutoff) == Row(db, e.name)
  {
    var k :| 0 <= k < |db| && db[k] == e;
    assert Index(db)[k] == e.name;
    SearchUniqueBest(query, Index(db), score, cutoff, 1, e.name);
  }
}
