/** Fuzzy selection (main.py `search`): the names of `db` whose score against
    the query reaches `cutoff`, best first, at most `limit` of them. The
    scorer (`fuzz.ratio` with thefuzz's preprocessing of both sides) is the
    parameter `score`; the query type is generic because callers pass the
    possibly-None result of `get_text2` straight through. */
module Fuzzy {

  predicate NonIncreasing(s: seq<string>, key: string -> int)
  {
    forall i, j :: 0 <= i < j < |s| ==> key(s[i]) >= key(s[j])
  }

  /** The names reaching the cutoff, in `db` order. */
  function Qualifying(db: seq<string>, key: string -> int, cutoff: int): (r: seq<string>)
    ensures forall k :: 0 <= k < |r| ==> r[k] in db && key(r[k]) >= cutoff
    ensures forall x :: x in db && key(x) >= cutoff ==> x in r
    ensures forall x :: x in r ==> x in db
  {
    if db == [] then []
    else
      var init := Qualifying(db[..|db| - 1], key, cutoff);
      var x := db[|db| - 1];
      assert db == db[..|db| - 1] + [x];
      init + (if key(x) >= cutoff then [x] else [])
  }

  /** Insert `x` after every element scoring at least as much, so that
      equal scores keep their arrival order. */
  function Insert(x: string, s: seq<string>, key: string -> int): seq<string>
  {
    if s == [] then [x]
    else if key(s[0]) >= key(x) then [s[0]] + Insert(x, s[1..], key)
    else [x] + s
  }

  lemma {:induction false} InsertPerm(x: string, s: seq<string>, key: string -> int)
    ensures multiset(Insert(x, s, key)) == multiset(s) + multiset{x}
  {
    if s != [] && key(s[0]) >= key(x) {
      InsertPerm(x, s[1..], key);
      assert s == [s[0]] + s[1..];
    }
  }

  lemma {:induction false} InsertSorted(x: string, s: seq<string>, key: string -> int)
    requires NonIncreasing(s, key)
    ensures NonIncreasing(Insert(x, s, key), key)
  {
    if s != [] && key(s[0]) >= key(x) {
      var rest := Insert(x, s[1..], key);
      InsertSorted(x, s[1..], key);
      InsertPerm(x, s[1..], key);
      var r := [s[0]] + rest;
      forall j | 0 < j < |r| ensures key(r[0]) >= key(r[j]) {
        assert r[j] == rest[j - 1];
        assert r[j] in multiset(s[1..]) + multiset{x};
        if r[j] != x {
          assert r[j] in s[1..];
        }
      }
    }
  }

  /** A stable sort of `s` by non-increasing score. */
  function SortByScore(s: seq<string>, key: string -> int): (r: seq<string>)
    ensures multiset(r) == multiset(s)
    ensures NonIncreasing(r, key)
  {
    if s == [] then []
    else
      assert s == s[..|s| - 1] + [s[|s| - 1]];
      var init := SortByScore(s[..|s| - 1], key);
      InsertPerm(s[|s| - 1], init, key);
      InsertSorted(s[|s| - 1], init, key);
      Insert(s[|s| - 1], init, key)
  }

  /** The names of `s` whose key is `v`, in `s` order: what a stable
      ranking must leave untouched. */
  function Ties(s: seq<string>, key: string -> int, v: int): seq<string>
  {
    if s == [] then [] else (if key(s[0]) == v then [s[0]] else []) + Ties(s[1..], key, v)
  }

  lemma {:induction false} TiesAppend(a: seq<string>, b: seq<string>, key: string -> int, v: int)
    ensures Ties(a + b, key, v) == Ties(a, key, v) + Ties(b, key, v)
  {
    if a == [] {
      assert a + b == b;
    } else {
      var h: seq<string> := if key(a[0]) == v then [a[0]] else [];
      assert (a + b)[0] == a[0] && (a + b)[1..] == a[1..] + b;
      TiesAppend(a[1..], b, key, v);
      assert Ties(a + b, key, v) == h + (Ties(a[1..], key, v) + Ties(b, key, v));
      assert h + (Ties(a[1..], key, v) + Ties(b, key, v)) == (h + Ties(a[1..], key, v)) + Ties(b, key, v);
    }
  }

  lemma {:induction false} TiesNone(s: seq<string>, key: string -> int, v: int)
    requires forall i :: 0 <= i < |s| ==> key(s[i]) != v
    ensures Ties(s, key, v) == []
  {
    if s != [] {
      assert forall i :: 0 <= i < |s[1..]| ==> s[1..][i] == s[i + 1];
      TiesNone(s[1..], key, v);
    }
  }

  /** The first name of `s` scoring `v` is the first of its ties. */
  lemma {:induction false} TiesFirst(s: seq<string>, key: string -> int, v: int)
    requires Ties(s, key, v) != []
    ensures exists p :: 0 <= p < |s| && s[p] == Ties(s, key, v)[0] && key(s[p]) == v &&
                        forall k :: 0 <= k < p ==> key(s[k]) != v
  {
    if key(s[0]) != v {
      TiesFirst(s[1..], key, v);
      var p :| 0 <= p < |s[1..]| && s[1..][p] == Ties(s[1..], key, v)[0] && key(s[1..][p]) == v &&
                forall k :: 0 <= k < p ==> key(s[1..][k]) != v;
      assert s[p + 1] == s[1..][p];
      forall k | 0 <= k < p + 1 ensures key(s[k]) != v {
        if k > 0 {
          assert s[k] == s[1..][k - 1];
        }
      }
    }
  }

  /** Insertion puts the new name after every name of equal score. */
  lemma {:induction false} InsertStable(x: string, s: seq<string>, key: string -> int, v: int)
    requires NonIncreasing(s, key)
    ensures Ties(Insert(x, s, key), key, v) == Ties(s, key, v) + Ties([x], key, v)
  {
    if s == [] {
      assert Insert(x, s, key) == [x];
    } else if key(s[0]) >= key(x) {
      var rest := Insert(x, s[1..], key);
      assert NonIncreasing(s[1..], key) by {
        forall i, j | 0 <= i < j < |s[1..]| ensures key(s[1..][i]) >= key(s[1..][j]) {
          assert s[1..][i] == s[i + 1] && s[1..][j] == s[j + 1];
        }
      }
      InsertStable(x, s[1..], key, v);
      TiesAppend([s[0]], rest, key, v);
      TiesAppend([s[0]], s[1..], key, v);
      assert s == [s[0]] + s[1..];
    } else {
      TiesAppend([x], s, key, v);
      if key(x) == v {
        assert forall i :: 0 <= i < |s| ==> key(s[i]) <= key(s[0]);
        TiesNone(s, key, v);
      }
    }
  }

  /** The ranking is stable: for every score, the names with that score keep
      their input order. */
  lemma {:induction false} SortByScoreStable(s: seq<string>, key: string -> int, v: int)
    ensures Ties(SortByScore(s, key), key, v) == Ties(s, key, v)
  {
    if s != [] {
      var init := s[..|s| - 1];
      var x := s[|s| - 1];
      SortByScoreStable(init, key, v);
      InsertStable(x, SortByScore(init, key), key, v);
      TiesAppend(init, [x], key, v);
      assert s == init + [x];
    }
  }

  /** The cutoff keeps every tie at or above it. */
  lemma {:induction false} QualifyingTies(db: seq<string>, key: string -> int, cutoff: int, v: int)
    requires v >= cutoff
    ensures Ties(Qualifying(db, key, cutoff), key, v) == Ties(db, key, v)
  {
    if db != [] {
      var init := db[..|db| - 1];
      var x := db[|db| - 1];
      var tail: seq<string> := if key(x) >= cutoff then [x] else [];
      assert Qualifying(db, key, cutoff) == Qualifying(init, key, cutoff) + tail;
      QualifyingTies(init, key, cutoff, v);
      TiesAppend(Qualifying(init, key, cutoff), tail, key, v);
      TiesAppend(init, [x], key, v);
      assert db == init + [x];
      assert Ties(tail, key, v) == Ties([x], key, v) by {
        assert Ties([], key, v) == [];
        assert [x][1..] == [];
      }
    }
  }

  /** The ranking key of a query: each name's score against it. */
  function ScoreKey<Q>(term: Q, score: (Q, string) -> int): (key: string -> int)
    ensures forall name :: key(name) == score(term, name)
  {
    name => score(term, name)
  }

  /** `process.extractBests(term, db, scorer, score_cutoff=cutoff, limit=limit)`,
      keeping the names. */
  function Search<Q>(term: Q, db: seq<string>, score: (Q, string) -> int, cutoff: int, limit: nat): seq<string>
  {
    var key := ScoreKey(term, score);
    var ranked := SortByScore(Qualifying(db, key, cutoff), key);
    if |ranked| <= limit then ranked else ranked[..limit]
  }

  /** At most `limit` names, each drawn from `db` with a score of at least
      `cutoff`, in non-increasing score order. */
  lemma {:induction false} SearchSound<Q>(term: Q, db: seq<string>, score: (Q, string) -> int, cutoff: int, limit: nat)
    ensures var r := Search(term, db, score, cutoff, limit);
      && |r| <= limit
      && (forall k :: 0 <= k < |r| ==> r[k] in db && score(term, r[k]) >= cutoff)
      && (forall i, j :: 0 <= i < j < |r| ==> score(term, r[i]) >= score(term, r[j]))
  {
    var key := ScoreKey(term, score);
    var q := Qualifying(db, key, cutoff);
    var ranked := SortByScore(q, key);
    var r := Search(term, db, score, cutoff, limit);
    forall k | 0 <= k < |r| ensures r[k] in db && score(term, r[k]) >= cutoff {
      assert r[k] == ranked[k];
      assert ranked[k] in multiset(q);
    }
  }

  /** As many names as reach the cutoff, repeats included, up to `limit`. */
  lemma {:induction false} SearchLength<Q>(term: Q, db: seq<string>, score: (Q, string) -> int, cutoff: int, limit: nat)
    ensures var n := |Qualifying(db, ScoreKey(term, score), cutoff)|;
      |Search(term, db, score, cutoff, limit)| == if n <= limit then n else limit
  {
    var key := ScoreKey(term, score);
    var q := Qualifying(db, key, cutoff);
    var ranked := SortByScore(q, key);
    assert |multiset(ranked)| == |multiset(q)|;
  }

  /** Nothing reaching the cutoff is passed over unless the result is full
      and everything in it scores at least as well. */
  lemma {:induction false} SearchComplete<Q>(term: Q, db: seq<string>, score: (Q, string) -> int, cutoff: int, limit: nat, x: string)
    requires x in db && score(term, x) >= cutoff
    requires x !in Search(term, db, score, cutoff, limit)
    ensures var r := Search(term, db, score, cutoff, limit);
      |r| == limit && forall k :: 0 <= k < |r| ==> score(term, r[k]) >= score(term, x)
  {
    var key := ScoreKey(term, score);
    var q := Qualifying(db, key, cutoff);
    var ranked := SortByScore(q, key);
    assert x in multiset(ranked);
    var p :| 0 <= p < |ranked| && ranked[p] == x;
    var r := Search(term, db, score, cutoff, limit);
    forall k | 0 <= k < |r| ensures score(term, r[k]) >= score(term, x) {
      assert r[k] == ranked[k];
    }
  }

  /** Equal scores keep `db` order: for each score at or above the cutoff,
      the results with that score are the first names of `db` with that
      score, in `db` order; no result scores below the cutoff. */
  lemma {:induction false} SearchStable<Q>(term: Q, db: seq<string>, score: (Q, string) -> int, cutoff: int, limit: nat, v: int)
    ensures var key := ScoreKey(term, score); var t := Ties(Search(term, db, score, cutoff, limit), key, v);
      var all := Ties(db, key, v);
      v >= cutoff ==> |t| <= |all| && t == all[..|t|]
    ensures v < cutoff ==> Ties(Search(term, db, score, cutoff, limit), ScoreKey(term, score), v) == []
  {
    var key := ScoreKey(term, score);
    var q := Qualifying(db, key, cutoff);
    var ranked := SortByScore(q, key);
    var r := Search(term, db, score, cutoff, limit);
    if v >= cutoff {
      SortByScoreStable(q, key, v);
      QualifyingTies(db, key, cutoff, v);
      if |ranked| > limit {
        assert ranked == r + ranked[limit..];
        TiesAppend(r, ranked[limit..], key, v);
      }
    } else {
      SearchSound(term, db, score, cutoff, limit);
      TiesNone(r, key, v);
    }
  }

  /** The first result scores at least as much as every name of `db`. */
  lemma {:induction false} SearchHeadBest<Q>(term: Q, db: seq<string>, score: (Q, string) -> int, cutoff: int, limit: nat)
    requires Search(term, db, score, cutoff, limit) != []
    ensures var r := Search(term, db, score, cutoff, limit);
      forall k :: 0 <= k < |db| ==> score(term, db[k]) <= score(term, r[0])
  {
    var r := Search(term, db, score, cutoff, limit);
    SearchSound(term, db, score, cutoff, limit);
    forall k | 0 <= k < |db| ensures score(term, db[k]) <= score(term, r[0]) {
      if score(term, db[k]) >= cutoff && db[k] !in r {
        SearchComplete(term, db, score, cutoff, limit, db[k]);
      }
    }
  }

  /** The first result is the first name of `db` with the best score: it
      scores at least as much as every name of `db`, and strictly more than
      every name before it. */
  lemma {:induction false} SearchFirstBest<Q>(term: Q, db: seq<string>, score: (Q, string) -> int, cutoff: int, limit: nat)
    requires Search(term, db, score, cutoff, limit) != []
    ensures var r := Search(term, db, score, cutoff, limit);
      exists p :: 0 <= p < |db| && db[p] == r[0]
        && (forall k :: 0 <= k < |db| ==> score(term, db[k]) <= score(term, r[0]))
        && (forall k :: 0 <= k < p ==> score(term, db[k]) < score(term, r[0]))
  {
    var key := ScoreKey(term, score);
    var r := Search(term, db, score, cutoff, limit);
    var m := key(r[0]);
    SearchHeadBest(term, db, score, cutoff, limit);
    SearchSound(term, db, score, cutoff, limit);
    SearchStable(term, db, score, cutoff, limit, m);
    assert Ties(r, key, m)[0] == r[0];
    TiesFirst(db, key, m);
    var p :| 0 <= p < |db| && db[p] == Ties(db, key, m)[0] && key(db[p]) == m &&
              forall k :: 0 <= k < p ==> key(db[k]) != m;
    assert db[p] == r[0];
  }

  /** A name that outscores every other name of `db` and reaches the cutoff is
      the first result; with `limit` 1 it is the only one. */
  lemma {:induction false} SearchUniqueBest<Q>(term: Q, db: seq<string>, score: (Q, string) -> int, cutoff: int, limit: nat, x: string)
    requires x in db && score(term, x) >= cutoff && limit >= 1
    requires forall y :: y in db && y != x ==> score(term, y) < score(term, x)
    ensures var r := Search(term, db, score, cutoff, limit); |r| >= 1 && r[0] == x
    ensures Search(term, db, score, cutoff, 1) == [x]
  {
    var key := ScoreKey(term, score);
    var q := Qualifying(db, key, cutoff);
    var ranked := SortByScore(q, key);
    assert x in q;
    RankedHead(q, ranked, key, x, db);
  }

  /** In a non-increasing ranking of names drawn from `db`, a name that
      outscores all others of `db` comes first. */
  lemma {:induction false} RankedHead(q: seq<string>, ranked: seq<string>, key: string -> int, x: string, db: seq<string>)
    requires multiset(ranked) == multiset(q) && NonIncreasing(ranked, key)
    requires x in q && forall y :: y in q ==> y in db
    requires forall y :: y in db && y != x ==> key(y) < key(x)
    ensures |ranked| >= 1 && ranked[0] == x
  {
    assert x in multiset(ranked);
    var p :| 0 <= p < |ranked| && ranked[p] == x;
    assert ranked[0] in multiset(q);
    assert p == 0 || key(ranked[0]) >= key(ranked[p]);
  }
}
