/** The HTTP handlers of api/route.py that do more than forward a call: the
    not-found guards of `/livescores/{club}`, `/news/{club}` and
    `/nextMatch/...`, and the comma-separated aggregation of
    `/nextMatchNew/...`. A not-found answer is the `HTTPException` the
    handlers return as their body. */
module Routes {
  import opened Wrappers
  import opened PyStr
  import opened Dataset
  import opened LiveScores
  import opened News
  import opened Upcoming

  /** A handler's answer: the not-found exception with its detail, or the
      response body. */
  datatype Response<+T> = NotFound(detail: string) | Answer(body: T)

  const ClubNotFound := "club not in our record"
  const PlayerNotFound := "player not in our record"

  /** The not-found detail of a `findBy` kind. */
  function Detail(findBy: string): string
  {
    if findBy == "clubs" then ClubNotFound else PlayerNotFound
  }

  /** `/livescores/{club}`: a club missing from the dataset index is
      answered not-found whatever the page would hold; otherwise the scan
      result is the `matches` body. */
  method Livescores(club: string, db: Table, page: Outcome<seq<Block>>,
                    utcTime: string -> Option<string>, utcDate: string -> Option<string>)
    returns (r: Outcome<Response<seq<Match>>>)
    ensures club !in Index(db) ==> r == Ok(NotFound(ClubNotFound))
    ensures club in Index(db) && page.Raised? ==> r == Raised(page.fault)
    ensures club in Index(db) && page.Ok? ==>
      match Scan(page.value, club, utcTime, utcDate)
      case Raised(f) => r == Raised(f)
      case Ok(ms) => r == Ok(Answer(ms))
  {
    if club !in Index(db) {
      return Ok(NotFound(ClubNotFound));
    }
    var matches := GetLivescores(club, page, utcTime, utcDate);
    if matches.Raised? {
      return Raised(matches.fault);
    }
    r := Ok(Answer(matches.value));
  }

  /** `/news/{club}`: not-found for a club missing from the index; otherwise
      the news of the page at the club's `club_link`, whose fetched content is
      `pageAt`. */
  method ClubNews(club: string, db: Table, pageAt: string -> Outcome<seq<Article>>,
                  urljoin: (string, Option<string>) -> string)
    returns (r: Outcome<Response<seq<Story>>>)
    ensures club !in Index(db) ==> r == Ok(NotFound(ClubNotFound))
    ensures club in Index(db) ==>
      var link := Row(db, club).value.link;
      && (pageAt(link).Raised? ==> r == Raised(pageAt(link).fault))
      && (pageAt(link).Ok? ==>
            (r.Ok? <==> forall k :: 0 <= k < |pageAt(link).value| ==> Digest(pageAt(link).value[k], link, urljoin).Ok?))
      && (r.Ok? ==> (r.value.Answer? && |r.value.body| == |pageAt(link).value|
                     && forall k :: 0 <= k < |r.value.body| ==>
                          Digest(pageAt(link).value[k], link, urljoin) == Ok(r.value.body[k])))
  {
    if club !in Index(db) {
      return Ok(NotFound(ClubNotFound));
    }
    var link := Row(db, club).value.link;
    var stories := GetNews(link, pageAt(link), urljoin);
    if stories.Raised? {
      return Raised(stories.fault);
    }
    r := Ok(Answer(stories.value));
  }

  /** An empty result list is answered not-found; the rest is the
      `search_result` body. */
  function Respond(result: Outcome<seq<Upcoming>>, detail: string): (r: Outcome<Response<seq<Upcoming>>>)
    ensures result.Raised? <==> r.Raised?
    ensures r.Ok? && r.value.NotFound? <==> result == Ok([])
    ensures r.Ok? && r.value.NotFound? ==> r.value.detail == detail
    ensures r.Ok? && r.value.Answer? ==> result == Ok(r.value.body) && r.value.body != []
  {
    match result
    case Raised(f) => Raised(f)
    case Ok(xs) => if |xs| == 0 then Ok(NotFound(detail)) else Ok(Answer(xs))
  }

  /** `/nextMatch/players/{players}` and `/nextMatch/clubs/{clubs}`: one
      search for the whole term. */
  method NextMatchRoute(term: string, findBy: string, pages: string -> Option<seq<SearchBox>>,
                   fetch: string -> Option<Payload>, urljoin: (string, string) -> string,
                   formatTime: int -> string, norm: string -> string)
    returns (r: Outcome<Response<seq<Upcoming>>>)
    ensures r == Respond(UpcomingResult(term, findBy, Plain, pages(term), fetch, urljoin, formatTime, ReadersFor(norm)),
                         Detail(findBy))
  {
    var result := UpcomingMatches(term, findBy, Plain, pages(term), fetch, urljoin, formatTime, norm);
    if result.Raised? {
      return Raised(result.fault);
    }
    if |result.value| == 0 {
      return Ok(NotFound(Detail(findBy)));
    }
    r := Ok(Answer(result.value));
  }

  /** The lists concatenated in order. */
  function Concat<T>(xss: seq<seq<T>>): seq<T>
  {
    if xss == [] then [] else Concat(xss[..|xss| - 1]) + xss[|xss| - 1]
  }

  /** The crest-variant search of one comma-separated term. */
  function TermSearch(findBy: string, pages: string -> Option<seq<SearchBox>>,
                      fetch: string -> Option<Payload>, urljoin: (string, string) -> string,
                      formatTime: int -> string, rd: Readers): string -> Outcome<seq<Upcoming>>
  {
    term => UpcomingResult(term, findBy, WithCrests, pages(term), fetch, urljoin, formatTime, rd)
  }

  /** The loop over the terms: each term's records appended in term order;
      the first term whose search raises ends the request. */
  function Aggregate<T>(terms: seq<string>, search: string -> Outcome<seq<T>>): Outcome<seq<T>>
  {
    if terms == [] then Ok([])
    else
      var init := Aggregate(terms[..|terms| - 1], search);
      if init.Raised? then init
      else match search(terms[|terms| - 1])
        case Raised(f) => Raised(f)
        case Ok(xs) => if |xs| > 0 then Ok(init.value + xs) else init
  }

  /** Aggregation succeeds exactly when every term's search does. */
  lemma {:induction false} AggregateOk<T>(terms: seq<string>, search: string -> Outcome<seq<T>>)
    ensures Aggregate(terms, search).Ok? <==> forall k :: 0 <= k < |terms| ==> search(terms[k]).Ok?
  {
    if terms != [] {
      var init := terms[..|terms| - 1];
      AggregateOk(init, search);
      assert forall k :: 0 <= k < |init| ==> init[k] == terms[k];
    }
  }

  /** The terms' results, in term order. */
  function Results<T>(terms: seq<string>, search: string -> Outcome<seq<T>>): (rs: seq<seq<T>>)
    requires forall k :: 0 <= k < |terms| ==> search(terms[k]).Ok?
    ensures |rs| == |terms|
    ensures forall k :: 0 <= k < |terms| ==> rs[k] == search(terms[k]).value
  {
    seq(|terms|, k requires 0 <= k < |terms| => search(terms[k]).value)
  }

  /** When it succeeds it is the concatenation of the terms' results, in
      term order. */
  lemma {:induction false} AggregateConcat<T>(terms: seq<string>, search: string -> Outcome<seq<T>>)
    requires forall k :: 0 <= k < |terms| ==> search(terms[k]).Ok?
    ensures Aggregate(terms, search) == Ok(Concat(Results(terms, search)))
  {
    if terms != [] {
      var n := |terms| - 1;
      var init := terms[..n];
      assert forall k :: 0 <= k < n ==> init[k] == terms[k];
      AggregateConcat(init, search);
      var all := Results(terms, search);
      assert all[..n] == Results(init, search);
      assert all[n] == search(terms[n]).value;
      assert Concat(all) == Concat(all[..n]) + all[n];
      assert Concat(all[..n]) + [] == Concat(all[..n]);
    }
  }

  /** The aggregate is empty exactly when every term's search succeeds
      with no record. */
  lemma {:induction false} AggregateEmpty<T>(terms: seq<string>, search: string -> Outcome<seq<T>>)
    ensures Aggregate(terms, search) == Ok([]) <==> forall k :: 0 <= k < |terms| ==> search(terms[k]) == Ok([])
  {
    if terms != [] {
      var init := terms[..|terms| - 1];
      AggregateEmpty(init, search);
      assert forall k :: 0 <= k < |init| ==> init[k] == terms[k];
      AggregateOk(init, search);
    }
  }

  lemma {:induction false} AggregateRaisedSticks<T>(terms: seq<string>, search: string -> Outcome<seq<T>>, i: nat)
    requires i <= |terms| && Aggregate(terms[..i], search).Raised?
    ensures Aggregate(terms, search) == Aggregate(terms[..i], search)
    decreases |terms| - i
  {
    if i < |terms| {
      assert terms[..i + 1][..i] == terms[..i];
      AggregateRaisedSticks(terms, search, i + 1);
    } else {
      assert terms[..i] == terms;
    }
  }

  /** One step of the loop over the terms. */
  lemma {:induction false} AggregateStep<T>(terms: seq<string>, search: string -> Outcome<seq<T>>, i: nat)
    requires i < |terms| && Aggregate(terms[..i], search).Ok?
    ensures search(terms[i]).Raised? ==> Aggregate(terms[..i + 1], search) == Raised(search(terms[i]).fault)
    ensures search(terms[i]).Ok? ==>
      Aggregate(terms[..i + 1], search) == Ok(Aggregate(terms[..i], search).value + search(terms[i]).value)
  {
    assert terms[..i + 1][..i] == terms[..i];
    if search(terms[i]).Ok? {
      assert Aggregate(terms[..i], search).value + [] == Aggregate(terms[..i], search).value;
    }
  }

  /** `/nextMatchNew/players/{players}` and `/nextMatchNew/clubs/{clubs}`:
      the path parameter split at commas, one crest-variant search per
      term. */
  method NextMatchNewRoute(terms: string, findBy: string, pages: string -> Option<seq<SearchBox>>,
                      fetch: string -> Option<Payload>, urljoin: (string, string) -> string,
                      formatTime: int -> string, norm: string -> string)
    returns (r: Outcome<Response<seq<Upcoming>>>)
    ensures r == Respond(Aggregate(Split(terms, ','), TermSearch(findBy, pages, fetch, urljoin, formatTime, ReadersFor(norm))),
                         Detail(findBy))
  {
    var all := Split(terms, ',');
    ghost var search := TermSearch(findBy, pages, fetch, urljoin, formatTime, ReadersFor(norm));
    var result: seq<Upcoming> := [];
    var i := 0;
    while i < |all|
      invariant 0 <= i <= |all|
      invariant Aggregate(all[..i], search) == Ok(result)
    {
      var resultMatch := UpcomingMatches(all[i], findBy, WithCrests, pages(all[i]), fetch, urljoin, formatTime, norm);
      assert search(all[i]) == resultMatch;
      AggregateStep(all, search, i);
      if resultMatch.Raised? {
        AggregateRaisedSticks(all, search, i + 1);
        return Raised(resultMatch.fault);
      }
      if |resultMatch.value| > 0 {
        result := result + resultMatch.value;
      } else {
        assert result + resultMatch.value == result;
      }
      i := i + 1;
    }
    assert all[..i] == all;
    if |result| == 0 {
      return Ok(NotFound(Detail(findBy)));
    }
    r := Ok(Answer(result));
  }
}
