/** The next fixture of a club or player (main.py
    `process_for_upcoming_match_by_id`, `process_for_upcoming_match_new_by_id`,
    `upcoming_matches`, `upcoming_matches_new`).

    The search page is reduced to the result boxes it holds; the JSON answer
    of the fixtures endpoint is the parameter `fetch`, which yields None when
    the request raised; `urllib.parse.urljoin` is `urljoin`; the conversion of
    the kick-off timestamp to a Ho Chi Minh City time string is `formatTime`.
    The two generations of the code differ only in whether crests are carried
    along, which is the `Variant` below. */
module Upcoming {
  import opened Wrappers
  import opened PyStr
  import opened Elements

  // ---------------------------------------------------------------------
  // The fixtures endpoint

  /** One entry of `json_resp["matches"]`, reduced to the fields read. */
  datatype Fixture = Fixture(competition: string, home: int, away: int, time: int)

  /** One value of `json_resp["teams"]`: `name` and `image2x`. */
  datatype Team = Team(name: string, image: string)

  /** The decoded answer; `teams` lists the entries of the JSON object in
      document order, keyed by the team id as written. */
  datatype Payload = Payload(matches: seq<Fixture>, teams: seq<(string, Team)>)

  /** One side of a fixture; `image` is present only in the crest variant. */
  datatype Side = Side(name: string, image: Option<string>)

  /** The record built for one club or player. `NoData` is the
      `"No data found"` answer; its `image` is None when the record has no
      `image` key (the plain variant). */
  datatype Upcoming =
    | NoData(name: Option<string>, image: Option<Option<string>>)
    | Found(name: Option<string>, competition: string, home: Side, away: Side, time: string)

  const NextMatchesBase := "https://www.transfermarkt.com/ceapi/nextMatches/"

  /** The endpoint queried for a club (`team/<id>`) or a player (`player/<id>`). */
  function ApiLink(isClub: bool, id: string, urljoin: (string, string) -> string): string
  {
    urljoin(NextMatchesBase, (if isClub then "team" else "player") + "/" + id)
  }

  /** `team_map`: every team under `int(team_id)`, the conversion being
      `toInt` (ParseInt at the call sites); a later entry whose id has
      the same value replaces an earlier one; a non-integer id raises
      ValueError. */
  function TeamMap(teams: seq<(string, Team)>, toInt: string -> Option<int>): (r: Outcome<map<int, Team>>)
    ensures r.Raised? ==> r.fault == ValueError
  {
    if teams == [] then Ok(map[])
    else
      var init := TeamMap(teams[..|teams| - 1], toInt);
      var e := teams[|teams| - 1];
      if init.Raised? then init
      else match toInt(e.0)
        case None => Raised(ValueError)
        case Some(k) => Ok(init.value[k := e.1])
  }

  /** The entry at `i` is the last one whose id has its value. */
  predicate LastFor(teams: seq<(string, Team)>, toInt: string -> Option<int>, i: int)
    requires 0 <= i < |teams|
  {
    forall j :: i < j < |teams| ==> toInt(teams[j].0) != toInt(teams[i].0)
  }

  /** The team map is built exactly when every id is an integer. */
  lemma {:induction false} TeamMapOk(teams: seq<(string, Team)>, toInt: string -> Option<int>)
    ensures TeamMap(teams, toInt).Ok? <==> forall i :: 0 <= i < |teams| ==> toInt(teams[i].0).Some?
  {
    if teams != [] {
      var init := teams[..|teams| - 1];
      TeamMapOk(init, toInt);
      assert forall i :: 0 <= i < |init| ==> init[i] == teams[i];
    }
  }

  /** Its keys are the values of the ids. */
  lemma {:induction false} TeamMapKeys(teams: seq<(string, Team)>, toInt: string -> Option<int>)
    requires TeamMap(teams, toInt).Ok?
    ensures forall k :: k in TeamMap(teams, toInt).value <==>
      exists i :: 0 <= i < |teams| && toInt(teams[i].0) == Some(k)
  {
    if teams != [] {
      var n := |teams| - 1;
      var init := teams[..n];
      TeamMapKeys(init, toInt);
      var m := TeamMap(init, toInt).value;
      var k := toInt(teams[n].0).value;
      var m' := m[k := teams[n].1];
      assert TeamMap(teams, toInt).value == m';
      forall k' ensures k' in m' <==> exists i :: 0 <= i < |teams| && toInt(teams[i].0) == Some(k') {
        if k' in m' && k' != k {
          var i :| 0 <= i < n && toInt(init[i].0) == Some(k');
          assert init[i] == teams[i];
        }
        if k' !in m' {
          forall i | 0 <= i < |teams| ensures toInt(teams[i].0) != Some(k') {
            if i < n {
              assert init[i] == teams[i];
            }
          }
        }
      }
    }
  }

  /** Each key maps to the last team written under its value. */
  lemma {:induction false} TeamMapLast(teams: seq<(string, Team)>, toInt: string -> Option<int>, i: int, k: int)
    requires TeamMap(teams, toInt).Ok?
    requires 0 <= i < |teams| && toInt(teams[i].0) == Some(k) && LastFor(teams, toInt, i)
    ensures k in TeamMap(teams, toInt).value && TeamMap(teams, toInt).value[k] == teams[i].1
  {
    var n := |teams| - 1;
    var init := teams[..n];
    if i < n {
      assert toInt(teams[n].0) != toInt(teams[i].0);
      assert forall j :: i < j < n ==> init[j] == teams[j];
      assert LastFor(init, toInt, i);
      TeamMapLast(init, toInt, i, k);
    }
  }

  /** The record for one fetched answer: no fixtures gives `NoData`;
      otherwise the first fixture, with both teams looked up in the team
      map. `image` is the crest passed by the crest variant, None in the
      plain one. */
  function Shape(name: Option<string>, image: Option<Option<string>>, p: Payload, formatTime: int -> string)
    : (r: Outcome<Upcoming>)
    ensures r.Ok? && r.value.NoData? <==> p.matches == []
    ensures r.Ok? && r.value.NoData? ==> r.value == NoData(name, image)
    ensures p.matches != [] ==>
      (r.Ok? <==> TeamMap(p.teams, ParseInt).Ok? && p.matches[0].home in TeamMap(p.teams, ParseInt).value
                  && p.matches[0].away in TeamMap(p.teams, ParseInt).value)
    ensures r.Raised? ==> r.fault == ValueError || r.fault == KeyMissing
    ensures r.Ok? && r.value.Found? ==>
      var m := p.matches[0];
      var tm := TeamMap(p.teams, ParseInt).value;
      && r.value.name == name && r.value.competition == m.competition && r.value.time == formatTime(m.time)
      && r.value.home.name == tm[m.home].name && r.value.away.name == tm[m.away].name
      && (r.value.home.image.Some? <==> image.Some?)
      && (r.value.away.image.Some? <==> image.Some?)
      && (image.Some? ==> r.value.home.image == Some(tm[m.home].image)
                          && r.value.away.image == Some(tm[m.away].image))
  {
    if p.matches == [] then Ok(NoData(name, image))
    else
      match TeamMap(p.teams, ParseInt)
      case Raised(f) => Raised(f)
      case Ok(tm) =>
        var m := p.matches[0];
        if m.home !in tm || m.away !in tm then Raised(KeyMissing)
        else
          var img := (t: Team) => if image.Some? then Some(t.image) else None;
          Ok(Found(name, m.competition, Side(tm[m.home].name, img(tm[m.home])),
                   Side(tm[m.away].name, img(tm[m.away])), formatTime(m.time)))
  }

  /** An answer whose team ids are all integers, and whose first fixture
      names teams written as `str(id)`, gives that fixture with the names of
      the last teams written under those ids. */
  lemma {:induction false} ShapeFindsTeams(name: Option<string>, image: Option<Option<string>>, p: Payload,
                        formatTime: int -> string, h: int, a: int)
    requires p.matches != []
    requires forall i :: 0 <= i < |p.teams| ==> ParseInt(p.teams[i].0).Some?
    requires 0 <= h < |p.teams| && p.teams[h].0 == IntString(p.matches[0].home) && LastFor(p.teams, ParseInt, h)
    requires 0 <= a < |p.teams| && p.teams[a].0 == IntString(p.matches[0].away) && LastFor(p.teams, ParseInt, a)
    ensures var r := Shape(name, image, p, formatTime);
      && r.Ok? && r.value.Found? && r.value.competition == p.matches[0].competition
      && r.value.home.name == p.teams[h].1.name && r.value.away.name == p.teams[a].1.name
  {
    TeamMapOk(p.teams, ParseInt);
    ParseIntRoundTrip(p.matches[0].home);
    ParseIntRoundTrip(p.matches[0].away);
    TeamMapLast(p.teams, ParseInt, h, p.matches[0].home);
    TeamMapLast(p.teams, ParseInt, a, p.matches[0].away);
  }

  /** One club or player: a failed request leaves the answer unbound, so the
      record raises. */
  function NextMatch(name: Option<string>, image: Option<Option<string>>, id: string, isClub: bool,
                     fetch: string -> Option<Payload>, urljoin: (string, string) -> string,
                     formatTime: int -> string): Outcome<Upcoming>
  {
    match fetch(ApiLink(isClub, id, urljoin))
    case None => Raised(FetchFailed)
    case Some(p) => Shape(name, image, p, formatTime)
  }

  /** The loop over `json_resp["teams"].items()`. */
  method BuildTeamMap(teams: seq<(string, Team)>) returns (r: Outcome<map<int, Team>>)
    ensures r == TeamMap(teams, ParseInt)
  {
    var teamMap: map<int, Team> := map[];
    var i := 0;
    while i < |teams|
      invariant 0 <= i <= |teams|
      invariant TeamMap(teams[..i], ParseInt) == Ok(teamMap)
    {
      assert teams[..i + 1][..i] == teams[..i];
      var k := ParseInt(teams[i].0);
      if k.None? {
        TeamMapRaisedSticks(teams, ParseInt, i + 1);
        return Raised(ValueError);
      }
      teamMap := teamMap[k.value := teams[i].1];
      i := i + 1;
    }
    assert teams[..i] == teams;
    r := Ok(teamMap);
  }

  lemma {:induction false} TeamMapRaisedSticks(teams: seq<(string, Team)>, toInt: string -> Option<int>, i: nat)
    requires i <= |teams| && TeamMap(teams[..i], toInt).Raised?
    ensures TeamMap(teams, toInt) == TeamMap(teams[..i], toInt)
    decreases |teams| - i
  {
    if i < |teams| {
      assert teams[..i + 1][..i] == teams[..i];
      TeamMapRaisedSticks(teams, toInt, i + 1);
    } else {
      assert teams[..i] == teams;
    }
  }

  /** `process_for_upcoming_match_by_id` (image None) and
      `process_for_upcoming_match_new_by_id` (image `Some(img_url)`). */
  method NextMatchById(name: Option<string>, image: Option<Option<string>>, id: string, isClub: bool,
                       fetch: string -> Option<Payload>, urljoin: (string, string) -> string,
                       formatTime: int -> string) returns (r: Outcome<Upcoming>)
    ensures r == NextMatch(name, image, id, isClub, fetch, urljoin, formatTime)
  {
    var link := ApiLink(isClub, id, urljoin);
    var resp := fetch(link);
    if resp.None? {
      return Raised(FetchFailed);
    }
    var p := resp.value;
    if |p.matches| == 0 {
      return Ok(NoData(name, image));
    }
    var teamMap := BuildTeamMap(p.teams);
    if teamMap.Raised? {
      return Raised(teamMap.fault);
    }
    var tm := teamMap.value;
    var m := p.matches[0];
    if m.home !in tm || m.away !in tm {
      return Raised(KeyMissing);
    }
    var home := Side(tm[m.home].name, if image.Some? then Some(tm[m.home].image) else None);
    var away := Side(tm[m.away].name, if image.Some? then Some(tm[m.away].image) else None);
    r := Ok(Found(name, m.competition, home, away, formatTime(m.time)));
  }

  // ---------------------------------------------------------------------
  // The search page

  /** `tr.find("td", {"class": "hauptlink"})`: absent, or present with the
      result of its `.select_one("a")`. */
  datatype MainCell = NoMainCell | MainCell(anchor: Option<Element>)

  /** `tr.find("td", {"class": "zentriert suche-vereinswappen"})`: absent, or
      present with the result of its `.select_one("img")`. */
  datatype CrestCell = NoCrest | Crest(img: Option<Element>)

  datatype SearchRow = SearchRow(main: MainCell, crest: CrestCell)

  /** A `div:has(>h2.content-box-headline)` box: its headline and its
      `div.responsive-table>div>table>tbody>tr` rows. */
  datatype SearchBox = SearchBox(headline: Element, rows: seq<SearchRow>)

  /** `upcoming_matches` (Plain) or `upcoming_matches_new` (WithCrests). */
  datatype Variant = Plain | WithCrests

  /** A scheduled `process_for_upcoming_match*_by_id` call: `image` is the
      `img_url` argument of the crest variant, None in the plain one. */
  datatype Candidate = Candidate(name: Option<string>, image: Option<Option<string>>, id: string, isClub: bool)

  /** `get_text` and `get_image`. */
  datatype Readers = Readers(text: Element -> Option<string>, image: Element -> Option<string>)

  function ReadersFor(norm: string -> string): Readers
  {
    Readers(e => GetText(e, norm), e => GetImage(e, norm))
  }

  /** `get_href(player).split("/")[-1]`. */
  function LastSegment(href: string): string
  {
    var parts := Split(href, '/');
    parts[|parts| - 1]
  }

  /** The id is the part of the link after its last slash: a suffix holding
      no slash, preceded by a slash unless it is the whole link. */
  lemma {:induction false} LastSegmentSpec(href: string)
    ensures var id := LastSegment(href);
      && '/' !in id
      && |id| <= |href| && href[|href| - |id|..] == id
      && (|id| < |href| ==> href[|href| - |id| - 1] == '/')
    decreases |href|
  {
    if href != [] {
      var x := href[..|href| - 1];
      var c := href[|href| - 1];
      LastSegmentSpec(x);
      assert href == x + [c];
      var init := Split(x, '/');
      if c == '/' {
        assert Split(href, '/') == init + [""];
        assert LastSegment(href) == "";
      } else {
        assert Split(href, '/') == init[..|init| - 1] + [init[|init| - 1] + [c]];
        var id' := LastSegment(x);
        assert LastSegment(href) == id' + [c];
        assert href[|href| - |id'| - 1..] == x[|x| - |id'|..] + [c];
      }
    }
  }

  /** `img_url` of a row in the crest variant: `""` without a crest cell,
      `get_image` of its image otherwise; a crest cell without an image
      raises, since `get_image(None)` reads `.text` of None. */
  function CrestImage(row: SearchRow, rd: Readers): (r: Outcome<Option<string>>)
    ensures r.Raised? <==> row.crest == Crest(None)
    ensures r.Raised? ==> r.fault == NoneAttribute
    ensures row.crest == NoCrest ==> r == Ok(Some(""))
  {
    match row.crest
    case NoCrest => Ok(Some(""))
    case Crest(None) => Raised(NoneAttribute)
    case Crest(Some(img)) => Ok(rd.image(img))
  }

  /** The call a row schedules, if any. A row without a `hauptlink` cell
      raises, and so does a player link without `href`; in the crest variant
      a player search keeps only names containing the query, compared
      upper-cased, and a nameless link raises there. */
  function RowCandidate(row: SearchRow, query: string, findBy: string, variant: Variant, rd: Readers)
    : Outcome<Option<Candidate>>
  {
    if variant.WithCrests? && CrestImage(row, rd).Raised? then Raised(NoneAttribute)
    else
      var image := if variant.Plain? then None else Some(CrestImage(row, rd).value);
      match row.main
      case NoMainCell => Raised(NoneAttribute)
      case MainCell(None) => Ok(None)
      case MainCell(Some(a)) =>
        var name := rd.text(a);
        match GetHref(a)
        case None => Raised(NoneAttribute)
        case Some(href) =>
          var c := Candidate(name, image, LastSegment(href), findBy == "clubs");
          if variant.Plain? || findBy == "clubs" then Ok(Some(c))
          else if findBy != "players" then Ok(None)
          else if name.None? then Raised(NoneAttribute)
          else if IsSubstring(Upper(query), Upper(name.value)) then Ok(Some(c))
          else Ok(None)
  }

  /** What every scheduled call carries: the kind searched for, an id free
      of slashes, a crest exactly in the crest variant and, for a player
      search of that variant, a name matching the query. */
  predicate Eligible(c: Candidate, query: string, findBy: string, variant: Variant)
  {
    && c.isClub == (findBy == "clubs")
    && '/' !in c.id
    && (c.image.Some? <==> variant.WithCrests?)
    && (variant.WithCrests? && findBy == "players" ==>
          c.name.Some? && IsSubstring(Upper(query), Upper(c.name.value)))
  }

  lemma {:induction false} RowCandidateSpec(row: SearchRow, query: string, findBy: string, variant: Variant, rd: Readers)
    ensures var r := RowCandidate(row, query, findBy, variant, rd);
      && (r.Raised? ==> r.fault == NoneAttribute)
      && (row.main == NoMainCell ==> r.Raised?)
      && (r.Ok? && r.value.Some? ==>
            && Eligible(r.value.value, query, findBy, variant)
            && row.main.MainCell? && row.main.anchor.Some?
            && GetHref(row.main.anchor.value).Some?
            && r.value.value.id == LastSegment(GetHref(row.main.anchor.value).value)
            && r.value.value.name == rd.text(row.main.anchor.value))
  {
    if row.main.MainCell? && row.main.anchor.Some? && GetHref(row.main.anchor.value).Some? {
      LastSegmentSpec(GetHref(row.main.anchor.value).value);
    }
  }

  /** Every row holding a player link with an `href` schedules a call in the
      plain variant and in a club search; in a player search of the crest
      variant, so does every row whose name contains the query, compared
      upper-cased. */
  lemma {:induction false} RowCandidateScheduled(row: SearchRow, query: string, findBy: string, variant: Variant, rd: Readers, a: Element)
    requires row.main == MainCell(Some(a)) && GetHref(a).Some?
    requires variant.WithCrests? ==> row.crest != Crest(None)
    requires variant.Plain? || findBy == "clubs" ||
      (findBy == "players" && rd.text(a).Some? && IsSubstring(Upper(query), Upper(rd.text(a).value)))
    ensures var r := RowCandidate(row, query, findBy, variant, rd); r.Ok? && r.value.Some?
  {
  }

  /** In particular a name that literally contains the query is kept. */
  lemma {:induction false} RowCandidateLiteral(row: SearchRow, query: string, variant: Variant, rd: Readers, a: Element)
    requires row.main == MainCell(Some(a)) && GetHref(a).Some?
    requires variant.WithCrests? ==> row.crest != Crest(None)
    requires rd.text(a).Some? && IsSubstring(query, rd.text(a).value)
    ensures var r := RowCandidate(row, query, "players", variant, rd); r.Ok? && r.value.Some?
  {
    UpperKeepsSubstring(query, rd.text(a).value);
    RowCandidateScheduled(row, query, "players", variant, rd, a);
  }

  /** The calls the rows of one box schedule, in row order. */
  function RowsCandidates(rows: seq<SearchRow>, query: string, findBy: string, variant: Variant, rd: Readers)
    : Outcome<seq<Candidate>>
  {
    if rows == [] then Ok([])
    else
      var init := RowsCandidates(rows[..|rows| - 1], query, findBy, variant, rd);
      if init.Raised? then init
      else match RowCandidate(rows[|rows| - 1], query, findBy, variant, rd)
        case Raised(f) => Raised(f)
        case Ok(None) => init
        case Ok(Some(c)) => Ok(init.value + [c])
  }

  /** Whether a box is searched: its headline text, lower-cased, contains
      `findBy`; a headline without text raises. */
  function Listed(box: SearchBox, findBy: string, rd: Readers): Outcome<bool>
  {
    match rd.text(box.headline)
    case None => Raised(NoneAttribute)
    case Some(t) => Ok(IsSubstring(findBy, Lower(t)))
  }

  /** The calls scheduled over all boxes, in page order. */
  function Candidates(boxes: seq<SearchBox>, query: string, findBy: string, variant: Variant, rd: Readers)
    : Outcome<seq<Candidate>>
  {
    if boxes == [] then Ok([])
    else
      var init := Candidates(boxes[..|boxes| - 1], query, findBy, variant, rd);
      var box := boxes[|boxes| - 1];
      if init.Raised? then init
      else match Listed(box, findBy, rd)
        case Raised(f) => Raised(f)
        case Ok(false) => init
        case Ok(true) =>
          match RowsCandidates(box.rows, query, findBy, variant, rd)
          case Raised(f) => Raised(f)
          case Ok(cs) => Ok(init.value + cs)
  }

  lemma {:induction false} RowsEligible(rows: seq<SearchRow>, query: string, findBy: string, variant: Variant, rd: Readers)
    requires RowsCandidates(rows, query, findBy, variant, rd).Ok?
    ensures var cs := RowsCandidates(rows, query, findBy, variant, rd).value;
      |cs| <= |rows| && forall k :: 0 <= k < |cs| ==> Eligible(cs[k], query, findBy, variant)
  {
    if rows != [] {
      RowsEligible(rows[..|rows| - 1], query, findBy, variant, rd);
      RowCandidateSpec(rows[|rows| - 1], query, findBy, variant, rd);
    }
  }

  /** Every scheduled call is eligible. */
  lemma {:induction false} CandidatesEligible(boxes: seq<SearchBox>, query: string, findBy: string, variant: Variant, rd: Readers)
    requires Candidates(boxes, query, findBy, variant, rd).Ok?
    ensures var cs := Candidates(boxes, query, findBy, variant, rd).value;
      forall k :: 0 <= k < |cs| ==> Eligible(cs[k], query, findBy, variant)
  {
    if boxes != [] {
      CandidatesEligible(boxes[..|boxes| - 1], query, findBy, variant, rd);
      var box := boxes[|boxes| - 1];
      if Listed(box, findBy, rd) == Ok(true) {
        RowsEligible(box.rows, query, findBy, variant, rd);
      }
    }
  }

  /** Boxes whose headline does not mention `findBy` contribute nothing. */
  lemma {:induction false} CandidatesUnlisted(boxes: seq<SearchBox>, query: string, findBy: string, variant: Variant, rd: Readers)
    requires forall k :: 0 <= k < |boxes| ==> Listed(boxes[k], findBy, rd) == Ok(false)
    ensures Candidates(boxes, query, findBy, variant, rd) == Ok([])
  {
    if boxes != [] {
      var init := boxes[..|boxes| - 1];
      assert forall k :: 0 <= k < |init| ==> init[k] == boxes[k];
      CandidatesUnlisted(init, query, findBy, variant, rd);
    }
  }

  /** A row that schedules a call. */
  predicate Schedules(row: SearchRow, query: string, findBy: string, variant: Variant, rd: Readers)
  {
    RowCandidate(row, query, findBy, variant, rd).Ok? && RowCandidate(row, query, findBy, variant, rd).value.Some?
  }

  /** The positions of the rows that schedule a call, in row order. */
  function Scheduled(rows: seq<SearchRow>, query: string, findBy: string, variant: Variant, rd: Readers): (js: seq<nat>)
    ensures forall k :: 0 <= k < |js| ==> js[k] < |rows| && Schedules(rows[js[k]], query, findBy, variant, rd)
  {
    if rows == [] then []
    else
      var js := Scheduled(rows[..|rows| - 1], query, findBy, variant, rd);
      if Schedules(rows[|rows| - 1], query, findBy, variant, rd) then js + [|rows| - 1] else js
  }

  /** Every scheduling row is listed, and the positions strictly increase. */
  lemma {:induction false} ScheduledSpec(rows: seq<SearchRow>, query: string, findBy: string, variant: Variant, rd: Readers)
    ensures var js := Scheduled(rows, query, findBy, variant, rd);
      forall j :: 0 <= j < |rows| && Schedules(rows[j], query, findBy, variant, rd) ==> j in js
    ensures var js := Scheduled(rows, query, findBy, variant, rd);
      forall k, l :: 0 <= k < l < |js| ==> js[k] < js[l]
  {
    if rows != [] {
      var init := rows[..|rows| - 1];
      ScheduledSpec(init, query, findBy, variant, rd);
      forall j | 0 <= j < |rows| - 1 && Schedules(rows[j], query, findBy, variant, rd)
        ensures j in Scheduled(rows, query, findBy, variant, rd)
      {
        assert init[j] == rows[j];
      }
    }
  }

  /** A box's rows schedule without a fault exactly when no row raises. */
  lemma {:induction false} RowsOk(rows: seq<SearchRow>, query: string, findBy: string, variant: Variant, rd: Readers)
    ensures RowsCandidates(rows, query, findBy, variant, rd).Ok? <==>
      forall k :: 0 <= k < |rows| ==> RowCandidate(rows[k], query, findBy, variant, rd).Ok?
  {
    if rows != [] {
      var init := rows[..|rows| - 1];
      RowsOk(init, query, findBy, variant, rd);
      assert forall k :: 0 <= k < |init| ==> init[k] == rows[k];
    }
  }

  /** On success the calls of a box are the calls of its scheduling rows,
      one each, in row order. */
  lemma {:induction false} RowsValues(rows: seq<SearchRow>, query: string, findBy: string, variant: Variant, rd: Readers)
    requires RowsCandidates(rows, query, findBy, variant, rd).Ok?
    ensures var js := Scheduled(rows, query, findBy, variant, rd);
      var cs := RowsCandidates(rows, query, findBy, variant, rd).value;
      |cs| == |js| && forall k :: 0 <= k < |js| ==> RowCandidate(rows[js[k]], query, findBy, variant, rd) == Ok(Some(cs[k]))
  {
    if rows != [] {
      var init := rows[..|rows| - 1];
      var js' := Scheduled(init, query, findBy, variant, rd);
      RowsValues(init, query, findBy, variant, rd);
      forall k | 0 <= k < |js'| ensures rows[js'[k]] == init[js'[k]] {
      }
    }
  }

  /** The calls a box contributes: those of its rows when it is listed. */
  function BoxCalls(box: SearchBox, query: string, findBy: string, variant: Variant, rd: Readers): seq<Candidate>
  {
    if Listed(box, findBy, rd) == Ok(true) && RowsCandidates(box.rows, query, findBy, variant, rd).Ok?
    then RowsCandidates(box.rows, query, findBy, variant, rd).value
    else []
  }

  /** The contributions of the boxes, concatenated in page order. */
  function PageCalls(boxes: seq<SearchBox>, query: string, findBy: string, variant: Variant, rd: Readers): seq<Candidate>
  {
    if boxes == [] then []
    else PageCalls(boxes[..|boxes| - 1], query, findBy, variant, rd) + BoxCalls(boxes[|boxes| - 1], query, findBy, variant, rd)
  }

  /** The page schedules without a fault exactly when every headline has
      text and every listed box's rows schedule without a fault; the calls
      are then the listed boxes' calls, box by box in page order. */
  lemma {:induction false} CandidatesValues(boxes: seq<SearchBox>, query: string, findBy: string, variant: Variant, rd: Readers)
    ensures Candidates(boxes, query, findBy, variant, rd).Ok? <==>
      forall k :: 0 <= k < |boxes| ==>
        (Listed(boxes[k], findBy, rd).Ok?
         && (Listed(boxes[k], findBy, rd).value ==> RowsCandidates(boxes[k].rows, query, findBy, variant, rd).Ok?))
    ensures Candidates(boxes, query, findBy, variant, rd).Ok? ==>
      Candidates(boxes, query, findBy, variant, rd).value == PageCalls(boxes, query, findBy, variant, rd)
  {
    if boxes != [] {
      var init := boxes[..|boxes| - 1];
      CandidatesValues(init, query, findBy, variant, rd);
      assert forall k :: 0 <= k < |init| ==> init[k] == boxes[k];
      var box := boxes[|boxes| - 1];
      if Candidates(init, query, findBy, variant, rd).Ok? && Listed(box, findBy, rd) == Ok(false) {
        assert Candidates(init, query, findBy, variant, rd).value + [] == Candidates(init, query, findBy, variant, rd).value;
      }
    }
  }

  lemma {:induction false} RowsRaisedSticks(rows: seq<SearchRow>, query: string, findBy: string, variant: Variant, rd: Readers, j: nat)
    requires j <= |rows| && RowsCandidates(rows[..j], query, findBy, variant, rd).Raised?
    ensures RowsCandidates(rows, query, findBy, variant, rd) == RowsCandidates(rows[..j], query, findBy, variant, rd)
    decreases |rows| - j
  {
    if j < |rows| {
      assert rows[..j + 1][..j] == rows[..j];
      RowsRaisedSticks(rows, query, findBy, variant, rd, j + 1);
    } else {
      assert rows[..j] == rows;
    }
  }

  lemma {:induction false} CandidatesRaisedSticks(boxes: seq<SearchBox>, query: string, findBy: string, variant: Variant, rd: Readers, i: nat)
    requires i <= |boxes| && Candidates(boxes[..i], query, findBy, variant, rd).Raised?
    ensures Candidates(boxes, query, findBy, variant, rd) == Candidates(boxes[..i], query, findBy, variant, rd)
    decreases |boxes| - i
  {
    if i < |boxes| {
      assert boxes[..i + 1][..i] == boxes[..i];
      CandidatesRaisedSticks(boxes, query, findBy, variant, rd, i + 1);
    } else {
      assert boxes[..i] == boxes;
    }
  }

  // ---------------------------------------------------------------------
  // Gathering

  function Call(c: Candidate, fetch: string -> Option<Payload>, urljoin: (string, string) -> string,
                formatTime: int -> string): Outcome<Upcoming>
  {
    NextMatch(c.name, c.image, c.id, c.isClub, fetch, urljoin, formatTime)
  }

  /** `asyncio.gather(*tasks)`: the records in scheduling order, or the
      exception of the earliest call that raised. */
  function Gather(cs: seq<Candidate>, fetch: string -> Option<Payload>, urljoin: (string, string) -> string,
                  formatTime: int -> string): Outcome<seq<Upcoming>>
  {
    if cs == [] then Ok([])
    else
      var init := Gather(cs[..|cs| - 1], fetch, urljoin, formatTime);
      if init.Raised? then init
      else match Call(cs[|cs| - 1], fetch, urljoin, formatTime)
        case Raised(f) => Raised(f)
        case Ok(u) => Ok(init.value + [u])
  }

  /** Gathering succeeds exactly when every call does, and then holds one
      record per call, in order. */
  lemma {:induction false} GatherOk(cs: seq<Candidate>, fetch: string -> Option<Payload>,
                                    urljoin: (string, string) -> string, formatTime: int -> string)
    ensures Gather(cs, fetch, urljoin, formatTime).Ok? <==>
      forall k :: 0 <= k < |cs| ==> Call(cs[k], fetch, urljoin, formatTime).Ok?
    ensures var g := Gather(cs, fetch, urljoin, formatTime);
      g.Ok? ==> (|g.value| == |cs| &&
                 forall k :: 0 <= k < |cs| ==> Call(cs[k], fetch, urljoin, formatTime) == Ok(g.value[k]))
  {
    if cs != [] {
      var init := cs[..|cs| - 1];
      GatherOk(init, fetch, urljoin, formatTime);
      assert forall k :: 0 <= k < |init| ==> init[k] == cs[k];
    }
  }

  /** A failed gathering reports the exception of the first call that
      raised. */
  lemma {:induction false} GatherFirstFault(cs: seq<Candidate>, fetch: string -> Option<Payload>,
                                            urljoin: (string, string) -> string, formatTime: int -> string)
    requires Gather(cs, fetch, urljoin, formatTime).Raised?
    ensures exists k :: (0 <= k < |cs|
      && Call(cs[k], fetch, urljoin, formatTime) == Raised(Gather(cs, fetch, urljoin, formatTime).fault)
      && forall j :: 0 <= j < k ==> Call(cs[j], fetch, urljoin, formatTime).Ok?)
  {
    var init := cs[..|cs| - 1];
    var n := |cs| - 1;
    assert forall k :: 0 <= k < |init| ==> init[k] == cs[k];
    if Gather(init, fetch, urljoin, formatTime).Raised? {
      GatherFirstFault(init, fetch, urljoin, formatTime);
      var k :| 0 <= k < |init|
        && Call(init[k], fetch, urljoin, formatTime) == Raised(Gather(init, fetch, urljoin, formatTime).fault)
        && forall j :: 0 <= j < k ==> Call(init[j], fetch, urljoin, formatTime).Ok?;
      assert Call(cs[k], fetch, urljoin, formatTime) == Raised(Gather(cs, fetch, urljoin, formatTime).fault);
    } else {
      GatherOk(init, fetch, urljoin, formatTime);
      assert Call(cs[n], fetch, urljoin, formatTime) == Raised(Gather(cs, fetch, urljoin, formatTime).fault);
    }
  }

  lemma {:induction false} GatherRaisedSticks(cs: seq<Candidate>, fetch: string -> Option<Payload>,
                                              urljoin: (string, string) -> string, formatTime: int -> string, i: nat)
    requires i <= |cs| && Gather(cs[..i], fetch, urljoin, formatTime).Raised?
    ensures Gather(cs, fetch, urljoin, formatTime) == Gather(cs[..i], fetch, urljoin, formatTime)
    decreases |cs| - i
  {
    if i < |cs| {
      assert cs[..i + 1][..i] == cs[..i];
      GatherRaisedSticks(cs, fetch, urljoin, formatTime, i + 1);
    } else {
      assert cs[..i] == cs;
    }
  }

  /** The whole search: an unknown kind answers `[]` without a request; a
      failed page fetch leaves the page unbound and raises; otherwise the
      scheduled calls are gathered. */
  function UpcomingResult(query: string, findBy: string, variant: Variant, page: Option<seq<SearchBox>>,
                          fetch: string -> Option<Payload>, urljoin: (string, string) -> string,
                          formatTime: int -> string, rd: Readers): Outcome<seq<Upcoming>>
  {
    if findBy != "clubs" && findBy != "players" then Ok([])
    else if page.None? then Raised(FetchFailed)
    else match Candidates(page.value, query, findBy, variant, rd)
      case Raised(f) => Raised(f)
      case Ok(cs) => Gather(cs, fetch, urljoin, formatTime)
  }

  /** Only the two known kinds reach the network. */
  lemma {:induction false} UnknownKindAnswersEmpty(query: string, findBy: string, variant: Variant, page: Option<seq<SearchBox>>,
                                fetch: string -> Option<Payload>, urljoin: (string, string) -> string,
                                formatTime: int -> string, rd: Readers)
    requires findBy != "clubs" && findBy != "players"
    ensures UpcomingResult(query, findBy, variant, page, fetch, urljoin, formatTime, rd) == Ok([])
  {
  }

  /** The loop body over one row of a searched box. */
  method ScheduleRow(row: SearchRow, query: string, findBy: string, variant: Variant, rd: Readers)
    returns (r: Outcome<Option<Candidate>>)
    ensures r == RowCandidate(row, query, findBy, variant, rd)
  {
    var image: Option<Option<string>> := None;
    if variant.WithCrests? {
      var imageUrl: Option<string> := Some("");
      if row.crest.Crest? {
        if row.crest.img.None? {
          return Raised(NoneAttribute);
        }
        imageUrl := rd.image(row.crest.img.value);
      }
      image := Some(imageUrl);
    }
    if row.main.NoMainCell? {
      return Raised(NoneAttribute);
    }
    var player := row.main.anchor;
    if player.None? {
      return Ok(None);
    }
    var name := rd.text(player.value);
    var href := GetHref(player.value);
    if href.None? {
      return Raised(NoneAttribute);
    }
    var c := Candidate(name, image, LastSegment(href.value), findBy == "clubs");
    if variant.Plain? {
      return Ok(Some(c));
    }
    r := Ok(None);
    if findBy == "players" {
      if name.None? {
        return Raised(NoneAttribute);
      }
      if IsSubstring(Upper(query), Upper(name.value)) {
        r := Ok(Some(c));
      }
    }
    if findBy == "clubs" {
      r := Ok(Some(c));
    }
  }

  /** The inner loop over the rows of a searched box. */
  method ScheduleBox(rows: seq<SearchRow>, query: string, findBy: string, variant: Variant, rd: Readers)
    returns (r: Outcome<seq<Candidate>>)
    ensures r == RowsCandidates(rows, query, findBy, variant, rd)
  {
    var tasks: seq<Candidate> := [];
    var j := 0;
    while j < |rows|
      invariant 0 <= j <= |rows|
      invariant RowsCandidates(rows[..j], query, findBy, variant, rd) == Ok(tasks)
    {
      assert rows[..j + 1][..j] == rows[..j];
      var c := ScheduleRow(rows[j], query, findBy, variant, rd);
      if c.Raised? {
        RowsRaisedSticks(rows, query, findBy, variant, rd, j + 1);
        return Raised(c.fault);
      }
      if c.value.Some? {
        tasks := tasks + [c.value.value];
      }
      j := j + 1;
    }
    assert rows[..j] == rows;
    r := Ok(tasks);
  }

  /** The outer loop over the result boxes, skipping those whose headline
      does not mention `findBy`. */
  method ScheduleCalls(boxes: seq<SearchBox>, query: string, findBy: string, variant: Variant, rd: Readers)
    returns (r: Outcome<seq<Candidate>>)
    ensures r == Candidates(boxes, query, findBy, variant, rd)
  {
    var tasks: seq<Candidate> := [];
    var i := 0;
    while i < |boxes|
      invariant 0 <= i <= |boxes|
      invariant Candidates(boxes[..i], query, findBy, variant, rd) == Ok(tasks)
    {
      var box := boxes[i];
      assert boxes[..i + 1][..i] == boxes[..i] && boxes[..i + 1][i] == box;
      var listed := Listed(box, findBy, rd);
      if listed.Raised? {
        CandidatesRaisedSticks(boxes, query, findBy, variant, rd, i + 1);
        return Raised(listed.fault);
      }
      if listed.value {
        var rowTasks := ScheduleBox(box.rows, query, findBy, variant, rd);
        if rowTasks.Raised? {
          CandidatesRaisedSticks(boxes, query, findBy, variant, rd, i + 1);
          return Raised(rowTasks.fault);
        }
        tasks := tasks + rowTasks.value;
      }
      i := i + 1;
    }
    assert boxes[..i] == boxes;
    r := Ok(tasks);
  }

  /** `await asyncio.gather(*tasks)`, one call after the other. */
  method GatherCalls(tasks: seq<Candidate>, fetch: string -> Option<Payload>,
                     urljoin: (string, string) -> string, formatTime: int -> string)
    returns (r: Outcome<seq<Upcoming>>)
    ensures r == Gather(tasks, fetch, urljoin, formatTime)
  {
    var results: seq<Upcoming> := [];
    var k := 0;
    while k < |tasks|
      invariant 0 <= k <= |tasks|
      invariant Gather(tasks[..k], fetch, urljoin, formatTime) == Ok(results)
    {
      assert tasks[..k + 1][..k] == tasks[..k];
      var c := tasks[k];
      var x := NextMatchById(c.name, c.image, c.id, c.isClub, fetch, urljoin, formatTime);
      if x.Raised? {
        GatherRaisedSticks(tasks, fetch, urljoin, formatTime, k + 1);
        return Raised(x.fault);
      }
      results := results + [x.value];
      k := k + 1;
    }
    assert tasks[..k] == tasks;
    r := Ok(results);
  }

  /** `upcoming_matches` and `upcoming_matches_new`. */
  method UpcomingMatches(query: string, findBy: string, variant: Variant, page: Option<seq<SearchBox>>,
                         fetch: string -> Option<Payload>, urljoin: (string, string) -> string,
                         formatTime: int -> string, norm: string -> string)
    returns (r: Outcome<seq<Upcoming>>)
    ensures r == UpcomingResult(query, findBy, variant, page, fetch, urljoin, formatTime, ReadersFor(norm))
  {
    if findBy != "clubs" && findBy != "players" {
      return Ok([]);
    }
    if page.None? {
      return Raised(FetchFailed);
    }
    var tasks := ScheduleCalls(page.value, query, findBy, variant, ReadersFor(norm));
    if tasks.Raised? {
      return Raised(tasks.fault);
    }
    r := GatherCalls(tasks.value, fetch, urljoin, formatTime);
  }
}
