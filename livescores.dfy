/** The live-score block scan (main.py `get_livescores`): a walk over the
    sibling blocks of the score listing in which a header block sets the
    current league and a match block is emitted when the queried club plays
    in it. Date/time parsing and UTC conversion are the parameters `utcTime`
    and `utcDate`; each yields None when dateparser cannot parse its text. */
module LiveScores {
  import opened Wrappers
  import opened PyStr

  /** The selector results of a match block, as found in the markup. */
  datatype MatchFields = MatchFields(
    homeAlt: string, homeLogo: Option<string>, homeLink: Option<string>,
    awayAlt: string, awayLogo: Option<string>, awayLink: Option<string>,
    scoreText: string, timeText: string, dateText: string,
    roundTitle: Option<string>)

  /** A child `div` of the listing, by its exact class list:
      `["football-header"]`, `["football-match-livescore"]`, or anything else. */
  datatype Block = Header(heading: string) | Fixture(fields: MatchFields) | Other

  datatype Side = Side(name: string, logo: Option<string>, link: Option<string>)

  datatype Match = Match(
    league: string, time: string, date: string, round: string,
    home: Side, away: Side, scores: Option<string>)

  const NoLeague: string := "extra_details"

  /** The league in force after the blocks of `p`: the stripped heading of the
      last header block, or "extra_details" before any. */
  function LeagueAfter(p: seq<Block>): string
  {
    if p == [] then NoLeague
    else if p[|p| - 1].Header? then Strip(p[|p| - 1].heading)
    else LeagueAfter(p[..|p| - 1])
  }

  /** A block is emitted only when it is a match block in which `club` is the
      exact (stripped) home or away name. */
  predicate Keeps(b: Block, club: string)
  {
    b.Fixture? && (club == Strip(b.fields.homeAlt) || club == Strip(b.fields.awayAlt))
  }

  /** The record of one emitted match block; an unparsable date or a missing
      round title raises, as `.astimezone` / `.strip` on None do. */
  function Build(f: MatchFields, league: string, utcTime: string -> Option<string>,
                 utcDate: string -> Option<string>): (r: Outcome<Match>)
    ensures r.Ok? <==> utcDate(Strip(f.dateText)).Some? && f.roundTitle.Some?
    ensures r.Ok? ==> r.value.league == league
    ensures r.Ok? ==> r.value.home.name == Strip(f.homeAlt) && r.value.away.name == Strip(f.awayAlt)
    ensures r.Ok? ==> r.value.home.logo == f.homeLogo && r.value.home.link == f.homeLink
    ensures r.Ok? ==> r.value.away.logo == f.awayLogo && r.value.away.link == f.awayLink
    ensures r.Ok? ==> r.value.date == utcDate(Strip(f.dateText)).value && r.value.round == Strip(f.roundTitle.value)
    ensures r.Ok? ==> (r.value.scores.None? <==> '?' in Strip(f.scoreText))
    ensures r.Ok? && r.value.scores.Some? ==> r.value.scores.value == Strip(f.scoreText)
    ensures r.Ok? ==> (r.value.time ==
      if utcTime(Strip(f.timeText)).Some? then utcTime(Strip(f.timeText)).value else Strip(f.timeText))
  {
    var score := Strip(f.scoreText);
    var timeText := Strip(f.timeText);
    var time := match utcTime(timeText) case Some(t) => t case None => timeText;
    match utcDate(Strip(f.dateText))
    case None => Raised(NoneAttribute)
    case Some(date) =>
      match f.roundTitle
      case None => Raised(NoneAttribute)
      case Some(round) =>
        Ok(Match(league, time, date, Strip(round),
                 Side(Strip(f.homeAlt), f.homeLogo, f.homeLink),
                 Side(Strip(f.awayAlt), f.awayLogo, f.awayLink),
                 if '?' in score then None else Some(score)))
  }

  /** The emitted matches of the whole listing, block by block. */
  function Scan(bs: seq<Block>, club: string, utcTime: string -> Option<string>,
                utcDate: string -> Option<string>): Outcome<seq<Match>>
  {
    if bs == [] then Ok([])
    else
      var init := bs[..|bs| - 1];
      var b := bs[|bs| - 1];
      match Scan(init, club, utcTime, utcDate)
      case Raised(e) => Raised(e)
      case Ok(ms) =>
        if Keeps(b, club) then
          match Build(b.fields, LeagueAfter(init), utcTime, utcDate)
          case Raised(e) => Raised(e)
          case Ok(m) => Ok(ms + [m])
        else Ok(ms)
  }

  /** The positions of the emitted blocks, in listing order. */
  function Selected(bs: seq<Block>, club: string): (js: seq<nat>)
    ensures forall k :: 0 <= k < |js| ==> js[k] < |bs| && Keeps(bs[js[k]], club)
  {
    if bs == [] then []
    else
      var init := bs[..|bs| - 1];
      var js := Selected(init, club);
      if Keeps(bs[|bs| - 1], club) then js + [|bs| - 1] else js
  }

  /** The league of a block is the heading of the nearest header above it,
      or "extra_details" when there is none. */
  lemma {:induction false} LeagueAfterSpec(p: seq<Block>)
    ensures (forall j :: 0 <= j < |p| ==> !p[j].Header?) ==> LeagueAfter(p) == NoLeague
    ensures forall j :: (0 <= j < |p| && p[j].Header? && (forall i :: j < i < |p| ==> !p[i].Header?)
      ==> LeagueAfter(p) == Strip(p[j].heading))
  {
    if p != [] {
      var init := p[..|p| - 1];
      LeagueAfterSpec(init);
      forall j | (0 <= j < |p| - 1 && p[j].Header? && forall i :: j < i < |p| ==> !p[i].Header?)
        ensures LeagueAfter(p) == Strip(p[j].heading)
      {
        assert init[j] == p[j];
        assert forall i :: j < i < |init| ==> init[i] == p[i];
      }
    }
  }

  /** The build of the match block at position `j`, with the league in force there. */
  function BuildAt(bs: seq<Block>, j: nat, utcTime: string -> Option<string>,
                   utcDate: string -> Option<string>): Outcome<Match>
    requires j < |bs| && bs[j].Fixture?
  {
    Build(bs[j].fields, LeagueAfter(bs[..j]), utcTime, utcDate)
  }

  lemma {:induction false} BuildAtPrefix(bs: seq<Block>, n: nat, j: nat, utcTime: string -> Option<string>,
                      utcDate: string -> Option<string>)
    requires j < n <= |bs| && bs[j].Fixture?
    ensures BuildAt(bs, j, utcTime, utcDate) == BuildAt(bs[..n], j, utcTime, utcDate)
  {
    assert bs[..n][..j] == bs[..j];
  }

  /** Once a block has raised, the scan stays raised with that fault. */
  lemma {:induction false} ScanRaisedSticks(bs: seq<Block>, n: nat, club: string,
      utcTime: string -> Option<string>, utcDate: string -> Option<string>)
    requires n <= |bs| && Scan(bs[..n], club, utcTime, utcDate).Raised?
    ensures Scan(bs, club, utcTime, utcDate) == Scan(bs[..n], club, utcTime, utcDate)
    decreases |bs| - n
  {
    if n < |bs| {
      assert bs[..n + 1][..n] == bs[..n];
      ScanRaisedSticks(bs, n + 1, club, utcTime, utcDate);
    } else {
      assert bs[..n] == bs;
    }
  }

  /** Every kept block is selected, and positions come in listing order. */
  lemma {:induction false} SelectedSpec(bs: seq<Block>, club: string)
    ensures var js := Selected(bs, club);
      forall j :: 0 <= j < |bs| && Keeps(bs[j], club) ==> j in js
    ensures var js := Selected(bs, club);
      forall k, l :: 0 <= k < l < |js| ==> js[k] < js[l]
  {
    if bs != [] {
      var init := bs[..|bs| - 1];
      SelectedSpec(init, club);
      forall j | 0 <= j < |bs| - 1 && Keeps(bs[j], club) ensures j in Selected(bs, club) {
        assert init[j] == bs[j];
      }
    }
  }

  /** The step of the scan at a block that is not kept. */
  lemma {:induction false} ScanSkip(bs: seq<Block>, club: string,
      utcTime: string -> Option<string>, utcDate: string -> Option<string>)
    requires bs != [] && !Keeps(bs[|bs| - 1], club)
    ensures Scan(bs, club, utcTime, utcDate) == Scan(bs[..|bs| - 1], club, utcTime, utcDate)
    ensures Selected(bs, club) == Selected(bs[..|bs| - 1], club)
  {
  }

  /** The step of the scan at a kept block. */
  lemma {:induction false} ScanKeep(bs: seq<Block>, club: string,
      utcTime: string -> Option<string>, utcDate: string -> Option<string>)
    requires bs != [] && Keeps(bs[|bs| - 1], club)
    ensures var n := |bs|; var r' := Scan(bs[..n - 1], club, utcTime, utcDate);
      Scan(bs, club, utcTime, utcDate) ==
        if r'.Raised? then r'
        else match BuildAt(bs, n - 1, utcTime, utcDate)
          case Raised(e) => Raised(e)
          case Ok(m) => Ok(r'.value + [m])
    ensures Selected(bs, club) == Selected(bs[..|bs| - 1], club) + [|bs| - 1]
  {
  }

  /** A successful scan emits exactly the selected blocks, in order, each
      built with the league in force at its position; the scan raises
      exactly when one of the selected blocks cannot be built. */
  lemma {:induction false} ScanSpec(bs: seq<Block>, club: string,
      utcTime: string -> Option<string>, utcDate: string -> Option<string>)
    ensures var js := Selected(bs, club);
      Scan(bs, club, utcTime, utcDate).Ok? <==>
        forall k :: 0 <= k < |js| ==> BuildAt(bs, js[k], utcTime, utcDate).Ok?
  {
    if bs != [] {
      var n := |bs|;
      var init := bs[..n - 1];
      ScanSpec(init, club, utcTime, utcDate);
      var js' := Selected(init, club);
      var js := Selected(bs, club);
      forall k | 0 <= k < |js'| ensures BuildAt(bs, js'[k], utcTime, utcDate) == BuildAt(init, js'[k], utcTime, utcDate) {
        BuildAtPrefix(bs, n - 1, js'[k], utcTime, utcDate);
      }
      if Keeps(bs[n - 1], club) {
        ScanKeep(bs, club, utcTime, utcDate);
        assert js[|js'|] == n - 1;
        assert forall k :: 0 <= k < |js'| ==> js[k] == js'[k];
        if forall k :: 0 <= k < |js| ==> BuildAt(bs, js[k], utcTime, utcDate).Ok? {
          assert forall k :: 0 <= k < |js'| ==> BuildAt(init, js'[k], utcTime, utcDate).Ok?;
        }
      } else {
        ScanSkip(bs, club, utcTime, utcDate);
      }
    }
  }

  /** On success the scan holds one match per selected block, in order. */
  lemma {:induction false} ScanValues(bs: seq<Block>, club: string,
      utcTime: string -> Option<string>, utcDate: string -> Option<string>)
    requires Scan(bs, club, utcTime, utcDate).Ok?
    ensures var js := Selected(bs, club); var ms := Scan(bs, club, utcTime, utcDate).value;
      |ms| == |js| && forall k :: 0 <= k < |js| ==> BuildAt(bs, js[k], utcTime, utcDate) == Ok(ms[k])
  {
    if bs != [] {
      var n := |bs|;
      var init := bs[..n - 1];
      var js' := Selected(init, club);
      var js := Selected(bs, club);
      if Keeps(bs[n - 1], club) {
        ScanKeep(bs, club, utcTime, utcDate);
      } else {
        ScanSkip(bs, club, utcTime, utcDate);
      }
      ScanValues(init, club, utcTime, utcDate);
      forall k | 0 <= k < |js'| ensures BuildAt(bs, js'[k], utcTime, utcDate) == BuildAt(init, js'[k], utcTime, utcDate) {
        BuildAtPrefix(bs, n - 1, js'[k], utcTime, utcDate);
      }
    }
  }

  /** Every emitted match has the queried club as its home or away side,
      carries the league of the nearest header above its block, and has no
      score exactly when the score text holds a `?`. */
  lemma {:induction false} EmittedMatches(bs: seq<Block>, club: string,
      utcTime: string -> Option<string>, utcDate: string -> Option<string>)
    requires Scan(bs, club, utcTime, utcDate).Ok?
    ensures var ms := Scan(bs, club, utcTime, utcDate).value; var js := Selected(bs, club);
      |ms| == |js| && forall k :: 0 <= k < |ms| ==>
        && (ms[k].home.name == club || ms[k].away.name == club)
        && ms[k].league == LeagueAfter(bs[..js[k]])
        && (ms[k].scores.None? <==> '?' in Strip(bs[js[k]].fields.scoreText))
  {
    ScanValues(bs, club, utcTime, utcDate);
  }

  /** `get_livescores(club)` over the fetched listing; a failed fetch raises. */
  method GetLivescores(club: string, page: Outcome<seq<Block>>,
      utcTime: string -> Option<string>, utcDate: string -> Option<string>)
    returns (r: Outcome<seq<Match>>)
    ensures page.Raised? ==> r == Raised(page.fault)
    ensures page.Ok? ==> r == Scan(page.value, club, utcTime, utcDate)
  {
    if page.Raised? {
      return Raised(page.fault);
    }
    var bs := page.value;
    var matches: seq<Match> := [];
    var league := NoLeague;
    var i := 0;
    while i < |bs|
      invariant 0 <= i <= |bs|
      invariant league == LeagueAfter(bs[..i])
      invariant Scan(bs[..i], club, utcTime, utcDate) == Ok(matches)
    {
      var div := bs[i];
      assert bs[..i + 1][..i] == bs[..i];
      if div.Header? {
        league := Strip(div.heading);
      } else if div.Fixture? {
        var home, away := Strip(div.fields.homeAlt), Strip(div.fields.awayAlt);
        if club == home || club == away {
          var built := Build(div.fields, league, utcTime, utcDate);
          if built.Raised? {
            ScanRaisedSticks(bs, i + 1, club, utcTime, utcDate);
            return Raised(built.fault);
          }
          matches := matches + [built.value];
        }
      }
      i := i + 1;
    }
    assert bs[..i] == bs;
    r := Ok(matches);
  }
}
