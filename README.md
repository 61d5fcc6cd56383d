# Football scraper core in Dafny

This project models the deterministic shaping code of a small football data
service. The Python sources are `main.py` and the FastAPI handlers of
`api/route.py`. The service scrapes:

- live scores (bongda24h.vn);
- club news;
- Transfermarkt's quick search and its next-fixture API;
- the Google Trends daily answer.

It resolves scraped club and country names against a reference table
(`data/club_details.csv`) by fuzzy matching.

Everything between the network fetches is modelled as functions over
already-fetched, already-selected data:

- the fuzzy selection;
- the text-fallback helpers;
- the header-to-column walk;
- the player records;
- the live-score block scan;
- the news records;
- the next-fixture shaping and the choice of search rows that schedule a fixture call;
- the Trends guard strip;
- the handlers' not-found guards and their comma-split aggregation.

Foreign calls are parameters of the model:

- BeautifulSoup selection is replaced by datatypes that hold each selector's result;
- the `thefuzz` scorer, NFKC normalisation, `dateparser` and `pytz` conversions,
  `urllib.parse.urljoin` and the fetches are function-typed parameters.

A fetch that fails is `None` or a `Raised` outcome.

Python semantics that matter to the code are written out in `pystr.dfy` and
`ordered_dict.dfy`:

- `str.strip` over Python's 29 whitespace code points, and `lstrip` with a
  character set;
- `split`, substring tests, ASCII `upper`/`lower`, and `int()` on a string;
- dict insertion order with in-place overwrite;
- negative list indices (`PyIndex` in `player_search.dfy`).

An exception that the source lets escape becomes the `Raised(fault)` outcome of
`Outcome`. Its `Fault` names the Python exception: `IndexError`, `KeyError`,
`ValueError`, `AttributeError` on None, or a failed or unbound fetch.

Modules (one file each):

- `Wrappers`: Option, Fault, Outcome.
- `PyStr`: Python string built-ins.
- `OrderedDict`: insertion-ordered dict.
- `Elements`: the `get_*` helpers.
- `Fuzzy`: `search`.
- `Dataset`: the reference table.
- `LiveScores`: `get_livescores`.
- `News`: `get_news`.
- `PlayerSearch`: `search_player`, `process_players`.
- `Upcoming`: the next-fixture functions.
- `Trends`: the guard strip of `trending_matches`.
- `Routes`: the handlers of `api/route.py`.

The source's loops are methods with loop invariants. Each is proved equal to
a recursive specification function, and lemmas prove what the source promises
about that function. The methods with loops are:

- `GetLivescores`, `GetNews`;
- `HeaderPositions`, `Nationalities`, `ProcessRow`, `ProcessPlayers`, `SearchPlayer`;
- `BuildTeamMap`, `ScheduleBox`/`ScheduleCalls`, `GatherCalls`;
- `NextMatchNewRoute`.

`ScheduleRow` is the body of the row loop in `ScheduleBox`, as a method of its own.

Behaviours of the code worth stating:

- An article without an `.article-title` raises `IndexError`; it is not skipped.
- The `len(tds) > pos` guard of the `Age` column can never be false once
  `tds[pos]` has been read, so it is carried but has no effect.
- `int(th.attrs.get("colspan", 1))` is a real `int()` on a string, so a
  non-numeric `colspan` raises `ValueError`.

## Model

| member | source | states |
|---|---|---|
| Fuzzy.Qualifying | main.py:192-193 | the names kept by the score cutoff: each is in `db` and reaches the cutoff, and every name of `db` reaching the cutoff is kept |
| Fuzzy.InsertPerm | main.py:192-194 | ranking by insertion adds exactly one occurrence of the inserted name (multiset) |
| Fuzzy.InsertSorted | main.py:192-194 | insertion keeps a non-increasing ranking non-increasing |
| Fuzzy.SortByScore | main.py:192-194 | the ranking is a permutation of the qualifying names, in non-increasing score order |
| Fuzzy.InsertStable | main.py:192-194 | inserting a name into a non-increasing ranking puts it after the names with the same score |
| Fuzzy.SortByScoreStable | main.py:192-194 | the ranking is stable: the names of any one score keep their order in `db` |
| Fuzzy.QualifyingTies | main.py:192-193 | the cutoff keeps every name of a score at or above the cutoff, in `db` order |
| Fuzzy.Search | main.py:191-195 | definition of `search`: the qualifying names, ranked by score, cut to `limit`; stated by the lemmas below |
| Fuzzy.SearchLength | main.py:191-195 | the result holds every name that reaches the cutoff, repeats included, up to `limit` |
| Fuzzy.SearchSound | main.py:191-195 | `search` returns at most `limit` names, each from `db` with a score of at least `cutoff`, in non-increasing score order |
| Fuzzy.SearchComplete | main.py:191-195 | a name of `db` that reaches the cutoff but is not returned means the result is full (`limit` names) and every returned name scores at least as much |
| Fuzzy.SearchStable | main.py:191-195 | the returned names of one reaching score are the first names of `db` with that score, in `db` order; a score below the cutoff returns none |
| Fuzzy.SearchHeadBest | main.py:191-195 | the first returned name scores at least as much as every name of `db` |
| Fuzzy.SearchFirstBest | main.py:191-195 | the first returned name is a best-scoring name of `db` and no earlier name of `db` scores as much |
| Fuzzy.SearchUniqueBest | main.py:191-195 | a name that beats every other name and reaches the cutoff comes first; with `limit=1` it is the whole result |
| Fuzzy.RankedHead | main.py:192-194 | in a non-increasing ranking, a strictly best name stands first |
| Dataset.Index | api/route.py:45 | `db.index` lists the row names in table order |
| Dataset.Row | api/route.py:62 | `db.loc[name]` finds a row exactly when the name is in the index, and that row has the name |
| Dataset.Resolve | main.py:268-273 | definition: `search` with `limit=1`, then the first row carrying the name found; stated by Dataset.ResolveSpec, Dataset.ResolveFirst and Dataset.ResolvePresentName |
| Dataset.RowFirst | main.py:268-273 | `db.loc[[name]]...[0]` takes the first row with that name |
| Dataset.RowOfFirstBest | main.py:268-273 | a name whose earlier rows all score below it is found at a row whose earlier rows all score below it |
| Dataset.ResolveFirst | main.py:268-273 | the resolved row is preceded only by rows that score strictly lower |
| Dataset.ResolveSpec | main.py:268-273 | the resolved row (search with limit 1, then `db.loc[...][0]`) is in the table, reaches the cutoff and is the first best-scoring row in table order; nothing resolves exactly when no row reaches the cutoff |
| Dataset.ResolvePresentName | main.py:268-273 | when a row's name beats every other name and reaches the cutoff, the resolved row is the first row carrying that name (that very row unless the name repeats) |
| Elements.Finish | main.py:226 | the normalised, stripped text is present exactly when the candidate text is truthy, and it is already stripped |
| Elements.GetText | main.py:229-234 | `get_text`: stripped text first, `title` only when the stripped text is empty; None exactly when the text is blank and the title is not truthy |
| Elements.GetText2 | main.py:221-226 | `get_text2`: a truthy `title` first, the stripped text otherwise; None exactly when both are empty |
| Elements.GetImage | main.py:237-242 | `get_image`: stripped text first, `src` as fallback; None exactly when both are empty |
| Elements.GetSrc | main.py:245-246 | `get_src` is the `src` attribute, absent exactly when the tag has none |
| Elements.GetHref | main.py:249-250 | `get_href` is the `href` attribute, absent exactly when the tag has none |
| Elements.TextPoliciesAgree | main.py:221-234 | when the text is blank or the title is not truthy, `get_text` and `get_text2` agree |
| LiveScores.Build | main.py:158-184 | a kept block's record carries the current league, the stripped home and away names with their logos and links, the parsed time (the raw text when time parsing fails), the parsed date and the stripped round title; `scores` is None exactly when the stripped score text contains `?`; an unparsable date or a missing round title raises |
| LiveScores.LeagueAfter | main.py:144-148 | definition of `lg_name` after a run of blocks; stated by LiveScores.LeagueAfterSpec |
| LiveScores.Keeps | main.py:149-156 | definition of the club filter; stated by LiveScores.SelectedSpec |
| LiveScores.Scan | main.py:143-188 | definition of the block loop; stated by LiveScores.ScanSpec, LiveScores.ScanValues and LiveScores.EmittedMatches |
| LiveScores.Selected | main.py:149-156 | the positions of the emitted blocks are match blocks in which the club plays |
| LiveScores.LeagueAfterSpec | main.py:144-148 | the league in force is the stripped heading of the latest header block, or "extra_details" when there is none |
| LiveScores.SelectedSpec | main.py:145-156 | every match block in which the club plays is selected, in strictly increasing listing order |
| LiveScores.ScanSpec | main.py:143-188 | the scan succeeds exactly when every kept block builds |
| LiveScores.ScanValues | main.py:143-188 | a successful scan holds one record per kept block, in listing order, each the record built for that block |
| LiveScores.EmittedMatches | main.py:143-188 | every emitted match has the club as home or away, carries the league of the latest earlier header block, and has `scores` None exactly when its score text contains `?` |
| LiveScores.ScanRaisedSticks | main.py:145-186 | an exception in a prefix of the listing is the exception of the whole scan |
| LiveScores.GetLivescores | main.py:138-188 | the loop over the blocks returns the scan of the fetched listing, or the fetch failure |
| News.FirstText | main.py:212-213 | an optional field is the stripped text of its first match, absent exactly when nothing matched |
| News.Digest | main.py:204-214 | an article builds exactly when it has an image link and a title (otherwise `IndexError`); link, title, summary and time are as selected |
| News.GetNews | main.py:198-218 | one record per article, in page order, exactly when every article builds; otherwise `IndexError` |
| OrderedDict.LookupKeys | main.py:258 | a key is found exactly when it is among the dict's keys |
| OrderedDict.PutKeys | main.py:322 | assigning an existing key keeps the key order; a new key goes last |
| OrderedDict.PutLookup | main.py:322 | after `d[k] = v`, `d[k]` is `v` and every other key keeps its value |
| OrderedDict.PutDistinct | main.py:322 | assignment keeps the keys distinct |
| PlayerSearch.PyIndex | main.py:259 | `tds[pos]` succeeds exactly for `-len <= pos < len`, counting from the end for negative positions; otherwise `IndexError` |
| PlayerSearch.Span | main.py:318 | definition of `int(th.attrs.get("colspan", 1))`; stated by PlayerSearch.SpanWritten |
| PlayerSearch.SpanWritten | main.py:318 | a header cell with a decimal `colspan` spans that many columns; one without it spans one |
| PlayerSearch.Columns | main.py:317-319 | one entry per header cell |
| PlayerSearch.ColumnsAt | main.py:317-319 | the entry of each header cell is its label and its parsed span |
| PlayerSearch.Width | main.py:316-321 | definition of `hd_cnt` after the parsed columns: the sum of their spans; stated by PlayerSearch.LayoutLast and PlayerSearch.PositionOfLabel |
| PlayerSearch.Layout | main.py:315-322 | definition of `header_col_pos` over the parsed columns, each label set to `hd_cnt - 1`; stated by PlayerSearch.LayoutKeys, PlayerSearch.LayoutDistinct and PlayerSearch.LayoutLast |
| PlayerSearch.LayoutKeys | main.py:316-322 | the position map has exactly the header labels as keys |
| PlayerSearch.LayoutDistinct | main.py:316-322 | the position map has no repeated key |
| PlayerSearch.LayoutLast | main.py:316-322 | a label maps to the sum of the spans up to and including its last occurrence, minus one |
| PlayerSearch.Positions | main.py:314-322 | definition of `header_col_pos`; stated by PlayerSearch.PositionsDistinct, PlayerSearch.PositionOfLabel and PlayerSearch.PositionAbsent |
| PlayerSearch.PositionsDistinct | main.py:316-322 | the header map of the cells has no repeated label |
| PlayerSearch.PositionOfLabel | main.py:316-322 | a label's column is the sum of the colspans of all headers up to and including its last occurrence, minus one; a later duplicate overwrites an earlier one |
| PlayerSearch.PositionAbsent | main.py:316-322 | a label is absent from the header map exactly when no header carries it |
| PlayerSearch.HeaderPositions | main.py:313-322 | the header loop builds the header map, or raises `ValueError` when some `colspan` is not an integer |
| PlayerSearch.ReadersFor | main.py:266-273 | definition of the cell readers: text by `get_text`, images by `src`, a club resolved from `get_text2` at cutoff 70 and a nation at cutoff 80 (main.py:280-288); stated through Dataset.ResolveSpec and PlayerSearch.RecordClub / PlayerSearch.RecordCountry |
| PlayerSearch.Countries | main.py:277-295 | definition of the nationality dict; stated by PlayerSearch.CountriesSpec |
| PlayerSearch.CountriesSpec | main.py:278-291 | the nationality dict maps each flag's original index to its resolved row, has exactly the indices of the flags that resolve, and is not compacted |
| PlayerSearch.Nationalities | main.py:278-291 | the loop over the flags builds that nationality dict |
| PlayerSearch.Fill | main.py:259-298 | a column's branch changes only its own fields; it raises, always `IndexError`, exactly when the `Name/Position` cell has no nested row, link or image or the `Club` cell has no image |
| PlayerSearch.Record | main.py:256-300 | definition of one row's record; stated by the Record lemmas below |
| PlayerSearch.RecordSnoc | main.py:258-298 | a row's record is the last column's update of the record of the columns before it, read at that column's position |
| PlayerSearch.RecordFault | main.py:256-298 | building a row raises only `IndexError` |
| PlayerSearch.RecordClub | main.py:265-275 | `club` is present exactly when the club cell's first image resolves at cutoff 70, and is that row |
| PlayerSearch.RecordCountry | main.py:277-295 | `country` is the nationality dict of the cell's flags, absent when no flag resolves at cutoff 80 |
| PlayerSearch.RecordName | main.py:260-263 | with a `Name/Position` column, name and image come from the first nested row's link and image |
| PlayerSearch.RecordAge | main.py:297-298 | with an `Age` column, `age` is the `get_text` of its cell |
| PlayerSearch.Table | main.py:253-302 | definition of `process_players`; stated by PlayerSearch.TableSpec and PlayerSearch.TableValues |
| PlayerSearch.TableSpec | main.py:253-302 | the table succeeds exactly when every row does; it holds exactly the non-empty records of the rows, each from some row |
| PlayerSearch.FilledRows | main.py:253-302 | the positions of the rows whose record is read and non-empty |
| PlayerSearch.FilledRowsSpec | main.py:253-302 | every such row is listed, and the positions strictly increase |
| PlayerSearch.TableValues | main.py:253-302 | on success the table is the records of those rows, one each, in row order |
| PlayerSearch.RecordRaisedSticks | main.py:258-298 | an exception in an early column is the row's exception |
| PlayerSearch.TableRaisedSticks | main.py:255-300 | an exception in an early row is the table's exception |
| PlayerSearch.ProcessRow | main.py:256-300 | the loop over the header map builds the row's record |
| PlayerSearch.ProcessPlayers | main.py:253-302 | the loop over the rows builds the table of non-empty records |
| PlayerSearch.IsPlayersBox | main.py:326-329 | definition of the headline test; stated by PlayerSearch.PlayersAfterLast and PlayerSearch.PlayersAfterNone |
| PlayerSearch.PlayersAfter | main.py:312-332 | definition of `results.get("players")` after the boxes; stated by PlayerSearch.PlayersAfterLast, PlayerSearch.PlayersAfterNone and PlayerSearch.PlayersAfterRaisedSticks |
| PlayerSearch.SearchResult | main.py:334 | definition of the returned list; stated by PlayerSearch.SearchPlayer |
| PlayerSearch.PlayersAfterLast | main.py:312-330 | the result is the table of the last box whose headline contains "players" |
| PlayerSearch.PlayersAfterNone | main.py:326-334 | with no players box the answer is the empty list |
| PlayerSearch.PlayersAfterRaisedSticks | main.py:312-330 | an exception in an early box is the search's exception |
| PlayerSearch.SearchPlayer | main.py:305-334 | the loop over the boxes returns the players of the last players box, `[]` when there is none, or the fetch failure |
| PyStr.Strip | main.py:147 | definition of `str.strip()`; stated by PyStr.TrimBothSpec, PyStr.StripEmptyIff and PyStr.StripIdempotent |
| PyStr.TrimStartSpec | main.py:488 | `lstrip(cs)` is a suffix that does not start with a member of `cs`, and everything dropped is in `cs` |
| PyStr.TrimEndSpec | main.py:147 | the right-hand strip is a prefix that does not end with a member of the set, and everything dropped is in it |
| PyStr.TrimBothSpec | main.py:147 | `strip` is a contiguous slice that neither starts nor ends with whitespace, and everything outside it is whitespace |
| PyStr.TrimBothKeeps | main.py:147 | a string that neither starts nor ends with whitespace is its own strip |
| PyStr.TrimBothEmptyIff | main.py:230-231 | the strip is empty exactly when every character is in the set |
| PyStr.TrimBothIdempotent | main.py:226 | stripping twice is stripping once |
| PyStr.StripEmptyIff | main.py:230-231 | `s.strip()` is empty exactly when every character is Python whitespace |
| PyStr.StripIdempotent | main.py:226 | `s.strip().strip()` equals `s.strip()` |
| PyStr.Split | api/route.py:89 | `split(sep)` yields at least one part, none containing the separator |
| PyStr.JoinSplit | api/route.py:89 | joining the parts of `split(sep)` with the separator gives back the string |
| PyStr.SplitNoSep | api/route.py:121 | a string without the separator splits into itself |
| PyStr.SplitAfterSep | api/route.py:89 | a separator followed by a separator-free tail adds that tail as the last part |
| PyStr.SplitJoin | api/route.py:89 | `split` inverts `join` of separator-free parts |
| PyStr.Upper | main.py:473 | `upper` keeps the length, leaves no lower-case ASCII letter, changes each character only in case, and leaves non-letters alone |
| PyStr.Lower | main.py:422 | `lower` keeps the length, leaves no upper-case ASCII letter, changes each character only in case, and leaves non-letters alone |
| PyStr.UpperKeepsSubstring | main.py:473 | a substring stays a substring after both sides are upper-cased |
| PyStr.ParseInt | main.py:318 | definition of `int()` on a string; stated by PyStr.ParseIntRoundTrip |
| PyStr.NatStringDigits | main.py:352 | the decimal writing of a natural number is digits only, and reads back as that number |
| PyStr.ParseIntRoundTrip | main.py:352 | `int(str(n)) == n` for every integer |
| Trends.StripGuard | main.py:488 | `lstrip(")]}',\n")` is a suffix of the payload not starting with a guard character, everything dropped being one |
| Trends.StripGuardKeeps | main.py:488 | a payload not starting with a guard character is unchanged |
| Trends.StripGuardIdempotent | main.py:488 | the guard strip is idempotent |
| Trends.StripGuardRemovesGuard | main.py:488 | the literal `)]}',\n` prefix in front of a JSON text is removed exactly |
| Upcoming.TeamMap | main.py:350-352 | building the team map raises only `ValueError` (a non-integer id) |
| Upcoming.TeamMapOk | main.py:350-352 | the team map builds exactly when every id is an integer literal |
| Upcoming.TeamMapKeys | main.py:350-352 | its keys are exactly the integer values of the ids |
| Upcoming.TeamMapLast | main.py:383-385 | an id maps to the team of its last entry (later duplicates overwrite) |
| Upcoming.TeamMapRaisedSticks | main.py:351-352 | an exception in an early entry is the map's exception |
| Upcoming.Shape | main.py:347-366 | an empty `matches` list gives the "No data found" record, with `image` in the crest variant; otherwise the first match's home and away ids are looked up in the team map (`ValueError` or `KeyError` on failure), with competition, names, crests and the formatted time |
| Upcoming.ApiLink | main.py:338-341 | definition of the `nextMatches` endpoint, `team/<id>` for a club and `player/<id>` for a player (also main.py:371-374); used by Upcoming.NextMatch |
| Upcoming.ShapeFindsTeams | main.py:380-396 | when the teams are keyed by the decimal writing of the fixture's ids, the record names exactly those teams |
| Upcoming.NextMatch | main.py:337-367 | definition of one fetch and its record; stated by Upcoming.Shape and Upcoming.NextMatchById |
| Upcoming.BuildTeamMap | main.py:383-385 | the loop over `teams.items()` builds the team map |
| Upcoming.NextMatchById | main.py:370-402 | the fixture call returns the shaped record of the fetched answer, or the fetch failure |
| Upcoming.LastSegment | main.py:472 | definition of `get_href(player).split("/")[-1]`; stated by Upcoming.LastSegmentSpec |
| Upcoming.LastSegmentSpec | main.py:433 | `href.split("/")[-1]` is a slash-free suffix of the href that follows its last slash |
| Upcoming.CrestImage | main.py:463-466 | a row without a crest cell gives `""`; a crest cell without an `img` raises `AttributeError` |
| Upcoming.RowCandidate | main.py:462-477 | definition of one row's scheduling; stated by Upcoming.RowCandidateSpec, Upcoming.RowCandidateScheduled and Upcoming.RowCandidateLiteral |
| Upcoming.RowCandidateSpec | main.py:462-477 | a scheduled call carries the kind searched for, the anchor's text as its name, the last href segment as its id, a crest exactly in the crest variant and, for players in the crest variant, a name containing the query ignoring case; a row without a `hauptlink` cell raises |
| Upcoming.RowCandidateScheduled | main.py:468-477 | a row with an anchor and an href is scheduled in the plain variant and for clubs, and for players when the upper-cased name contains the upper-cased query (in the crest variant, given a crest cell with an image or none at all) |
| Upcoming.RowCandidateLiteral | main.py:468-477 | in particular a player row is scheduled when its name literally contains the query |
| Upcoming.RowsCandidates | main.py:462-477 | definition of the row loop of one box (also main.py:428-434); stated by Upcoming.RowsEligible, Upcoming.RowsOk and Upcoming.RowsValues |
| Upcoming.Scheduled | main.py:462-477 | the positions of the rows that schedule a call |
| Upcoming.ScheduledSpec | main.py:462-477 | every scheduling row is listed, and the positions strictly increase |
| Upcoming.RowsOk | main.py:462-477 | a box's rows schedule without a fault exactly when no row raises |
| Upcoming.RowsValues | main.py:462-477 | on success the calls of a box are the calls of its scheduling rows, one each, in row order |
| Upcoming.Listed | main.py:455-458 | definition of the headline filter: `findBy` in the lower-cased headline text, a headline without text raising (also main.py:421-425); stated by Upcoming.CandidatesUnlisted and Upcoming.CandidatesValues |
| Upcoming.RowsEligible | main.py:428-434 | every call a box schedules is eligible, at most one per row |
| Upcoming.Candidates | main.py:453-477 | definition of the calls scheduled over the boxes; stated by Upcoming.CandidatesEligible and Upcoming.CandidatesUnlisted |
| Upcoming.BoxCalls | main.py:453-477 | definition of the calls one box adds: its rows' calls when listed, none otherwise; stated by Upcoming.CandidatesValues |
| Upcoming.PageCalls | main.py:453-477 | definition of the boxes' calls concatenated in page order; stated by Upcoming.CandidatesValues |
| Upcoming.CandidatesValues | main.py:453-477 | the page schedules without a fault exactly when every headline has text and every listed box's rows schedule; the calls are then the listed boxes' calls, box by box, each box in row order |
| Upcoming.CandidatesEligible | main.py:419-434 | every call scheduled over the page is eligible |
| Upcoming.CandidatesUnlisted | main.py:453-458 | boxes whose headline does not contain `findBy` schedule nothing |
| Upcoming.RowsRaisedSticks | main.py:428-434 | an exception in an early row is the box's exception |
| Upcoming.CandidatesRaisedSticks | main.py:419-434 | an exception in an early box is the page's exception |
| Upcoming.Call | main.py:475-477 | definition of one scheduled call: the next-match fetch for its name, crest, id and kind (also main.py:433); stated by Upcoming.GatherOk |
| Upcoming.Gather | main.py:479 | definition of `asyncio.gather`, read sequentially; stated by Upcoming.GatherOk and Upcoming.GatherFirstFault |
| Upcoming.GatherOk | main.py:436 | gathering succeeds exactly when every call does, and then holds one record per call in scheduling order |
| Upcoming.GatherFirstFault | main.py:479 | a failed gather reports the exception of the earliest failing call |
| Upcoming.GatherRaisedSticks | main.py:436 | an exception in an early call is the gather's exception |
| Upcoming.UpcomingResult | main.py:439-479 | definition of the whole search; stated by Upcoming.UnknownKindAnswersEmpty and Upcoming.UpcomingMatches |
| Upcoming.UnknownKindAnswersEmpty | main.py:406-407 | a `findBy` other than "clubs" or "players" answers `[]` |
| Upcoming.ScheduleRow | main.py:462-477 | one row's scheduling step is the row's candidate |
| Upcoming.ScheduleBox | main.py:460-477 | the loop over a box's rows schedules its candidates in row order |
| Upcoming.ScheduleCalls | main.py:453-477 | the loop over the boxes schedules the page's candidates in page order |
| Upcoming.GatherCalls | main.py:479 | the loop over the tasks is the gather |
| Upcoming.UpcomingMatches | main.py:405-436 | `upcoming_matches` / `upcoming_matches_new` return the gathered records of the scheduled calls |
| Routes.Detail | api/route.py:78-134 | definition of the not-found detail of each kind; stated by Routes.NextMatchRoute and Routes.NextMatchNewRoute |
| Routes.Livescores | api/route.py:42-51 | a club missing from the index is answered not-found; otherwise the scan of the page, or its exception |
| Routes.ClubNews | api/route.py:54-64 | a club missing from the index is answered not-found; otherwise the news of the club's `club_link` page, one record per article |
| Routes.Respond | api/route.py:78-84 | an empty result list is the not-found answer with the given detail; a non-empty one is the body; exceptions pass through |
| Routes.NextMatchRoute | api/route.py:75-84 | `/nextMatch/players/...` (and `/nextMatch/clubs/...`, lines 106-116) answers the single plain search: not-found with the kind's detail when it is empty, the results otherwise |
| Routes.Aggregate | api/route.py:89-95 | definition of the loop over the terms; stated by Routes.AggregateOk, Routes.AggregateConcat and Routes.AggregateEmpty |
| Routes.Results | api/route.py:92-95 | one result list per term: the result of searching that term |
| Routes.AggregateOk | api/route.py:92-95 | aggregation succeeds exactly when every term's search does |
| Routes.AggregateConcat | api/route.py:121-126 | a successful aggregate is the concatenation of the terms' lists, in term order |
| Routes.AggregateEmpty | api/route.py:97-101 | the aggregate is empty, and the route answers not-found, exactly when every term's search returns `[]` |
| Routes.AggregateRaisedSticks | api/route.py:92-95 | an exception in an early term ends the request with that exception |
| Routes.AggregateStep | api/route.py:123-126 | one term's step appends its list to the aggregate so far |
| Routes.NextMatchNewRoute | api/route.py:87-103 | `/nextMatchNew/...` splits the path at commas, aggregates the per-term crest searches, and answers not-found ("player/club not in our record") when the total is empty |

## Left out

- Network I/O: `make_soup`, `make_json`, `make_json_new` and their tenacity
  retry (main.py:27-62). A fetch is a parameter that yields a page or a failure.
- Swallowed fetch errors: when a fetch fails, the source logs and then uses
  the unbound `json_resp`/`pageSoup`. That is modelled as the `FetchFailed` fault.
- File I/O: `store_leagues_links` and `store_club_details` (CSV append and
  rewrite, `drop_duplicates`, `time.sleep`); `pd.read_csv` per request.
  The table is a parameter.
- Concurrency: `asyncio.gather` is a sequential, order-preserving map. When
  several calls raise, the earliest one's exception is reported.
- Foreign libraries: `dateparser`, `pytz` and `strftime` conversions; the process-wide `TZ` setting;
  `unicodedata.normalize`; `fuzz.ratio` with thefuzz's preprocessing;
  `urljoin` (section 5.2 of RFC 3986); BeautifulSoup selection. Each is an
  uninterpreted parameter or a selector result held in a datatype.
- Trends decoding: `json.loads` of the Trends payload and the `['default']['trendingSearchesDays']` lookup
  (main.py:488-489) are left out. So is the except branch (main.py:492-494): it calls the nonexistent
  `logger.infor` and would itself raise `AttributeError`. Only the guard strip is modelled.
- Trivial handlers: `search_term`, `player_search`, `get_trending_match` and `root` (api/route.py:28-39,
  67-72, 137-142) forward one call and wrap its result. The FastAPI app, CORS
  and the HTTP status of the returned (not raised) `HTTPException` are also left out.
  The `date` argument of `/livescores` (whose default is evaluated once, at
  import time) only selects the listing URL, so it is part of the fetched page.
- PyStr.Upper: only ASCII letters are upper-cased; Python's mapping of other letters (such as `'ß'.upper() == 'SS'`, which changes the length) is not modelled.
- PyStr.Lower: only ASCII letters are lower-cased; Python's mapping of other letters is not modelled.
- Integer parsing: `int()`'s acceptance of underscores and non-ASCII digits is not modelled.
- Duplicate row names: `db.loc[club, "club_link"]` (api/route.py:62) on a name that heads several rows yields a Series of links, not a single link. The model takes the link of the first such row.
- PlayerSearch.RecordFault: the club and nationality queries come from `get_text2`, which can yield None (main.py:266, 280). That None is passed to `search` as it is. thefuzz might raise `TypeError` on it or score it as a string. Fuzzy.Search leaves this to the `score` parameter, so "every fault is `IndexError`" holds only because the scorer cannot raise.
- JSON shape: a fixture answer is assumed to have the `matches`, `teams`,
  `competition.label`, `match.home/away/time`, `name` and `image2x` fields
  with the right types. Only an empty `matches` list, a non-integer team id
  and a missing team are modelled.
- Live-score selectors: every header block is assumed to contain an `h3`. Without one, `div.select("h3")[0]` (main.py:147) raises `IndexError`; that is not modelled.
  Every match block, kept or not, is assumed to contain `.club1>img` and `.club2>img`, each with an `alt`. They are read before the club filter (main.py:150-155), so a missing one would raise even for a skipped block; that is not modelled.
  A kept block is further assumed to contain `span.soccer-scores`, `span.time`, `span.date` and the round element. Only a missing round `title` and an unparsable date raise in the model.
- Player records: the key order of the player record dict and the pandas
  record layout of a resolved row (`reset_index().to_dict`) are reduced to the
  `Player` and `Entity` fields. The non-matching-nation `logger.warning` is left out.
