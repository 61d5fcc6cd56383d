/** The Transfermarkt quick-search results (main.py `search_player` and
    `process_players`): the header row of each result table is turned into
    a label-to-column map, the headline picks the players table, and each
    body row becomes a player record whose club and nationalities are
    resolved against the reference table. Scoring and NFKC normalisation
    are the parameters `score` and `norm`. */
module PlayerSearch {
  import opened Wrappers
  import opened PyStr
  import opened OrderedDict
  import opened Elements
  import opened Dataset

  /** `s[i]` on a Python list: negative positions count from the end;
      anything outside `-|s| .. |s| - 1` raises `IndexError`. */
  function PyIndex<T>(s: seq<T>, i: int): (r: Outcome<T>)
    ensures r.Ok? <==> -|s| <= i < |s|
    ensures r.Raised? ==> r.fault == IndexOutOfRange
    ensures 0 <= i < |s| ==> r == Ok(s[i])
    ensures -|s| <= i < 0 ==> r == Ok(s[|s| + i])
  {
    if 0 <= i < |s| then Ok(s[i])
    else if -|s| <= i < 0 then Ok(s[|s| + i])
    else Raised(IndexOutOfRange)
  }

  // ---------------------------------------------------------------------
  // Header positions

  /** `int(th.attrs.get("colspan", 1))`. */
  function Span(th: Element): Outcome<int>
  {
    match Get(th.attrs, "colspan")
    case None => Ok(1)
    case Some(s) =>
      match ParseInt(s)
      case None => Raised(ValueError)
      case Some(n) => Ok(n)
  }

  /** A header cell whose `colspan` is written as a decimal integer spans
      that many columns; one without the attribute spans one. */
  lemma {:induction false} SpanWritten(th: Element, n: int)
    requires "colspan" in th.attrs ==> th.attrs["colspan"] == IntString(n)
    ensures Span(th) == Ok(if "colspan" in th.attrs then n else 1)
  {
    ParseIntRoundTrip(n);
  }

  predicate SpansParse(ths: seq<Element>)
  {
    forall k :: 0 <= k < |ths| ==> Span(ths[k]).Ok?
  }

  /** The label of a header cell: `get_text(th)`. The header walk below is
      stated for any labelling and used with this one. */
  function HeadLabel(norm: string -> string): Element -> Option<string>
  {
    th => GetText(th, norm)
  }

  /** A header cell as the walk sees it: its label and its span. */
  type Column = (Option<string>, int)

  /** The label and span of each header cell. */
  function Columns(ths: seq<Element>, labelOf: Element -> Option<string>): (cs: seq<Column>)
    requires SpansParse(ths)
    ensures |cs| == |ths|
  {
    if ths == [] then []
    else
      var init := ths[..|ths| - 1];
      assert forall k :: 0 <= k < |init| ==> init[k] == ths[k];
      Columns(init, labelOf) + [(labelOf(ths[|ths| - 1]), Span(ths[|ths| - 1]).value)]
  }

  lemma {:induction false} ColumnsAt(ths: seq<Element>, labelOf: Element -> Option<string>)
    requires SpansParse(ths)
    ensures |Columns(ths, labelOf)| == |ths|
    ensures forall k :: 0 <= k < |ths| ==> Columns(ths, labelOf)[k] == (labelOf(ths[k]), Span(ths[k]).value)
  {
    if ths != [] {
      var init := ths[..|ths| - 1];
      assert forall k :: 0 <= k < |init| ==> init[k] == ths[k];
      ColumnsAt(init, labelOf);
    }
  }

  /** The columns covered by `cs`: `hd_cnt` after walking them. */
  function Width(cs: seq<Column>): int
  {
    if cs == [] then 0 else Width(cs[..|cs| - 1]) + cs[|cs| - 1].1
  }

  /** `header_col_pos` after walking `cs`. */
  function Layout(cs: seq<Column>): Dict<Option<string>, int>
  {
    if cs == [] then []
    else Put(Layout(cs[..|cs| - 1]), cs[|cs| - 1].0, Width(cs) - 1)
  }

  /** The layout holds exactly the labels of `cs`. */
  lemma {:induction false} LayoutKeys(cs: seq<Column>)
    ensures forall l :: l in Keys(Layout(cs)) <==> l in Keys(cs)
  {
    if cs != [] {
      var init := cs[..|cs| - 1];
      LayoutKeys(init);
      var l := cs[|cs| - 1].0;
      PutKeys(Layout(init), l, Width(cs) - 1);
      assert cs == init + [cs[|cs| - 1]];
      KeysSnoc(init, cs[|cs| - 1]);
    }
  }

  /** The layout holds each label once. */
  lemma {:induction false} LayoutDistinct(cs: seq<Column>)
    ensures DistinctKeys(Layout(cs))
  {
    if cs != [] {
      var init := cs[..|cs| - 1];
      LayoutDistinct(init);
      PutDistinct(Layout(init), cs[|cs| - 1].0, Width(cs) - 1);
    }
  }

  /** A label maps to the last column covered by its last cell (the spans up
      to and including that cell, minus one). */
  lemma {:induction false} LayoutLast(cs: seq<Column>, j: nat)
    requires j < |cs|
    requires forall i :: j < i < |cs| ==> cs[i].0 != cs[j].0
    ensures Lookup(Layout(cs), cs[j].0) == Some(Width(cs[..j + 1]) - 1)
  {
    var init := cs[..|cs| - 1];
    PutLookup(Layout(init), cs[|cs| - 1].0, Width(cs) - 1, cs[j].0);
    if j == |cs| - 1 {
      assert cs[..j + 1] == cs;
    } else {
      LayoutLast(init, j);
      assert init[..j + 1] == cs[..j + 1];
    }
  }

  /** `header_col_pos` once the header cells `ths` have been walked. */
  function Positions(ths: seq<Element>, labelOf: Element -> Option<string>): Dict<Option<string>, int>
    requires SpansParse(ths)
  {
    Layout(Columns(ths, labelOf))
  }

  lemma {:induction false} PositionsDistinct(ths: seq<Element>, labelOf: Element -> Option<string>)
    requires SpansParse(ths)
    ensures DistinctKeys(Positions(ths, labelOf))
  {
    LayoutDistinct(Columns(ths, labelOf));
  }

  /** Each label of the header row maps to the last column covered by the
      last cell carrying it; a label no cell carries is absent. */
  lemma {:induction false} PositionOfLabel(ths: seq<Element>, labelOf: Element -> Option<string>, j: nat)
    requires SpansParse(ths) && j < |ths|
    requires forall i :: j < i < |ths| ==> labelOf(ths[i]) != labelOf(ths[j])
    ensures Lookup(Positions(ths, labelOf), labelOf(ths[j])) == Some(Width(Columns(ths, labelOf)[..j + 1]) - 1)
  {
    var cs := Columns(ths, labelOf);
    ColumnsAt(ths, labelOf);
    forall i | j < i < |cs| ensures cs[i].0 != cs[j].0 {
      assert cs[i].0 == labelOf(ths[i]) && cs[j].0 == labelOf(ths[j]);
    }
    LayoutLast(cs, j);
  }

  lemma {:induction false} PositionAbsent(ths: seq<Element>, labelOf: Element -> Option<string>, l: Option<string>)
    requires SpansParse(ths)
    ensures Lookup(Positions(ths, labelOf), l).None? <==> forall k :: 0 <= k < |ths| ==> labelOf(ths[k]) != l
  {
    var cs := Columns(ths, labelOf);
    ColumnsAt(ths, labelOf);
    LayoutKeys(cs);
    LookupKeys(Positions(ths, labelOf), l);
    KeysAt(cs);
    if Lookup(Positions(ths, labelOf), l).Some? {
      var k :| 0 <= k < |cs| && Keys(cs)[k] == l;
    }
  }

  lemma {:induction false} LayoutSnoc(cs: seq<Column>, c: Column)
    ensures Width(cs + [c]) == Width(cs) + c.1
    ensures Layout(cs + [c]) == Put(Layout(cs), c.0, Width(cs) + c.1 - 1)
  {
    assert (cs + [c])[..|cs|] == cs;
  }

  lemma {:induction false} ColumnsSnoc(ths: seq<Element>, i: nat, labelOf: Element -> Option<string>)
    requires i < |ths| && SpansParse(ths[..i]) && Span(ths[i]).Ok?
    ensures SpansParse(ths[..i + 1])
    ensures Columns(ths[..i + 1], labelOf) == Columns(ths[..i], labelOf) + [(labelOf(ths[i]), Span(ths[i]).value)]
  {
    assert ths[..i + 1][..i] == ths[..i];
    assert ths[..i + 1] == ths[..i] + [ths[i]];
  }

  /** One step of the header loop, as the walk over columns sees it. */
  lemma {:induction false} HeaderStep(ths: seq<Element>, i: nat, labelOf: Element -> Option<string>, cs: seq<Column>, p: int)
    requires i < |ths| && SpansParse(ths[..i]) && cs == Columns(ths[..i], labelOf) && Span(ths[i]) == Ok(p)
    ensures SpansParse(ths[..i + 1])
    ensures cs + [(labelOf(ths[i]), p)] == Columns(ths[..i + 1], labelOf)
    ensures Width(cs + [(labelOf(ths[i]), p)]) == Width(cs) + p
    ensures Layout(cs + [(labelOf(ths[i]), p)]) == Put(Layout(cs), labelOf(ths[i]), Width(cs) + p - 1)
  {
    ColumnsSnoc(ths, i, labelOf);
    LayoutSnoc(cs, (labelOf(ths[i]), p));
  }

  /** The header loop of `search_player`: `hd_cnt` accumulates the spans and
      each label is (re)assigned the last column its cell covers. */
  method HeaderPositions(ths: seq<Element>, labelOf: Element -> Option<string>) returns (r: Outcome<Dict<Option<string>, int>>)
    ensures SpansParse(ths) ==> r == Ok(Positions(ths, labelOf))
    ensures !SpansParse(ths) ==> r == Raised(ValueError)
  {
    var hdCnt := 0;
    var headerColPos: Dict<Option<string>, int> := [];
    ghost var cs: seq<Column> := [];
    var i := 0;
    while i < |ths|
      invariant 0 <= i <= |ths|
      invariant SpansParse(ths[..i]) && cs == Columns(ths[..i], labelOf)
      invariant hdCnt == Width(cs) && headerColPos == Layout(cs)
    {
      var th := ths[i];
      var p := Span(th);
      if p.Raised? {
        return Raised(ValueError);
      }
      var text := labelOf(th);
      HeaderStep(ths, i, labelOf, cs, p.value);
      cs := cs + [(text, p.value)];
      hdCnt := hdCnt + p.value;
      headerColPos := Put(headerColPos, text, hdCnt - 1);
      i := i + 1;
    }
    assert ths[..i] == ths;
    r := Ok(headerColPos);
  }

  // ---------------------------------------------------------------------
  // Player records

  /** The first nested row of a `Name/Position` cell: its
      `td.hauptlink>a` links and `td img` images. */
  datatype NestedRow = NestedRow(links: seq<Element>, images: seq<Element>)

  /** A body cell (`:scope > td`): the tag itself, its nested `tr` rows and
      all its `img` descendants. */
  datatype Cell = Cell(el: Element, rows: seq<NestedRow>, images: seq<Element>)

  /** The `df` dict of one row; a field is None while its key is absent. The
      name, image and age values are themselves optional, as the helpers
      that produce them return None on empty input. */
  datatype Player = Player(
    name: Option<Option<string>>, image: Option<Option<string>>,
    club: Option<Entity>, country: Option<map<int, Entity>>,
    age: Option<Option<string>>)

  const Blank: Player := Player(None, None, None, None, None)

  /** How a row reads its cells: `get_text`, `get_src`, and the club and
      nationality lookups (`get_text2` resolved against the table at cutoff
      70 and 80, limit 1, keeping the first matching row). */
  datatype Readers = Readers(
    text: Element -> Option<string>, src: Element -> Option<string>,
    club: Element -> Option<Entity>, nation: Element -> Option<Entity>)

  function ReadersFor(db: Table, score: (Option<string>, string) -> int, norm: string -> string): Readers
  {
    Readers(e => GetText(e, norm), e => GetSrc(e),
            e => Resolve(db, GetText2(e, norm), score, 70),
            e => Resolve(db, GetText2(e, norm), score, 80))
  }

  /** The `result` dict of a `Nat.` cell: flag position to resolved entity,
      for the flags that resolve. */
  function Countries(flags: seq<Element>, nation: Element -> Option<Entity>): map<int, Entity>
  {
    if flags == [] then map[]
    else
      var m := Countries(flags[..|flags| - 1], nation);
      match nation(flags[|flags| - 1])
      case None => m
      case Some(e) => m[|flags| - 1 := e]
  }

  /** Each flag keeps its original position; exactly the flags that resolve
      are present, each with its own entity. */
  lemma {:induction false} CountriesSpec(flags: seq<Element>, nation: Element -> Option<Entity>)
    ensures forall i :: i in Countries(flags, nation) <==> 0 <= i < |flags| && nation(flags[i]).Some?
    ensures forall i :: i in Countries(flags, nation) ==> Countries(flags, nation)[i] == nation(flags[i]).value
  {
    if flags != [] {
      var init := flags[..|flags| - 1];
      CountriesSpec(init, nation);
      assert forall i :: 0 <= i < |init| ==> init[i] == flags[i];
    }
  }

  const NameColumn: Option<string> := Some("Name/Position")
  const ClubColumn: Option<string> := Some("Club")
  const NationColumn: Option<string> := Some("Nat.")
  const AgeColumn: Option<string> := Some("Age")

  /** The update of `df` by the cell of column `col`; a missing nested row,
      link or image raises `IndexError`. `inRange` is the `len(tds) > pos`
      guard of the `Age` branch. */
  function Fill(df: Player, col: Option<string>, td: Cell, inRange: bool, rd: Readers): (r: Outcome<Player>)
    ensures r.Raised? ==> r.fault == IndexOutOfRange
    ensures r.Raised? <==>
      || (col == NameColumn && (td.rows == [] || td.rows[0].links == [] || td.rows[0].images == []))
      || (col != NameColumn && col == ClubColumn && td.images == [])
    ensures r.Ok? && col != NameColumn ==> r.value.name == df.name && r.value.image == df.image
    ensures r.Ok? && col != ClubColumn ==> r.value.club == df.club
    ensures r.Ok? && col != NationColumn ==> r.value.country == df.country
    ensures r.Ok? && col != AgeColumn ==> r.value.age == df.age
  {
    if col == NameColumn then
      if td.rows == [] || td.rows[0].links == [] || td.rows[0].images == [] then Raised(IndexOutOfRange)
      else Ok(df.(name := Some(rd.text(td.rows[0].links[0])), image := Some(rd.src(td.rows[0].images[0]))))
    else if col == ClubColumn then
      if td.images == [] then Raised(IndexOutOfRange)
      else
        match rd.club(td.images[0])
        case None => Ok(df)
        case Some(e) => Ok(df.(club := Some(e)))
    else if col == NationColumn then
      var result := Countries(td.images, rd.nation);
      if result == map[] then Ok(df) else Ok(df.(country := Some(result)))
    else if col == AgeColumn then
      Ok(df.(age := Some(if inRange then rd.text(td.el) else None)))
    else Ok(df)
  }

  /** The record of one body row: the columns of `header_col_pos` in
      insertion order, each reading the cell at its position (Python
      indexing, negative positions included). */
  function Record(tds: seq<Cell>, cols: Dict<Option<string>, int>, rd: Readers): Outcome<Player>
  {
    if cols == [] then Ok(Blank)
    else
      match Record(tds, cols[..|cols| - 1], rd)
      case Raised(e) => Raised(e)
      case Ok(df) =>
        var (col, pos) := cols[|cols| - 1];
        match PyIndex(tds, pos)
        case Raised(e) => Raised(e)
        case Ok(td) => Fill(df, col, td, |tds| > pos, rd)
  }

  /** The last column of a row and the record of the columns before it. */
  lemma {:induction false} RecordSnoc(tds: seq<Cell>, cols: Dict<Option<string>, int>, rd: Readers)
    requires cols != [] && DistinctKeys(cols) && Record(tds, cols, rd).Ok?
    ensures var init := cols[..|cols| - 1]; var (col, pos) := cols[|cols| - 1];
      && DistinctKeys(init) && Lookup(init, col).None?
      && Record(tds, init, rd).Ok? && PyIndex(tds, pos).Ok?
      && Record(tds, cols, rd) == Fill(Record(tds, init, rd).value, col, PyIndex(tds, pos).value, |tds| > pos, rd)
    ensures forall l :: (Lookup(cols, l) ==
      if Lookup(cols[..|cols| - 1], l).Some? then Lookup(cols[..|cols| - 1], l)
      else if cols[|cols| - 1].0 == l then Some(cols[|cols| - 1].1) else None)
  {
    var init := cols[..|cols| - 1];
    assert cols == init + [cols[|cols| - 1]];
    DistinctSnoc(init, cols[|cols| - 1]);
    forall l ensures Lookup(cols, l) ==
      if Lookup(init, l).Some? then Lookup(init, l)
      else if cols[|cols| - 1].0 == l then Some(cols[|cols| - 1].1) else None
    {
      LookupSnoc(init, cols[|cols| - 1], l);
    }
  }

  /** Only `IndexError` escapes from a row. */
  lemma {:induction false} RecordFault(tds: seq<Cell>, cols: Dict<Option<string>, int>, rd: Readers)
    ensures Record(tds, cols, rd).Raised? ==> Record(tds, cols, rd).fault == IndexOutOfRange
  {
    if cols != [] {
      RecordFault(tds, cols[..|cols| - 1], rd);
    }
  }

  /** The `club` key is present exactly when the row has a `Club` column
      whose first image resolves at cutoff 70, and holds that entity. */
  lemma {:induction false} RecordClub(tds: seq<Cell>, cols: Dict<Option<string>, int>, rd: Readers)
    requires DistinctKeys(cols) && Record(tds, cols, rd).Ok?
    ensures var c := Record(tds, cols, rd).value.club;
      match Lookup(cols, ClubColumn)
      case None => c.None?
      case Some(pos) =>
        PyIndex(tds, pos).Ok? && PyIndex(tds, pos).value.images != [] &&
        c == rd.club(PyIndex(tds, pos).value.images[0])
  {
    if cols != [] {
      RecordSnoc(tds, cols, rd);
      RecordClub(tds, cols[..|cols| - 1], rd);
    }
  }

  /** The `country` key is present exactly when the row has a `Nat.` column
      with at least one resolving flag, and holds the flags that resolve. */
  lemma {:induction false} RecordCountry(tds: seq<Cell>, cols: Dict<Option<string>, int>, rd: Readers)
    requires DistinctKeys(cols) && Record(tds, cols, rd).Ok?
    ensures var c := Record(tds, cols, rd).value.country;
      match Lookup(cols, NationColumn)
      case None => c.None?
      case Some(pos) =>
        PyIndex(tds, pos).Ok? &&
        var m := Countries(PyIndex(tds, pos).value.images, rd.nation);
        c == if m == map[] then None else Some(m)
  {
    if cols != [] {
      RecordSnoc(tds, cols, rd);
      RecordCountry(tds, cols[..|cols| - 1], rd);
    }
  }

  /** The `name` and `image` keys come from the first link and image of the
      first nested row of the `Name/Position` cell. */
  lemma {:induction false} RecordName(tds: seq<Cell>, cols: Dict<Option<string>, int>, rd: Readers)
    requires DistinctKeys(cols) && Record(tds, cols, rd).Ok?
    ensures var p := Record(tds, cols, rd).value;
      match Lookup(cols, NameColumn)
      case None => p.name.None? && p.image.None?
      case Some(pos) =>
        PyIndex(tds, pos).Ok? &&
        var td := PyIndex(tds, pos).value;
        td.rows != [] && td.rows[0].links != [] && td.rows[0].images != [] &&
        p.name == Some(rd.text(td.rows[0].links[0])) && p.image == Some(rd.src(td.rows[0].images[0]))
  {
    if cols != [] {
      RecordSnoc(tds, cols, rd);
      RecordName(tds, cols[..|cols| - 1], rd);
    }
  }

  /** The `age` key is the text of the `Age` cell: the `len(tds) > pos` guard
      always holds once `tds[pos]` has been read, so its None branch is
      never taken. */
  lemma {:induction false} RecordAge(tds: seq<Cell>, cols: Dict<Option<string>, int>, rd: Readers)
    requires DistinctKeys(cols) && Record(tds, cols, rd).Ok?
    ensures var a := Record(tds, cols, rd).value.age;
      match Lookup(cols, AgeColumn)
      case None => a.None?
      case Some(pos) => PyIndex(tds, pos).Ok? && a == Some(rd.text(PyIndex(tds, pos).value.el))
  {
    if cols != [] {
      RecordSnoc(tds, cols, rd);
      RecordAge(tds, cols[..|cols| - 1], rd);
    }
  }

  /** `process_players`: the records of the body rows in order, leaving out
      the rows whose record is empty. */
  function Table(rows: seq<seq<Cell>>, cols: Dict<Option<string>, int>, rd: Readers): Outcome<seq<Player>>
  {
    if rows == [] then Ok([])
    else
      match Table(rows[..|rows| - 1], cols, rd)
      case Raised(e) => Raised(e)
      case Ok(ps) =>
        match Record(rows[|rows| - 1], cols, rd)
        case Raised(e) => Raised(e)
        case Ok(p) => Ok(if p == Blank then ps else ps + [p])
  }

  /** The table fails exactly when one of its rows does; on success it holds
      no empty record, every record it holds is the record of one of its
      rows, and every non-empty row record is in it. */
  lemma {:induction false} TableSpec(rows: seq<seq<Cell>>, cols: Dict<Option<string>, int>, rd: Readers)
    ensures Table(rows, cols, rd).Ok? <==> forall k :: 0 <= k < |rows| ==> Record(rows[k], cols, rd).Ok?
    ensures Table(rows, cols, rd).Ok? ==>
      && |Table(rows, cols, rd).value| <= |rows|
      && (forall p :: p in Table(rows, cols, rd).value ==>
            p != Blank && exists k :: 0 <= k < |rows| && Record(rows[k], cols, rd) == Ok(p))
      && (forall k :: 0 <= k < |rows| && Record(rows[k], cols, rd).value != Blank ==>
            Record(rows[k], cols, rd).value in Table(rows, cols, rd).value)
  {
    if rows != [] {
      var init := rows[..|rows| - 1];
      TableSpec(init, cols, rd);
      assert forall k :: 0 <= k < |init| ==> init[k] == rows[k];
    }
  }

  /** A row whose record is read without a fault and is not empty. */
  predicate Filled(tds: seq<Cell>, cols: Dict<Option<string>, int>, rd: Readers)
  {
    Record(tds, cols, rd).Ok? && Record(tds, cols, rd).value != Blank
  }

  /** The positions of the rows whose record is kept, in row order. */
  function FilledRows(rows: seq<seq<Cell>>, cols: Dict<Option<string>, int>, rd: Readers): (js: seq<nat>)
    ensures forall k :: 0 <= k < |js| ==> js[k] < |rows| && Filled(rows[js[k]], cols, rd)
  {
    if rows == [] then []
    else
      var init := rows[..|rows| - 1];
      var js := FilledRows(init, cols, rd);
      if Filled(rows[|rows| - 1], cols, rd) then js + [|rows| - 1] else js
  }

  /** Every kept row is listed, and the positions strictly increase. */
  lemma {:induction false} FilledRowsSpec(rows: seq<seq<Cell>>, cols: Dict<Option<string>, int>, rd: Readers)
    ensures var js := FilledRows(rows, cols, rd);
      forall j :: 0 <= j < |rows| && Filled(rows[j], cols, rd) ==> j in js
    ensures var js := FilledRows(rows, cols, rd);
      forall k, l :: 0 <= k < l < |js| ==> js[k] < js[l]
  {
    if rows != [] {
      var init := rows[..|rows| - 1];
      FilledRowsSpec(init, cols, rd);
      forall j | 0 <= j < |rows| - 1 && Filled(rows[j], cols, rd) ensures j in FilledRows(rows, cols, rd) {
        assert init[j] == rows[j];
      }
    }
  }

  /** On success the table is exactly the non-empty row records, one per
      kept row, in row order. */
  lemma {:induction false} TableValues(rows: seq<seq<Cell>>, cols: Dict<Option<string>, int>, rd: Readers)
    requires Table(rows, cols, rd).Ok?
    ensures var js := FilledRows(rows, cols, rd); var ps := Table(rows, cols, rd).value;
      |ps| == |js| && forall k :: 0 <= k < |js| ==> Record(rows[js[k]], cols, rd) == Ok(ps[k])
  {
    if rows != [] {
      var init := rows[..|rows| - 1];
      var js' := FilledRows(init, cols, rd);
      TableValues(init, cols, rd);
      forall k | 0 <= k < |js'| ensures rows[js'[k]] == init[js'[k]] {
      }
    }
  }

  /** Once a column has raised, the row stays raised with that fault. */
  lemma {:induction false} RecordRaisedSticks(tds: seq<Cell>, cols: Dict<Option<string>, int>, n: nat, rd: Readers)
    requires n <= |cols| && Record(tds, cols[..n], rd).Raised?
    ensures Record(tds, cols, rd) == Record(tds, cols[..n], rd)
    decreases |cols| - n
  {
    if n < |cols| {
      assert cols[..n + 1][..n] == cols[..n];
      RecordRaisedSticks(tds, cols, n + 1, rd);
    } else {
      assert cols[..n] == cols;
    }
  }

  /** Once a row has raised, the table stays raised with that fault. */
  lemma {:induction false} TableRaisedSticks(rows: seq<seq<Cell>>, cols: Dict<Option<string>, int>, n: nat, rd: Readers)
    requires n <= |rows| && Table(rows[..n], cols, rd).Raised?
    ensures Table(rows, cols, rd) == Table(rows[..n], cols, rd)
    decreases |rows| - n
  {
    if n < |rows| {
      assert rows[..n + 1][..n] == rows[..n];
      TableRaisedSticks(rows, cols, n + 1, rd);
    } else {
      assert rows[..n] == rows;
    }
  }

  /** The flag loop of the `Nat.` branch. */
  method Nationalities(flags: seq<Element>, nation: Element -> Option<Entity>) returns (result: map<int, Entity>)
    ensures result == Countries(flags, nation)
  {
    result := map[];
    var i := 0;
    while i < |flags|
      invariant 0 <= i <= |flags|
      invariant result == Countries(flags[..i], nation)
    {
      assert flags[..i + 1][..i] == flags[..i];
      var nationDetails := nation(flags[i]);
      if nationDetails.Some? {
        result := result[i := nationDetails.value];
      }
      i := i + 1;
    }
    assert flags[..i] == flags;
  }

  /** The column loop of one body row of `process_players`. */
  method ProcessRow(tds: seq<Cell>, cols: Dict<Option<string>, int>, rd: Readers) returns (r: Outcome<Player>)
    ensures r == Record(tds, cols, rd)
  {
    var df := Blank;
    var i := 0;
    while i < |cols|
      invariant 0 <= i <= |cols|
      invariant Record(tds, cols[..i], rd) == Ok(df)
    {
      assert cols[..i + 1][..i] == cols[..i];
      var (col, pos) := cols[i];
      var cell := PyIndex(tds, pos);
      if cell.Raised? {
        RecordRaisedSticks(tds, cols, i + 1, rd);
        return Raised(cell.fault);
      }
      var td := cell.value;
      var before := df;
      if col == NameColumn {
        if td.rows == [] || td.rows[0].links == [] || td.rows[0].images == [] {
          RecordRaisedSticks(tds, cols, i + 1, rd);
          return Raised(IndexOutOfRange);
        }
        var player := td.rows[0];
        df := df.(name := Some(rd.text(player.links[0])), image := Some(rd.src(player.images[0])));
      } else if col == ClubColumn {
        if td.images == [] {
          RecordRaisedSticks(tds, cols, i + 1, rd);
          return Raised(IndexOutOfRange);
        }
        var clubDetails := rd.club(td.images[0]);
        if clubDetails.Some? {
          df := df.(club := clubDetails);
        }
      } else if col == NationColumn {
        var result := Nationalities(td.images, rd.nation);
        if result != map[] {
          df := df.(country := Some(result));
        }
      } else if col == AgeColumn {
        df := df.(age := Some(if |tds| > pos then rd.text(td.el) else None));
      }
      assert Fill(before, col, td, |tds| > pos, rd) == Ok(df);
      i := i + 1;
    }
    assert cols[..i] == cols;
    r := Ok(df);
  }

  /** `process_players(tbl_trs, header_col_pos, db)`. */
  method ProcessPlayers(rows: seq<seq<Cell>>, cols: Dict<Option<string>, int>, db: Table,
                        score: (Option<string>, string) -> int, norm: string -> string)
    returns (r: Outcome<seq<Player>>)
    ensures r == Table(rows, cols, ReadersFor(db, score, norm))
  {
    var rd := ReadersFor(db, score, norm);
    var tblBody: seq<Player> := [];
    var i := 0;
    while i < |rows|
      invariant 0 <= i <= |rows|
      invariant Table(rows[..i], cols, rd) == Ok(tblBody)
    {
      assert rows[..i + 1][..i] == rows[..i];
      var df := ProcessRow(rows[i], cols, rd);
      if df.Raised? {
        TableRaisedSticks(rows, cols, i + 1, rd);
        return Raised(df.fault);
      }
      if df.value != Blank {
        tblBody := tblBody + [df.value];
      }
      i := i + 1;
    }
    assert rows[..i] == rows;
    r := Ok(tblBody);
  }

  // ---------------------------------------------------------------------
  // The search page

  /** A result box (`div:has(>h2.content-box-headline)`): its headline, its
      header cells and its body rows. The box is selected by having the
      headline, so the headline is always there. */
  datatype ResultTable = ResultTable(headline: Element, heads: seq<Element>, rows: seq<seq<Cell>>)

  /** `"players" in get_text(headline).lower()`; a headline without text
      raises `AttributeError` on `.lower()`. */
  function IsPlayersBox(t: ResultTable, norm: string -> string): Outcome<bool>
  {
    match GetText(t.headline, norm)
    case None => Raised(NoneAttribute)
    case Some(h) => Ok(IsSubstring("players", Lower(h)))
  }

  /** `results.get("players")` after the boxes `ts`. */
  function PlayersAfter(ts: seq<ResultTable>, db: Table, score: (Option<string>, string) -> int,
                        norm: string -> string): Outcome<Option<seq<Player>>>
  {
    if ts == [] then Ok(None)
    else
      match PlayersAfter(ts[..|ts| - 1], db, score, norm)
      case Raised(e) => Raised(e)
      case Ok(found) =>
        var t := ts[|ts| - 1];
        if !SpansParse(t.heads) then Raised(ValueError)
        else
          match IsPlayersBox(t, norm)
          case Raised(e) => Raised(e)
          case Ok(isPlayers) =>
            if !isPlayers then Ok(found)
            else
              match Table(t.rows, Positions(t.heads, HeadLabel(norm)), ReadersFor(db, score, norm))
              case Raised(e) => Raised(e)
              case Ok(ps) => Ok(Some(ps))
  }

  /** `results.get("players") if results.get("players") else []`. */
  function SearchResult(ts: seq<ResultTable>, db: Table, score: (Option<string>, string) -> int,
                        norm: string -> string): Outcome<seq<Player>>
  {
    match PlayersAfter(ts, db, score, norm)
    case Raised(e) => Raised(e)
    case Ok(found) => Ok(if found.Some? then found.value else [])
  }

  /** The players box that counts is the last one: a later box that is not a
      players box leaves the result alone. */
  lemma {:induction false} PlayersAfterLast(ts: seq<ResultTable>, db: Table, score: (Option<string>, string) -> int,
                                            norm: string -> string, j: nat)
    requires j < |ts| && PlayersAfter(ts, db, score, norm).Ok?
    requires IsPlayersBox(ts[j], norm) == Ok(true)
    requires forall i :: j < i < |ts| ==> IsPlayersBox(ts[i], norm) != Ok(true)
    ensures SpansParse(ts[j].heads)
    ensures var t := ts[j];
      Table(t.rows, Positions(t.heads, HeadLabel(norm)), ReadersFor(db, score, norm)).Ok? &&
      PlayersAfter(ts, db, score, norm).value ==
        Some(Table(t.rows, Positions(t.heads, HeadLabel(norm)), ReadersFor(db, score, norm)).value)
  {
    var init := ts[..|ts| - 1];
    if j < |ts| - 1 {
      assert init[j] == ts[j];
      assert forall i :: j < i < |init| ==> init[i] == ts[i];
      PlayersAfterLast(init, db, score, norm, j);
    }
  }

  /** Without a players box the search finds nothing. */
  lemma {:induction false} PlayersAfterNone(ts: seq<ResultTable>, db: Table, score: (Option<string>, string) -> int,
                                            norm: string -> string)
    requires PlayersAfter(ts, db, score, norm).Ok?
    requires forall i :: 0 <= i < |ts| ==> IsPlayersBox(ts[i], norm) != Ok(true)
    ensures PlayersAfter(ts, db, score, norm).value.None?
    ensures SearchResult(ts, db, score, norm) == Ok([])
  {
    if ts != [] {
      var init := ts[..|ts| - 1];
      assert forall i :: 0 <= i < |init| ==> init[i] == ts[i];
      PlayersAfterNone(init, db, score, norm);
    }
  }

  lemma {:induction false} PlayersAfterRaisedSticks(ts: seq<ResultTable>, db: Table,
      score: (Option<string>, string) -> int, norm: string -> string, n: nat)
    requires n <= |ts| && PlayersAfter(ts[..n], db, score, norm).Raised?
    ensures PlayersAfter(ts, db, score, norm) == PlayersAfter(ts[..n], db, score, norm)
    decreases |ts| - n
  {
    if n < |ts| {
      assert ts[..n + 1][..n] == ts[..n];
      PlayersAfterRaisedSticks(ts, db, score, norm, n + 1);
    } else {
      assert ts[..n] == ts;
    }
  }

  /** `search_player(player, db)` over the fetched search page (the query
      only shapes the address fetched); a failed fetch raises. */
  method SearchPlayer(page: Outcome<seq<ResultTable>>, db: Table, score: (Option<string>, string) -> int,
                      norm: string -> string)
    returns (r: Outcome<seq<Player>>)
    ensures page.Raised? ==> r == Raised(page.fault)
    ensures page.Ok? ==> r == SearchResult(page.value, db, score, norm)
  {
    if page.Raised? {
      return Raised(page.fault);
    }
    var resultTbls := page.value;
    var results: Option<seq<Player>> := None;
    var i := 0;
    while i < |resultTbls|
      invariant 0 <= i <= |resultTbls|
      invariant PlayersAfter(resultTbls[..i], db, score, norm) == Ok(results)
    {
      assert resultTbls[..i + 1][..i] == resultTbls[..i];
      var t := resultTbls[i];
      var headerColPos := HeaderPositions(t.heads, HeadLabel(norm));
      if headerColPos.Raised? {
        PlayersAfterRaisedSticks(resultTbls, db, score, norm, i + 1);
        return Raised(headerColPos.fault);
      }
      var headline := GetText(t.headline, norm);
      if headline.None? {
        PlayersAfterRaisedSticks(resultTbls, db, score, norm, i + 1);
        return Raised(NoneAttribute);
      }
      if IsSubstring("players", Lower(headline.value)) {
        var players := ProcessPlayers(t.rows, headerColPos.value, db, score, norm);
        if players.Raised? {
          PlayersAfterRaisedSticks(resultTbls, db, score, norm, i + 1);
          return Raised(players.fault);
        }
        results := Some(players.value);
      }
      i := i + 1;
    }
    assert resultTbls[..i] == resultTbls;
    r := Ok(if results.Some? then results.value else []);
  }
}
