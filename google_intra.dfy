/** GoogleIntraReader._read_lines of google/intra.py: the reconstruction of
    absolute candle timestamps from the provider's anchor/offset encoding.

    Each row's Date token is either an anchor, the marker 'a' followed by an
    absolute Unix second count, or an offset, a count of intervals since the
    most recent anchor. _read_lines decodes a whole column at a time: it
    forward-fills the anchor values, multiplies the offsets by the interval
    (anchor rows contribute 0), and adds the two columns. `Decode` states
    that column computation. `ReadLines` is proved equal to it and makes two
    forward passes: `FindError` finds the error the column passes raise, then
    `ResolveDates` carries the last anchor down the rows. */
module GoogleIntra {
  import opened Wrappers
  import opened Candle
  import opened IntText

  // ---------------------------------------------------------------------
  // The interval (GoogleIntraReader.interval_seconds)

  datatype TimeUnit = Second | Minute | Hour | Day

  /** A sampling frequency such as '1Min' (Freq(1, Minute)) or '30S'. */
  datatype Freq = Freq(count: nat, unit: TimeUnit)

  function UnitSeconds(u: TimeUnit): (r: nat)
    ensures r > 0
  {
    match u
    case Second => 1
    case Minute => 60
    case Hour => 3600
    case Day => 86400
  }

  /** freq.total_seconds(), in whole seconds. */
  function IntervalSeconds(f: Freq): (r: int)
    ensures r >= 0 && (r == 0 <==> f.count == 0)
    ensures r % UnitSeconds(f.unit) == 0 && r / UnitSeconds(f.unit) == f.count
  {
    f.count * UnitSeconds(f.unit)
  }

  // ---------------------------------------------------------------------
  // Rows and tokens

  /** One tokenized provider row: the Date token and the five candle fields,
      in the order of LstAll(). */
  datatype RawRow = RawRow(date: string, open: real, high: real, low: real, close: real, volume: real)

  /** A Date token once classified and parsed. */
  datatype Token = Anchor(t: int) | Offset(k: int)

  /** Why a table cannot be decoded: a Date token is empty (dt[0] raises), it
      is an anchor whose remainder is not an integer, or it is neither; or no
      token is an anchor and all are integers, so read_csv types the Date
      column as integers and dt[0] raises on the first row. */
  datatype Fault = EmptyToken | BadAnchor | BadOffset | IntegerColumn

  /** The error _read_lines raises, with the row whose token raised it. */
  datatype DecodeError = DecodeError(fault: Fault, row: nat)

  /** The decoded table: one index entry per row (epoch seconds, None for
      NaT), the column names, and one row of values per index entry. */
  datatype Frame = Frame(index: seq<Option<int>>, columns: seq<string>, data: seq<seq<real>>)

  const ANCHOR_MARK: char := 'a'

  /** Classify and parse one Date token: 'a' + int(rest) is an anchor, any
      other non-empty token must be int(token). */
  function Lex(s: string): (r: Result<Token, Fault>)
    ensures r.Success? <==> s != [] && IsIntLiteral(if s[0] == ANCHOR_MARK then s[1..] else s)
    ensures r != Failure(IntegerColumn)
    ensures r == Failure(EmptyToken) <==> s == []
    ensures r.Success? ==> (r.value.Anchor? <==> s[0] == ANCHOR_MARK)
    ensures r == Failure(BadAnchor) ==> s[0] == ANCHOR_MARK
    ensures r == Failure(BadOffset) ==> s[0] != ANCHOR_MARK
  {
    if s == [] then Failure(EmptyToken)
    else if s[0] == ANCHOR_MARK then
      match ParseInt(s[1..])
      case Some(t) => Success(Anchor(t))
      case None => Failure(BadAnchor)
    else
      match ParseInt(s)
      case Some(k) => Success(Offset(k))
      case None => Failure(BadOffset)
  }

  /** The token text the provider sends for a token. */
  function Show(tok: Token): (s: string)
    ensures s != [] && (s[0] == ANCHOR_MARK <==> tok.Anchor?)
  {
    match tok
    case Anchor(t) => [ANCHOR_MARK] + ShowInt(t)
    case Offset(k) => ShowInt(k)
  }

  predicate AllLex(rows: seq<RawRow>)
  {
    forall i | 0 <= i < |rows| :: Lex(rows[i].date).Success?
  }

  predicate IsAnchorText(s: string)
  {
    s != [] && s[0] == ANCHOR_MARK
  }

  /** Whether some row before n carries an anchor token. */
  function AnchorBefore(rows: seq<RawRow>, n: nat): (r: bool)
    requires n <= |rows|
    ensures r <==> exists j | 0 <= j < n :: IsAnchorText(rows[j].date)
    decreases n
  {
    n > 0 && (AnchorBefore(rows, n - 1) || IsAnchorText(rows[n - 1].date))
  }

  /** The tables _read_lines decodes without raising: every token lexes and,
      unless the table is empty, some token is an anchor. */
  predicate Decodable(rows: seq<RawRow>)
  {
    AllLex(rows) && (rows == [] || AnchorBefore(rows, |rows|))
  }

  function Tokens(rows: seq<RawRow>): (r: seq<Token>)
    requires AllLex(rows)
    ensures |r| == |rows|
    ensures forall i | 0 <= i < |rows| :: Lex(rows[i].date) == Success(r[i])
  {
    seq(|rows|, i requires 0 <= i < |rows| => Lex(rows[i].date).value)
  }

  // ---------------------------------------------------------------------
  // Errors: the three parsing passes and the order in which they raise

  /** The first of the rows before n whose token has fault `f`, if any. */
  function FirstFault(rows: seq<RawRow>, n: nat, f: Fault): (r: Option<nat>)
    requires n <= |rows|
    ensures r.Some? ==> r.value < n && Lex(rows[r.value].date) == Failure(f)
    ensures r.Some? ==> forall j | 0 <= j < r.value :: Lex(rows[j].date) != Failure(f)
    ensures r.None? ==> forall j | 0 <= j < n :: Lex(rows[j].date) != Failure(f)
    decreases n
  {
    if n == 0 then None
    else
      match FirstFault(rows, n - 1, f)
      case Some(i) => Some(i)
      case None => if Lex(rows[n - 1].date) == Failure(f) then Some(n - 1) else None
  }

  /** The error the column passes raise. Line 48 looks at every token first,
      so an empty token anywhere wins; line 49 then parses every anchor row's
      remainder; line 52 then parses every offset row. Each pass raises at its
      first offending row. A non-empty table of bare integers never reaches
      line 49: read_csv has typed its Date column as integers, and line 48
      raises on row 0. */
  function FirstError(rows: seq<RawRow>): (r: Option<DecodeError>)
    ensures r.None? <==> Decodable(rows)
    ensures r == Some(DecodeError(IntegerColumn, 0)) <==> rows != [] && AllLex(rows) && !AnchorBefore(rows, |rows|)
    ensures r.Some? && r.value.fault == IntegerColumn ==> r.value.row == 0
    ensures r.Some? && r.value.fault != IntegerColumn ==>
      r.value.row < |rows| && Lex(rows[r.value.row].date) == Failure(r.value.fault)
    ensures r.Some? && r.value.fault != IntegerColumn ==>
      forall j | 0 <= j < r.value.row :: Lex(rows[j].date) != Failure(r.value.fault)
    ensures r.Some? && r.value.fault != EmptyToken ==> forall j | 0 <= j < |rows| :: rows[j].date != []
    ensures r.Some? && r.value.fault == BadOffset ==>
      forall j | 0 <= j < |rows| :: Lex(rows[j].date) != Failure(BadAnchor)
  {
    match FirstFault(rows, |rows|, EmptyToken)
    case Some(i) => Some(DecodeError(EmptyToken, i))
    case None =>
      match FirstFault(rows, |rows|, BadAnchor)
      case Some(i) => Some(DecodeError(BadAnchor, i))
      case None =>
        match FirstFault(rows, |rows|, BadOffset)
        case Some(i) => Some(DecodeError(BadOffset, i))
        case None => if rows != [] && !AnchorBefore(rows, |rows|) then Some(DecodeError(IntegerColumn, 0)) else None
  }

  // ---------------------------------------------------------------------
  // The column computation of lines 48-54

  /** Lines 49-50: the anchor value on anchor rows, NaN elsewhere. */
  function AnchorColumn(toks: seq<Token>): (r: seq<Option<int>>)
    ensures |r| == |toks|
    ensures forall i | 0 <= i < |toks| :: r[i].Some? <==> toks[i].Anchor?
    ensures forall i | 0 <= i < |toks| && toks[i].Anchor? :: r[i] == Some(toks[i].t)
  {
    seq(|toks|, i requires 0 <= i < |toks| => if toks[i].Anchor? then Some(toks[i].t) else None)
  }

  function Last(col: seq<Option<int>>): Option<int>
  {
    if col == [] then None else col[|col| - 1]
  }

  /** pandas' forward fill: every missing entry takes the entry above it once
      that has been filled; a leading run of missing entries stays missing. */
  function FFill(col: seq<Option<int>>): (r: seq<Option<int>>)
    ensures |r| == |col|
    ensures forall i | 0 <= i < |col| && col[i].Some? :: r[i] == col[i]
    ensures forall i | 0 < i < |col| && col[i].None? :: r[i] == r[i - 1]
    ensures |col| > 0 && col[0].None? ==> r[0].None?
    decreases |col|
  {
    if col == [] then []
    else
      var filled := FFill(col[..|col| - 1]);
      filled + [if col[|col| - 1].Some? then col[|col| - 1] else Last(filled)]
  }

  /** Lines 52-53: offset rows contribute k intervals, anchor rows 0. */
  function OffsetColumn(toks: seq<Token>, interval: int): (r: seq<int>)
    ensures |r| == |toks|
    ensures forall i | 0 <= i < |toks| :: r[i] == (if toks[i].Offset? then toks[i].k * interval else 0)
  {
    seq(|toks|, i requires 0 <= i < |toks| => if toks[i].Offset? then toks[i].k * interval else 0)
  }

  /** Line 54: the filled anchors plus the offsets; NaN + x stays NaN. */
  function DateColumn(toks: seq<Token>, interval: int): (r: seq<Option<int>>)
    ensures |r| == |toks|
    ensures forall i | 0 <= i < |toks| && toks[i].Anchor? :: r[i] == Some(toks[i].t)
  {
    var filled := FFill(AnchorColumn(toks));
    var secs := OffsetColumn(toks, interval);
    seq(|toks|, i requires 0 <= i < |toks| =>
      if filled[i].Some? then Some(filled[i].value + secs[i]) else None)
  }

  // ---------------------------------------------------------------------
  // Column selection (line 57)

  /** The value of a named numeric column of a row. Once Date has become the
      index (line 56) it is no longer a column. */
  function Field(row: RawRow, name: string): (r: Option<real>)
    ensures r.Some? <==> name in Lst()
  {
    if name == OPEN then Some(row.open)
    else if name == HIGH then Some(row.high)
    else if name == LOW then Some(row.low)
    else if name == CLOSE then Some(row.close)
    else if name == VOLUME then Some(row.volume)
    else None
  }

  /** df[cols] on one row: the named columns in the order asked for; a name
      that is not a column raises KeyError (None). */
  function Select(row: RawRow, cols: seq<string>): (r: Option<seq<real>>)
    ensures r.Some? <==> forall c | c in cols :: Field(row, c).Some?
    ensures r.Some? ==> |r.value| == |cols|
    ensures r.Some? ==> forall i | 0 <= i < |cols| :: Field(row, cols[i]) == Some(r.value[i])
    decreases |cols|
  {
    if cols == [] then Some([])
    else
      match Field(row, cols[0])
      case None => None
      case Some(v) =>
        match Select(row, cols[1..])
        case None => None
        case Some(vs) => Some([v] + vs)
  }

  /** The candle fields of a row in the order of Lst(). */
  function Values(row: RawRow): seq<real>
  {
    [row.open, row.high, row.low, row.close, row.volume]
  }

  lemma SelectLst(row: RawRow)
    ensures Select(row, Lst()) == Some(Values(row))
  {
    var cols := Lst();
    assert forall c | c in cols :: Field(row, c).Some?;
    var r := Select(row, cols).value;
    assert |r| == 5;
    assert r[0] == row.open by { assert Field(row, cols[0]) == Some(r[0]); }
    assert r[1] == row.high by { assert Field(row, cols[1]) == Some(r[1]); }
    assert r[2] == row.low by { assert Field(row, cols[2]) == Some(r[2]); }
    assert r[3] == row.close by { assert Field(row, cols[3]) == Some(r[3]); }
    assert r[4] == row.volume by { assert Field(row, cols[4]) == Some(r[4]); }
    assert r == Values(row);
  }

  /** df[CANDLE.LST()] row by row. */
  function Project(rows: seq<RawRow>): (r: seq<seq<real>>)
    ensures |r| == |rows|
    ensures forall i | 0 <= i < |rows| :: Select(rows[i], Lst()) == Some(r[i])
  {
    forall i | 0 <= i < |rows| ensures Select(rows[i], Lst()) == Some(Values(rows[i])) {
      SelectLst(rows[i]);
    }
    seq(|rows|, i requires 0 <= i < |rows| => Values(rows[i]))
  }

  // ---------------------------------------------------------------------
  // The decoder

  /** _read_lines on already tokenized rows, stopping at epoch seconds. */
  function Decode(rows: seq<RawRow>, interval: int): (r: Result<Frame, DecodeError>)
    ensures r.Success? <==> Decodable(rows)
    ensures r.Failure? ==> FirstError(rows) == Some(r.error)
    ensures r.Success? ==> |r.value.index| == |rows| && |r.value.data| == |rows| && r.value.columns == Lst()
    ensures r.Success? ==> forall i | 0 <= i < |rows| :: r.value.data[i] == Values(rows[i])
  {
    match FirstError(rows)
    case Some(e) => Failure(e)
    case None =>
      var data := Project(rows);
      assert forall i | 0 <= i < |rows| :: data[i] == Values(rows[i]) by {
        forall i | 0 <= i < |rows| ensures data[i] == Values(rows[i]) {
          SelectLst(rows[i]);
        }
      }
      Success(Frame(DateColumn(Tokens(rows), interval), Lst(), data))
  }

  /** The value of the most recent anchor among `toks`: the one piece of
      state the scan carries. */
  function LastAnchor(toks: seq<Token>): Option<int>
    decreases |toks|
  {
    if toks == [] then None
    else if toks[|toks| - 1].Anchor? then Some(toks[|toks| - 1].t)
    else LastAnchor(toks[..|toks| - 1])
  }

  /** A token's date given the last anchor above it. */
  function ResolveAgainst(last: Option<int>, tok: Token, interval: int): Option<int>
  {
    match tok
    case Anchor(t) => Some(t)
    case Offset(k) => if last.Some? then Some(last.value + k * interval) else None
  }

  /** The date column as a forward scan computes it, row by row. */
  function ScanDates(toks: seq<Token>, interval: int): seq<Option<int>>
    decreases |toks|
  {
    if toks == [] then []
    else
      var init := toks[..|toks| - 1];
      ScanDates(init, interval) + [ResolveAgainst(LastAnchor(init), toks[|toks| - 1], interval)]
  }

  lemma AnchorColumnPrefix(toks: seq<Token>, n: nat)
    requires n <= |toks|
    ensures AnchorColumn(toks[..n]) == AnchorColumn(toks)[..n]
  {
  }

  /** Filling a prefix gives the prefix of the filled column. */
  lemma {:induction false} FFillPrefix(col: seq<Option<int>>, n: nat)
    requires n <= |col|
    ensures FFill(col[..n]) == FFill(col)[..n]
    decreases |col|
  {
    if n < |col| {
      var init := col[..|col| - 1];
      assert init[..n] == col[..n];
      FFillPrefix(init, n);
    } else {
      assert col[..n] == col;
    }
  }

  /** Decoding never looks ahead: the rows before n decode the same whether or
      not more rows follow. */
  lemma DateColumnPrefix(toks: seq<Token>, interval: int, n: nat)
    requires n <= |toks|
    ensures DateColumn(toks[..n], interval) == DateColumn(toks, interval)[..n]
  {
    AnchorColumnPrefix(toks, n);
    FFillPrefix(AnchorColumn(toks), n);
  }

  /** The filled anchor column ends in the last anchor of all rows. */
  lemma FilledAnchorStep(toks: seq<Token>)
    requires toks != []
    ensures Last(FFill(AnchorColumn(toks))) ==
      if toks[|toks| - 1].Anchor? then Some(toks[|toks| - 1].t) else Last(FFill(AnchorColumn(toks[..|toks| - 1])))
  {
    var n := |toks| - 1;
    AnchorColumnPrefix(toks, n);
    FFillPrefix(AnchorColumn(toks), n);
  }

  /** The last row of the decoded column is computed from the last anchor
      among the rows above it. */
  lemma DateColumnStep(toks: seq<Token>, interval: int)
    requires toks != []
    ensures DateColumn(toks, interval) == DateColumn(toks[..|toks| - 1], interval) +
      [ResolveAgainst(Last(FFill(AnchorColumn(toks[..|toks| - 1]))), toks[|toks| - 1], interval)]
  {
    var n := |toks| - 1;
    var init := toks[..n];
    var dates := DateColumn(toks, interval);
    var last := Last(FFill(AnchorColumn(init)));
    DateColumnPrefix(toks, interval, n);
    assert dates[n] == ResolveAgainst(last, toks[n], interval) by {
      var filled := FFill(AnchorColumn(toks));
      AnchorColumnPrefix(toks, n);
      FFillPrefix(AnchorColumn(toks), n);
      assert last == if n == 0 then None else filled[n - 1];
      assert toks[n].Offset? ==> filled[n] == last;
    }
    assert dates == dates[..n] + [dates[n]];
  }

  /** The scan and the column computation agree, and the scan's carried
      anchor is the last entry of the forward-filled anchor column. */
  lemma {:induction false} ScanDatesIsDateColumn(toks: seq<Token>, interval: int)
    ensures ScanDates(toks, interval) == DateColumn(toks, interval)
    ensures LastAnchor(toks) == Last(FFill(AnchorColumn(toks)))
    decreases |toks|
  {
    if toks != [] {
      ScanDatesIsDateColumn(toks[..|toks| - 1], interval);
      DateColumnStep(toks, interval);
      FilledAnchorStep(toks);
    }
  }

  /** Lines 47-52 as one pass over the rows: lex every Date token, remember
      the first row of each fault and whether an anchor was seen, and report
      the error the column passes raise, in their order. */
  method FindError(rows: seq<RawRow>) returns (err: Option<DecodeError>)
    ensures err == FirstError(rows)
  {
    var firstEmpty: Option<nat> := None;
    var firstBadAnchor: Option<nat> := None;
    var firstBadOffset: Option<nat> := None;
    var anchorSeen := false;
    for i := 0 to |rows|
      invariant firstEmpty == FirstFault(rows, i, EmptyToken)
      invariant firstBadAnchor == FirstFault(rows, i, BadAnchor)
      invariant firstBadOffset == FirstFault(rows, i, BadOffset)
      invariant anchorSeen == AnchorBefore(rows, i)
    {
      if IsAnchorText(rows[i].date) {
        anchorSeen := true;
      }
      match Lex(rows[i].date)
      case Failure(f) =>
        if f == EmptyToken && firstEmpty == None {
          firstEmpty := Some(i);
        } else if f == BadAnchor && firstBadAnchor == None {
          firstBadAnchor := Some(i);
        } else if f == BadOffset && firstBadOffset == None {
          firstBadOffset := Some(i);
        }
      case Success(_) =>
    }
    if firstEmpty.Some? {
      err := Some(DecodeError(EmptyToken, firstEmpty.value));
    } else if firstBadAnchor.Some? {
      err := Some(DecodeError(BadAnchor, firstBadAnchor.value));
    } else if firstBadOffset.Some? {
      err := Some(DecodeError(BadOffset, firstBadOffset.value));
    } else if |rows| > 0 && !anchorSeen {
      err := Some(DecodeError(IntegerColumn, 0));
    } else {
      err := None;
    }
  }

  /** Lines 50-54 as a single forward scan: carry the last anchor's value,
      give an anchor row its own value and an offset row the last anchor plus
      its offset in intervals; rows above every anchor get no date. */
  method ResolveDates(toks: seq<Token>, interval: int) returns (dates: seq<Option<int>>)
    ensures dates == DateColumn(toks, interval)
  {
    var lastAnchor: Option<int> := None;
    dates := [];
    for i := 0 to |toks|
      invariant dates == ScanDates(toks[..i], interval)
      invariant lastAnchor == LastAnchor(toks[..i])
    {
      assert toks[..i + 1][..i] == toks[..i];
      match toks[i] {
        case Anchor(t) =>
          lastAnchor := Some(t);
          dates := dates + [Some(t)];
        case Offset(k) =>
          dates := dates + [if lastAnchor.Some? then Some(lastAnchor.value + k * interval) else None];
      }
    }
    assert toks[..|toks|] == toks;
    ScanDatesIsDateColumn(toks, interval);
  }

  /** _read_lines: raise on a token that does not parse or on a table with no
      anchor, otherwise decode the Date column and keep the candle columns. */
  method ReadLines(rows: seq<RawRow>, freq: Freq) returns (r: Result<Frame, DecodeError>)
    ensures r == Decode(rows, IntervalSeconds(freq))
  {
    var err := FindError(rows);
    if err.Some? {
      r := Failure(err.value);
    } else {
      var dates := ResolveDates(Tokens(rows), IntervalSeconds(freq));
      r := Success(Frame(dates, Lst(), Project(rows)));
    }
  }
}
