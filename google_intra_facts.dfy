/** What the decoder of google/intra.py guarantees: forward fill resolves every
    offset row against its nearest preceding anchor, anchors decode to
    themselves, rows before every anchor stay undated, later rows never change
    earlier ones, and consecutive offsets are one interval apart. */
module GoogleIntraFacts {
  import opened Wrappers
  import opened Candle
  import opened IntText
  import opened GoogleIntra

  // ---------------------------------------------------------------------
  // Forward fill

  /** A filled entry is the nearest present entry at or above it. */
  lemma {:induction false} FFillNearest(col: seq<Option<int>>, j: nat, i: nat)
    requires j <= i < |col| && col[j].Some?
    requires forall m | j < m <= i :: col[m].None?
    ensures FFill(col)[i] == col[j]
    decreases i
  {
    if i > j {
      FFillNearest(col, j, i - 1);
    }
  }

  /** Entries above which nothing is present stay missing (ffill does not
      fill a leading gap). */
  lemma {:induction false} FFillLeading(col: seq<Option<int>>, i: nat)
    requires i < |col|
    requires forall m | 0 <= m <= i :: col[m].None?
    ensures FFill(col)[i].None?
    decreases i
  {
    if i > 0 {
      FFillLeading(col, i - 1);
    }
  }

  // ---------------------------------------------------------------------
  // Resolution against the nearest preceding anchor

  /** Row j is the anchor nearest to row i from above: every row after j up
      to and including i is an offset row. */
  predicate NearestAnchor(toks: seq<Token>, j: nat, i: nat)
  {
    j <= i < |toks| && toks[j].Anchor? && forall m | j < m <= i :: toks[m].Offset?
  }

  /** Intervals a row lies past its anchor: 0 on the anchor row itself. */
  function RunIndex(tok: Token): int
  {
    if tok.Offset? then tok.k else 0
  }

  /** A row whose nearest preceding anchor is T, at run index k, decodes to
      T + k * interval; for the anchor row itself that is T exactly. */
  lemma ResolvesToNearestAnchor(toks: seq<Token>, interval: int, j: nat, i: nat)
    requires NearestAnchor(toks, j, i)
    ensures DateColumn(toks, interval)[i] == Some(toks[j].t + RunIndex(toks[i]) * interval)
  {
    var col := AnchorColumn(toks);
    FFillNearest(col, j, i);
  }

  /** Offset rows before every anchor get no timestamp (NaT). */
  lemma UndatedBeforeFirstAnchor(toks: seq<Token>, interval: int, i: nat)
    requires i < |toks|
    requires forall m | 0 <= m <= i :: toks[m].Offset?
    ensures DateColumn(toks, interval)[i] == None
  {
    FFillLeading(AnchorColumn(toks), i);
  }

  /** Every row with an anchor at or above it has a nearest one. */
  lemma {:induction false} NearestAnchorExists(toks: seq<Token>, i: nat, j: nat)
    requires j <= i < |toks| && toks[j].Anchor?
    ensures exists n :: NearestAnchor(toks, n, i)
    decreases i
  {
    if toks[i].Anchor? {
      assert NearestAnchor(toks, i, i);
    } else {
      NearestAnchorExists(toks, i - 1, j);
      var n :| NearestAnchor(toks, n, i - 1);
      assert NearestAnchor(toks, n, i);
    }
  }

  /** A row is dated exactly when some anchor row is at or above it. */
  lemma DatedIffAnchorAbove(toks: seq<Token>, interval: int, i: nat)
    requires i < |toks|
    ensures DateColumn(toks, interval)[i].Some? <==> exists j | 0 <= j <= i :: toks[j].Anchor?
  {
    if j :| 0 <= j <= i && toks[j].Anchor? {
      NearestAnchorExists(toks, i, j);
      var n :| NearestAnchor(toks, n, i);
      ResolvesToNearestAnchor(toks, interval, n, i);
    } else {
      UndatedBeforeFirstAnchor(toks, interval, i);
    }
  }

  /** With anchors T1 at row p and T2 at row q > p, offset rows between them
      resolve against T1 and offset rows after T2 against T2. */
  lemma TwoAnchors(toks: seq<Token>, interval: int, p: nat, q: nat, i: nat)
    requires p < q < |toks| && toks[p].Anchor? && toks[q].Anchor?
    requires forall m | p < m < q :: toks[m].Offset?
    requires i < |toks| && forall m | q < m <= i :: toks[m].Offset?
    requires p < i && i != q
    ensures i < q ==> DateColumn(toks, interval)[i] == Some(toks[p].t + toks[i].k * interval)
    ensures q < i ==> DateColumn(toks, interval)[i] == Some(toks[q].t + toks[i].k * interval)
  {
    if i < q {
      ResolvesToNearestAnchor(toks, interval, p, i);
    } else {
      ResolvesToNearestAnchor(toks, interval, q, i);
    }
  }

  /** The next row, one run index further under the same anchor, is exactly
      one interval later (the index step the intraday test expects). */
  lemma ConsecutiveRowsOneIntervalApart(toks: seq<Token>, interval: int, i: nat)
    requires i + 1 < |toks| && DateColumn(toks, interval)[i].Some?
    requires toks[i + 1] == Offset(RunIndex(toks[i]) + 1)
    ensures DateColumn(toks, interval)[i + 1] == Some(DateColumn(toks, interval)[i].value + interval)
  {
    var filled := FFill(AnchorColumn(toks));
    assert filled[i + 1] == filled[i];
  }

  /** Within one anchor's run, a larger offset is a later time when the
      interval is positive. */
  lemma RunIsIncreasing(toks: seq<Token>, interval: int, j: nat, i1: nat, i2: nat)
    requires interval > 0 && j < i1 < i2 && NearestAnchor(toks, j, i2)
    requires toks[i1].k < toks[i2].k
    ensures DateColumn(toks, interval)[i1].Some? && DateColumn(toks, interval)[i2].Some?
    ensures DateColumn(toks, interval)[i1].value < DateColumn(toks, interval)[i2].value
  {
    assert NearestAnchor(toks, j, i1);
    ResolvesToNearestAnchor(toks, interval, j, i1);
    ResolvesToNearestAnchor(toks, interval, j, i2);
  }

  // ---------------------------------------------------------------------
  // The same properties stated on whole rows

  /** A decoded table is the date column of the rows' tokens over the
      projected candle rows. */
  lemma DecodedIndex(rows: seq<RawRow>, interval: int, f: Frame)
    requires Decode(rows, interval) == Success(f)
    ensures AllLex(rows) && f.index == DateColumn(Tokens(rows), interval) && f.data == Project(rows)
  {
  }

  /** Rows that all lex decode successfully. */
  lemma DecodeSucceeds(rows: seq<RawRow>, interval: int)
    requires Decodable(rows)
    ensures Decode(rows, interval) == Success(Frame(DateColumn(Tokens(rows), interval), Lst(), Project(rows)))
  {
  }

  lemma TokensPrefix(rows: seq<RawRow>, n: nat)
    requires AllLex(rows) && n <= |rows|
    ensures AllLex(rows[..n]) && Tokens(rows[..n]) == Tokens(rows)[..n]
    ensures AnchorBefore(rows[..n], n) == AnchorBefore(rows, n)
  {
    assert forall j | 0 <= j < n :: rows[..n][j] == rows[j];
  }

  /** An anchor row 'a' + T decodes to exactly T, whatever the interval. */
  lemma DecodeAnchorIdentity(rows: seq<RawRow>, interval: int, f: Frame, i: nat, t: int)
    requires Decode(rows, interval) == Success(f)
    requires i < |rows| && Lex(rows[i].date) == Success(Anchor(t))
    ensures f.index[i] == Some(t)
  {
  }

  /** Row-level nearest-anchor resolution, on rows that all lex. */
  lemma OffsetRowResolves(rows: seq<RawRow>, interval: int, j: nat, i: nat, t: int, k: int)
    requires AllLex(rows)
    requires j < i < |rows| && Lex(rows[j].date) == Success(Anchor(t)) && Lex(rows[i].date) == Success(Offset(k))
    requires forall m | j < m < i :: Lex(rows[m].date).Success? && Lex(rows[m].date).value.Offset?
    ensures DateColumn(Tokens(rows), interval)[i] == Some(t + k * interval)
  {
    var toks := Tokens(rows);
    RunOfTokens(rows, j, i);
    TokenAt(rows, j);
    TokenAt(rows, i);
    OffsetResolves(toks, interval, j, i, t, k);
  }

  lemma OffsetResolves(toks: seq<Token>, interval: int, j: nat, i: nat, t: int, k: int)
    requires NearestAnchor(toks, j, i) && toks[j] == Anchor(t) && toks[i] == Offset(k)
    ensures DateColumn(toks, interval)[i] == Some(t + k * interval)
  {
    ResolvesToNearestAnchor(toks, interval, j, i);
  }

  /** The rows from an anchor down to an offset, with only offsets between,
      are a run of their tokens. */
  lemma RunOfTokens(rows: seq<RawRow>, j: nat, i: nat)
    requires AllLex(rows) && j < i < |rows| && Lex(rows[j].date).value.Anchor?
    requires forall m | j < m <= i :: Lex(rows[m].date).value.Offset?
    ensures NearestAnchor(Tokens(rows), j, i)
  {
  }

  lemma TokenAt(rows: seq<RawRow>, m: nat)
    requires AllLex(rows) && m < |rows|
    ensures Tokens(rows)[m] == Lex(rows[m].date).value
  {
  }

  /** An offset row k whose nearest preceding anchor row is 'a' + T decodes to
      T + k * interval. */
  lemma DecodeOffsetRow(rows: seq<RawRow>, interval: int, f: Frame, j: nat, i: nat, t: int, k: int)
    requires Decode(rows, interval) == Success(f)
    requires j < i < |rows| && Lex(rows[j].date) == Success(Anchor(t)) && Lex(rows[i].date) == Success(Offset(k))
    requires forall m | j < m < i :: Lex(rows[m].date).Success? && Lex(rows[m].date).value.Offset?
    ensures f.index[i] == Some(t + k * interval)
  {
    DecodedIndex(rows, interval, f);
    OffsetRowResolves(rows, interval, j, i, t, k);
  }

  /** Offset rows above every anchor row decode to NaT, and the rest of the
      table still decodes. */
  lemma DecodeLeadingOffsets(rows: seq<RawRow>, interval: int, f: Frame, i: nat)
    requires Decode(rows, interval) == Success(f)
    requires i < |rows| && forall m | 0 <= m <= i :: Lex(rows[m].date).Success? && Lex(rows[m].date).value.Offset?
    ensures f.index[i] == None
  {
    UndatedBeforeFirstAnchor(Tokens(rows), interval, i);
  }

  /** A prefix of a decodable table that holds an anchor of its own (or is
      empty) decodes to the prefix of its decoding. */
  lemma DecodePrefix(rows: seq<RawRow>, interval: int, f: Frame, n: nat)
    requires Decode(rows, interval) == Success(f) && n <= |rows|
    requires n == 0 || AnchorBefore(rows, n)
    ensures Decode(rows[..n], interval).Success?
    ensures Decode(rows[..n], interval).value.index == f.index[..n]
    ensures Decode(rows[..n], interval).value.data == f.data[..n]
  {
    DecodedIndex(rows, interval, f);
    TokensPrefix(rows, n);
    DecodeSucceeds(rows[..n], interval);
    DateColumnPrefix(Tokens(rows), interval, n);
    assert Project(rows[..n]) == Project(rows)[..n];
  }

  // ---------------------------------------------------------------------
  // Worked examples

  /** One anchor: [a1000, 0, 2] at 60 seconds resolves to 1000, 1000, 1120. */
  lemma OneAnchorDates()
    ensures DateColumn([Anchor(1000), Offset(0), Offset(2)], 60) == [Some(1000), Some(1000), Some(1120)]
  {
    var toks := [Anchor(1000), Offset(0), Offset(2)];
    ResolvesToNearestAnchor(toks, 60, 0, 0);
    ResolvesToNearestAnchor(toks, 60, 0, 1);
    ResolvesToNearestAnchor(toks, 60, 0, 2);
  }

  /** Two anchors: [a5000, a6000, 1] at 30 seconds resolves to 5000, 6000,
      6030; the offset row counts from the later, nearer anchor. */
  lemma TwoAnchorsDates()
    ensures DateColumn([Anchor(5000), Anchor(6000), Offset(1)], 30) == [Some(5000), Some(6000), Some(6030)]
  {
    var toks := [Anchor(5000), Anchor(6000), Offset(1)];
    ResolvesToNearestAnchor(toks, 30, 0, 0);
    ResolvesToNearestAnchor(toks, 30, 1, 1);
    ResolvesToNearestAnchor(toks, 30, 1, 2);
  }

  /** A leading offset row stays undated; the anchor after it still resolves. */
  lemma LeadingOffsetDates()
    ensures DateColumn([Offset(5), Anchor(100)], 60) == [None, Some(100)]
  {
    var toks := [Offset(5), Anchor(100)];
    UndatedBeforeFirstAnchor(toks, 60, 0);
    ResolvesToNearestAnchor(toks, 60, 1, 1);
  }

  /** The anchor token "a<t>" reads as Anchor(t). */
  lemma LexAnchorText(t: nat, text: string)
    requires text == [ANCHOR_MARK] + ShowNat(t)
    ensures Lex(text) == Success(Anchor(t))
  {
    assert text == Show(Anchor(t));
    LexShow(Anchor(t));
  }

  /** The offset token "<k>" reads as Offset(k). */
  lemma LexOffsetText(k: nat, text: string)
    requires text == ShowNat(k)
    ensures Lex(text) == Success(Offset(k))
  {
    assert text == Show(Offset(k));
    LexShow(Offset(k));
  }

  /** Three rows whose dates lex to x, y and z decode to exactly those tokens. */
  lemma ThreeTokens(rows: seq<RawRow>, x: Token, y: Token, z: Token)
    requires |rows| == 3
    requires Lex(rows[0].date) == Success(x) && Lex(rows[1].date) == Success(y) && Lex(rows[2].date) == Success(z)
    ensures AllLex(rows) && Tokens(rows) == [x, y, z]
  {
  }

  /** Rows whose date tokens are a1000, 0, 2 decode at a one-minute interval
      to the timestamps 1000, 1000 and 1120. */
  lemma OneAnchorExample(rows: seq<RawRow>)
    requires |rows| == 3 && rows[0].date == "a1000" && rows[1].date == "0" && rows[2].date == "2"
    ensures Decode(rows, IntervalSeconds(Freq(1, Minute))).Success?
    ensures Decode(rows, IntervalSeconds(Freq(1, Minute))).value.index == [Some(1000), Some(1000), Some(1120)]
  {
    OneAnchorTokens(rows);
    DecodeSucceeds(rows, 60);
    OneAnchorDates();
  }

  lemma OneAnchorTokens(rows: seq<RawRow>)
    requires |rows| == 3 && rows[0].date == "a1000" && rows[1].date == "0" && rows[2].date == "2"
    ensures Decodable(rows) && Tokens(rows) == [Anchor(1000), Offset(0), Offset(2)]
  {
    LexAnchorText(1000, rows[0].date);
    LexOffsetText(0, rows[1].date);
    LexOffsetText(2, rows[2].date);
    ThreeTokens(rows, Anchor(1000), Offset(0), Offset(2));
    assert IsAnchorText(rows[0].date);
  }

  /** Rows whose date tokens are a5000, a6000, 1 decode at a thirty-second
      interval to the timestamps 5000, 6000 and 6030. */
  lemma TwoAnchorsExample(rows: seq<RawRow>)
    requires |rows| == 3 && rows[0].date == "a5000" && rows[1].date == "a6000" && rows[2].date == "1"
    ensures Decode(rows, IntervalSeconds(Freq(30, Second))).Success?
    ensures Decode(rows, IntervalSeconds(Freq(30, Second))).value.index == [Some(5000), Some(6000), Some(6030)]
  {
    TwoAnchorsTokens(rows);
    DecodeSucceeds(rows, 30);
    TwoAnchorsDates();
  }

  lemma TwoAnchorsTokens(rows: seq<RawRow>)
    requires |rows| == 3 && rows[0].date == "a5000" && rows[1].date == "a6000" && rows[2].date == "1"
    ensures Decodable(rows) && Tokens(rows) == [Anchor(5000), Anchor(6000), Offset(1)]
  {
    LexAnchorText(5000, rows[0].date);
    LexAnchorText(6000, rows[1].date);
    LexOffsetText(1, rows[2].date);
    ThreeTokens(rows, Anchor(5000), Anchor(6000), Offset(1));
    assert IsAnchorText(rows[0].date);
  }

  /** A garbage token raises at its own row. */
  lemma GarbageTokenExample(rows: seq<RawRow>, interval: int)
    requires |rows| == 2 && rows[0].date == "a100" && rows[1].date == "xyz"
    ensures Decode(rows, interval) == Failure(DecodeError(BadOffset, 1))
  {
    LexAnchorText(100, rows[0].date);
    LexGarbage("xyz");
    assert FirstFault(rows, 2, EmptyToken) == None;
    assert FirstFault(rows, 2, BadAnchor) == None;
    assert FirstFault(rows, 2, BadOffset) == Some(1);
  }

  /** The passes raise in column order: an empty token on a later row wins
      over an unparsable token on an earlier one. */
  lemma EmptyTokenWinsExample(rows: seq<RawRow>, interval: int)
    requires |rows| == 2 && rows[0].date == "xyz" && rows[1].date == ""
    ensures Decode(rows, interval) == Failure(DecodeError(EmptyToken, 1))
  {
    LexGarbage("xyz");
    assert FirstFault(rows, 2, EmptyToken) == Some(1);
  }

  /** An anchor mark followed by no integer raises. */
  lemma BadAnchorExample(rows: seq<RawRow>, interval: int)
    requires |rows| == 1 && rows[0].date == "a"
    ensures Decode(rows, interval) == Failure(DecodeError(BadAnchor, 0))
  {
    assert rows[0].date[1..] == "";
    assert FirstFault(rows, 1, EmptyToken) == None;
    assert FirstFault(rows, 1, BadAnchor) == Some(0);
  }

  /** A table with no rows decodes to an empty frame. */
  lemma EmptyTableDecodes(interval: int)
    ensures Decode([], interval) == Success(Frame([], Lst(), []))
  {
    DecodeSucceeds([], interval);
  }

  /** A table of bare integers with no anchor raises on row 0, whatever the
      interval: read_csv has typed its Date column as integers. */
  lemma IntegerColumnExample(rows: seq<RawRow>, interval: int)
    requires |rows| == 2 && rows[0].date == "1" && rows[1].date == "2"
    ensures Decode(rows, interval) == Failure(DecodeError(IntegerColumn, 0))
  {
    LexOffsetText(1, rows[0].date);
    LexOffsetText(2, rows[1].date);
    assert !IsAnchorText(rows[0].date) && !IsAnchorText(rows[1].date);
  }

  /** Every non-empty table whose tokens all lex but hold no anchor raises
      the integer-column error on row 0. */
  lemma NoAnchorRaises(rows: seq<RawRow>, interval: int)
    requires rows != [] && AllLex(rows)
    requires forall i | 0 <= i < |rows| :: Lex(rows[i].date).value.Offset?
    ensures Decode(rows, interval) == Failure(DecodeError(IntegerColumn, 0))
  {
    forall j | 0 <= j < |rows| ensures !IsAnchorText(rows[j].date) {
      assert Lex(rows[j].date).Success?;
    }
  }

  // ---------------------------------------------------------------------
  // Tokens

  /** Lexing inverts the provider's rendering of a token. */
  lemma LexShow(tok: Token)
    ensures Lex(Show(tok)) == Success(tok)
  {
    match tok
    case Anchor(t) =>
      assert Show(tok)[1..] == ShowInt(t);
      ParseShowInt(t);
    case Offset(k) =>
      ParseShowInt(k);
  }

  /** A non-empty token that starts with neither the anchor mark, a sign nor a
      digit is rejected by the offset parse. */
  lemma LexGarbage(s: string)
    requires s != [] && s[0] != ANCHOR_MARK && s[0] != '+' && s[0] != '-' && !IsDigit(s[0])
    ensures Lex(s) == Failure(BadOffset)
  {
  }

  /** '1Min' is sixty seconds and '30S' thirty. */
  lemma IntervalExamples()
    ensures IntervalSeconds(Freq(1, Minute)) == 60
    ensures IntervalSeconds(Freq(30, Second)) == 30
  {
  }

  /** The interval is the same duration whichever unit expresses it. */
  lemma IntervalUnitsAgree(c: nat)
    ensures IntervalSeconds(Freq(c, Minute)) == IntervalSeconds(Freq(60 * c, Second))
    ensures IntervalSeconds(Freq(c, Hour)) == IntervalSeconds(Freq(60 * c, Minute))
    ensures IntervalSeconds(Freq(c, Day)) == IntervalSeconds(Freq(24 * c, Hour))
  {
  }
}
