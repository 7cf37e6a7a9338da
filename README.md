# Google intraday timestamp decoding, in Dafny

This is a model of the core of pandas-datareader's Google intraday reader, `pandas_datareader/google/intra.py`. The provider sends one row per candle. The row's Date token is either an **anchor** or an **offset**:

- An anchor is the marker `a` followed by an absolute Unix second count.
- An offset is a whole number of sampling intervals since the most recent anchor.

`GoogleIntraReader._read_lines` turns these tokens into absolute timestamps and keeps the candle columns. The model covers:

- the column names of class `CANDLE` (`candle.dfy`);
- the decimal `int()` parse that the decoder relies on, and its inverse (`int_text.dfy`);
- `interval_seconds` and `_read_lines` (`google_intra.dfy`). `Decode` is the column-at-a-time computation of `_read_lines`: forward-fill the anchors, scale the offsets, add the two. `ReadLines` is proved equal to `Decode` and makes two forward passes: `FindError`, which handles the parse passes and the order they raise in, then `ResolveDates`, which carries the last anchor;
- properties of the decoder (`google_intra_facts.dfy`):
  - nearest-anchor resolution;
  - undated leading rows;
  - consecutive rows one interval apart;
  - no look-ahead;
  - lexing inverts rendering;
  - worked examples;
- `timestamp_to_unix` and its divisor table (`unix_time.dfy`).

Timestamps are kept as integer epoch seconds. An index entry of `None` stands for pandas' NaT. A parse failure is a `DecodeError` that carries the fault and the row that raises it. The interval is a parameter: a `Freq` (count and unit) whose length in seconds `IntervalSeconds` gives.

Four behaviours of `_read_lines` that are easy to get wrong:

- **Leading offset rows.** An offset row above every anchor does not raise an error, and it does not resolve against an implicit zero. Its anchor entry is NaN after the forward fill, and NaN plus seconds is NaN, so that row's index entry is NaT (`None`) while every other row still decodes, provided some row of the table is an anchor.
- **Tables with no anchor.** When every Date token is a bare integer, `read_csv` (line 47) types the Date column as integers and `dt[0]` on line 48 raises on row 0. The model reports this as the fault `IntegerColumn` at row 0. A table with no rows at all is decoded by the model to an empty frame (see "## Left out").
- **Signed offsets.** `astype(int)` accepts a leading sign, so `-3` is a valid offset.
- **Precedence of parse errors.** There is more than one kind of parse error, and which one is raised depends on the order of the column passes:
  1. an empty token anywhere (line 48);
  2. then a bad anchor remainder (line 49);
  3. then a bad offset (line 52);
  4. then a table with no anchor (line 48, on an integer column).

  Each is reported at the first row where it occurs.

## Model

| member | source | states |
|---|---|---|
| GoogleIntra.ReadLines | pandas_datareader/google/intra.py:46-57 | the reader raises exactly when some Date token does not parse or a non-empty table holds no anchor, and it returns the frame that `Decode` defines: the decoded index, the columns `Lst()`, and the candle values of each row |
| GoogleIntra.FindError | pandas_datareader/google/intra.py:47-52 | one scan over the rows reports the error that the column passes raise, with the same kind and the same row, for Date text other than pandas' missing-value strings (see Left out) |
| GoogleIntra.ResolveDates | pandas_datareader/google/intra.py:50-54 | a forward scan that carries only the last anchor produces the same Date column as forward-fill plus offsets |
| GoogleIntra.ScanDatesIsDateColumn | pandas_datareader/google/intra.py:50-54 | the row-by-row scan equals the column computation, and the carried anchor is the last entry of the forward-filled anchor column |
| GoogleIntra.Decode | pandas_datareader/google/intra.py:46-57 | decoding succeeds iff every token lexes and the table is empty or holds an anchor; a failure is the first error of the pass order; success has one index entry and one row of the five candle values per input row, with columns `Lst()` |
| GoogleIntra.FirstError | pandas_datareader/google/intra.py:47-52 | no error iff every token lexes and the table is empty or holds an anchor; the integer-column error at row 0 exactly when a non-empty table lexes but holds no anchor; any other reported row has the reported fault and is the first with it; a non-empty-token error means no token is empty; a bad-offset error means no anchor is bad |
| GoogleIntra.FirstFault | pandas_datareader/google/intra.py:48-52 | the first row below n whose token has the given fault, or None exactly when there is no such row |
| GoogleIntra.Lex | pandas_datareader/google/intra.py:48-52 | a token lexes iff it is non-empty and, after a leading `a` if present, an optional sign followed by one or more digits; an empty token is the only EmptyToken; a lexed token is an anchor iff it starts with `a`; BadAnchor tokens start with `a` and BadOffset tokens do not |
| GoogleIntra.FFill | pandas_datareader/google/intra.py:51 | the forward fill keeps present entries, a missing entry copies the entry above it, and a leading missing entry stays missing |
| GoogleIntra.DateColumn | pandas_datareader/google/intra.py:48-54 | the sum of line 54 over the column definitions `Tokens` (lines 48-52), `AnchorColumn` (lines 49-50), `FFill` and `OffsetColumn` (lines 52-53): one entry per row, an anchor row's entry is its own anchor value; the other entries are fixed by `ResolvesToNearestAnchor` and `UndatedBeforeFirstAnchor` |
| GoogleIntra.DateColumnPrefix | pandas_datareader/google/intra.py:50-54 | decoding never looks ahead: the column of a prefix is the prefix of the column |
| GoogleIntra.FFillPrefix | pandas_datareader/google/intra.py:51 | forward-filling a prefix gives the prefix of the filled column |
| GoogleIntra.Field | pandas_datareader/google/intra.py:56-57 | a name selects a value iff it is one of `Lst()`; after `set_index`, Date is no longer a column |
| GoogleIntra.Select | pandas_datareader/google/intra.py:57 | `df[cols]` succeeds iff every name is a column, and then gives each named field in the order asked for |
| GoogleIntra.SelectLst | pandas_datareader/google/intra.py:57 | selecting `Lst()` gives open, high, low, close and volume, in that order |
| GoogleIntra.Project | pandas_datareader/google/intra.py:57 | one selected row per input row, each the selection of `Lst()` |
| GoogleIntra.Show | pandas_datareader/google/intra.py:48-49 | a rendered token is never empty and starts with the anchor mark iff it is an anchor |
| GoogleIntraFacts.ResolvesToNearestAnchor | pandas_datareader/google/intra.py:50-54 | a row whose nearest anchor above is T, with offset k, decodes to T + k * interval; an anchor row decodes to T |
| GoogleIntraFacts.UndatedBeforeFirstAnchor | pandas_datareader/google/intra.py:50-54 | an offset row with no anchor above it gets no timestamp (NaT) |
| GoogleIntraFacts.DatedIffAnchorAbove | pandas_datareader/google/intra.py:50-54 | a row is dated iff some anchor row is at or above it |
| GoogleIntraFacts.NearestAnchorExists | pandas_datareader/google/intra.py:51 | every row with an anchor at or above it has a nearest such anchor |
| GoogleIntraFacts.TwoAnchors | pandas_datareader/google/intra.py:51-54 | offset rows between anchors T1 and T2 count from T1; those after T2 count from T2 |
| GoogleIntraFacts.ConsecutiveRowsOneIntervalApart | pandas_datareader/tests/test_google.py:148-149 | a dated row followed by the next offset of its run is exactly one interval later, which is the index step the intraday test expects |
| GoogleIntraFacts.RunIsIncreasing | pandas_datareader/google/intra.py:52-54 | with a positive interval, a larger offset in the same run is a later timestamp |
| GoogleIntraFacts.DecodeAnchorIdentity | pandas_datareader/google/intra.py:48-49 | in any decoded frame, an anchor row `a` + T is dated T, whatever the interval |
| GoogleIntraFacts.OffsetRowResolves | pandas_datareader/google/intra.py:50-54 | on rows that all lex, an offset row k below anchor T, with only offsets in between, decodes to T + k * interval |
| GoogleIntraFacts.DecodeOffsetRow | pandas_datareader/google/intra.py:46-57 | in a decoded frame, an offset row k below anchor T, with only offsets in between, is dated T + k * interval |
| GoogleIntraFacts.DecodeLeadingOffsets | pandas_datareader/google/intra.py:50-55 | in a decoded frame, offset rows above every anchor are NaT and do not make decoding fail |
| GoogleIntraFacts.DecodedIndex | pandas_datareader/google/intra.py:54-57 | a decoded frame's index is the Date column of the rows' tokens, and its data is the projection of the rows |
| GoogleIntraFacts.DecodeSucceeds | pandas_datareader/google/intra.py:46-57 | a table whose tokens all lex and which is empty or holds an anchor always decodes, to the Date column of its tokens and the projection of its rows |
| GoogleIntraFacts.DecodePrefix | pandas_datareader/google/intra.py:46-57 | a prefix of a decodable table that is empty or holds an anchor of its own decodes to the prefix of its index and data |
| GoogleIntraFacts.LexShow | pandas_datareader/google/intra.py:48-52 | lexing inverts the rendering of every anchor and every offset token |
| GoogleIntraFacts.LexGarbage | pandas_datareader/google/intra.py:52 | a token that starts with none of `a`, a sign or a digit raises in the offset parse |
| GoogleIntraFacts.OneAnchorDates | pandas_datareader/google/intra.py:50-54 | tokens a1000, 0, 2 at 60 s resolve to 1000, 1000, 1120 |
| GoogleIntraFacts.TwoAnchorsDates | pandas_datareader/google/intra.py:50-54 | tokens a5000, a6000, 1 at 30 s resolve to 5000, 6000, 6030 |
| GoogleIntraFacts.LeadingOffsetDates | pandas_datareader/google/intra.py:50-54 | tokens 5, a100 resolve to NaT, 100 |
| GoogleIntraFacts.LexAnchorText | pandas_datareader/google/intra.py:48-49 | the text `a` followed by the digits of t reads as the anchor t |
| GoogleIntraFacts.LexOffsetText | pandas_datareader/google/intra.py:52 | the digits of k read as the offset k |
| GoogleIntraFacts.OneAnchorExample | pandas_datareader/google/intra.py:46-61 | rows dated a1000, 0, 2 at frequency 1Min decode to the index 1000, 1000, 1120 |
| GoogleIntraFacts.TwoAnchorsExample | pandas_datareader/google/intra.py:46-61 | rows dated a5000, a6000, 1 at frequency 30S decode to the index 5000, 6000, 6030 |
| GoogleIntraFacts.GarbageTokenExample | pandas_datareader/google/intra.py:52 | rows dated a100, xyz raise a bad-offset error at row 1 |
| GoogleIntraFacts.EmptyTokenWinsExample | pandas_datareader/google/intra.py:48-52 | rows dated xyz, "" raise the empty-token error at row 1, ahead of the earlier bad offset |
| GoogleIntraFacts.BadAnchorExample | pandas_datareader/google/intra.py:49 | a row dated `a` alone raises a bad-anchor error at row 0 |
| GoogleIntraFacts.EmptyTableDecodes | pandas_datareader/google/intra.py:46-57 | the model decodes a table with no rows to an empty frame with columns `Lst()` (a modelling choice; see Left out) |
| GoogleIntraFacts.IntegerColumnExample | pandas_datareader/google/intra.py:47-48 | rows dated 1, 2 raise the integer-column error at row 0 |
| GoogleIntraFacts.NoAnchorRaises | pandas_datareader/google/intra.py:47-48 | every non-empty table of offset tokens only raises the integer-column error at row 0 |
| GoogleIntraFacts.IntervalExamples | pandas_datareader/google/intra.py:59-61 | `IntervalSeconds` gives sixty seconds for 1Min and thirty for 30S |
| GoogleIntraFacts.IntervalUnitsAgree | pandas_datareader/google/intra.py:59-61 | `IntervalSeconds` gives the same duration for c minutes and 60c seconds, c hours and 60c minutes, c days and 24c hours |
| Candle.LstPrice | pandas_datareader/google/intra.py:14-16 | four distinct price columns, without Volume or Date |
| Candle.Lst | pandas_datareader/google/intra.py:22-24 | the price columns followed by Volume, all distinct, without Date |
| Candle.LstAll | pandas_datareader/google/intra.py:18-20 | Date followed by `Lst()`, all distinct |
| IntText.ParseNat | pandas_datareader/google/intra.py:49 | a digit string parses iff it is non-empty and all digits |
| IntText.ParseInt | pandas_datareader/google/intra.py:49-52 | a string parses iff it is an optional sign followed by one or more digits; in particular the empty string and a string starting with neither a sign nor a digit do not parse |
| IntText.ParseIntRejects | pandas_datareader/google/intra.py:49-52 | `1.5`, `12x`, `5-` and `+` do not parse |
| IntText.ParseIntAccepts | pandas_datareader/google/intra.py:49-52 | `+5` parses as 5, `-3` as -3 and `007` as 7 |
| IntText.ParseShowInt | pandas_datareader/google/intra.py:49-52 | `int(str(n)) == n` for every integer, negatives included |
| IntText.DigitsValueShowNat | pandas_datareader/google/intra.py:49-52 | the digits of n read back as n |
| UnixTime.TimestampToUnix | pandas_datareader/google/intra.py:27-37 | the unit defaults to seconds; succeeds iff the unit is s, ms, us or ns; an unknown unit raises KeyError naming it; the result times the unit's divisor is the nanosecond count |
| UnixTime.DivisorTable | pandas_datareader/google/intra.py:31-36 | the table holds exactly s = 10^9, ms = 10^6, us = 10^3 and ns = 1 |
| UnixTime.DefaultUnitIsSeconds | pandas_datareader/google/intra.py:27-37 | without a unit, the result times 10^9 is the nanosecond count |
| UnixTime.NanosUnchanged | pandas_datareader/google/intra.py:27-37 | with unit ns the nanosecond count comes back unchanged |
| UnixTime.UnitsScaleByThousand | pandas_datareader/google/intra.py:31-37 | each unit in the table gives a count a thousand times the one before it |

## Left out

- CSV tokenizing (line 47: `read_csv` with `skiprows=7` and named columns). The model starts from rows already split into a Date token and five numeric fields. Of `read_csv`'s type inference, only the integer Date column of an anchor-less table is modelled.
- GoogleIntra.FirstError: `read_csv` (line 47) reads pandas' default missing-value strings in the Date field (such as `NA`, `NaN`, `nan`, `null`, `NULL`, `N/A`, `n/a` and `#N/A`; the exact list depends on the pandas version) as NaN, and line 48 then raises on that row as on a blank. The model lexes such text as an ordinary token, which fails as a bad offset (line 52). So rows `a100`, `nan` raise on row 1 in both, but under different faults, and rows `a`, `NA` give a bad anchor on row 0 in the model where the program raises at line 48 on row 1.
- GoogleIntra.FirstError: when no token is an anchor and the Date column reads as floats (a blank token, or a number such as `1.5` or `1e3`, among integers), line 48 raises on row 0 in the program, while the model reports the first empty or unparsable row. Both raise.
- The conversion to datetimes and the index (lines 55-56: `to_datetime(..., unit='s')`, `set_index`). The index is kept as integer epoch seconds, with `None` for NaT. Removing Date from the columns is modelled in `Field`.
- Floating point. The outputs of `total_seconds()` (line 61), the float sum on line 54 and line 37's true division (Python 3; Python 2 floors it to `nanos // divisor`) are exact integers and reals in the model. Within the range below, every timestamp is an integer under 2^53 and the float sum is exact.
- GoogleIntra.Decode: timestamps and offsets are unbounded integers. The program raises at line 52 when an offset does not fit in int64 (outside -2^63 .. 2^63-1), and at line 55 (`OutOfBoundsDatetime`) when a decoded timestamp lies outside pandas' nanosecond range of ±2^63 ns, about ±9 223 372 036 s, i.e. before 1677-09-21 or after 2262-04-11. The model decodes all of these.
- GoogleIntra.Decode: a table with no rows decodes to an empty frame with columns `Lst()`. In the program the outcome turns on how pandas indexes with the empty mask built on line 48: if an empty object-typed mask is not taken as boolean, line 49 selects no columns and raises `KeyError`. The model's choice is stated by `GoogleIntraFacts.EmptyTableDecodes`.
- GoogleIntra.IntervalSeconds: multiples of seconds, minutes, hours and days only. Sub-second and calendar frequencies are not modelled.
- IntText.ParseInt: the surrounding whitespace, the `_` digit separators and the non-ASCII digits that Python's `int()` also accepts are rejected.
- The `url` property (lines 42-44) and `_get_params` (lines 63-78). They build request parameters, print them and depend on the network layer. Only the `timestamp_to_unix` call on line 65 is modelled, as `UnixTime.TimestampToUnix`.
- The `_DailyBaseReader` base class (fetching, retries, sessions, symbol handling) is not part of this model.
- The pandas `Timestamp` object. `UnixTime.TimestampToUnix` takes its nanosecond count (`dt.value`) as an integer.
