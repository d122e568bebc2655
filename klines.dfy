/**
 * Shaping of the kline-style payloads (daily quotes, order-flow history,
 * intraday order flow) into tables: one row per comma-joined kline string,
 * with the instrument's name and code prepended as two constant columns.
 */
module KLines {
  import opened Wrappers
  import opened Frame
  import Text

  const NameColumn: string := "名称"
  const CodeColumn: string := "代码"

  /** The fixed columns of the intraday order-flow table. */
  const TodayBillColumns: seq<string> := ["时间", "主力净流入", "小单净流入", "中单净流入", "大单净流入", "超大单净流入"]

  /**
   * A decoded kline response: every string under `klines` (empty when the key
   * is absent or null) and the instrument's display name, when the response
   * carries the key (its value may be a JSON null, which the getters insert
   * as is).
   */
  datatype KlinePayload = KlinePayload(klines: seq<string>, name: Option<Cell>)

  /** The columns every kline table has: name, code, then the endpoint's own. */
  function Schema(columns: seq<string>): seq<string> {
    [NameColumn, CodeColumn] + columns
  }

  /** `[kline.split(',') for kline in klines]` */
  function SplitRows(klines: seq<string>): seq<seq<string>> {
    seq(|klines|, i requires 0 <= i < |klines| => Text.Split(klines[i], ','))
  }

  /**
   * The shaping shared by the daily quote history and the order-flow history:
   * no klines gives an empty table with the full schema; otherwise the name is
   * read, each kline is split into a row, the code is the part of the quote id
   * after its last '.', and code then name are inserted in front.
   */
  function KlineTable(columns: seq<string>, payload: KlinePayload, quoteId: string): (r: Result<Table>)
    ensures r.Success? ==> r.value.columns == Schema(columns) && Conforms(r.value)
    ensures r.Success? ==> |r.value.rows| == |payload.klines|
    ensures r.Success? && |payload.klines| > 0 ==>
      && payload.name.Some?
      && forall i :: 0 <= i < |r.value.rows| ==>
           r.value.rows[i][..2] == [payload.name.value, Str(Text.LastSegment(quoteId))]
    ensures |payload.klines| == 0 ==> r == Success(Table(Schema(columns), []))
  {
    if |payload.klines| == 0 then Success(Table(Schema(columns), []))
    else if payload.name.None? then Failure(MissingKey("name"))
    else
      var frame :- FromRows(columns, SplitRows(payload.klines));
      PrependNameAndCode(frame, payload.name.value, Text.LastSegment(quoteId))
  }

  /**
   * `df.insert(0, '代码', code)` then `df.insert(0, '名称', name)`: fails on
   * the first of the two names the table already has; otherwise every row
   * gains the name and the code in front.
   */
  function PrependNameAndCode(frame: Table, name: Cell, code: string): (r: Result<Table>)
    requires Conforms(frame)
    ensures r.Success? <==> CodeColumn !in frame.columns && NameColumn !in frame.columns
    ensures CodeColumn in frame.columns ==> r == Failure(DuplicateColumn(CodeColumn))
    ensures r.Success? ==>
      && r.value.columns == [NameColumn, CodeColumn] + frame.columns
      && Conforms(r.value)
      && |r.value.rows| == |frame.rows|
      && forall i :: 0 <= i < |frame.rows| ==> r.value.rows[i] == [name, Str(code)] + frame.rows[i]
  {
    assert NameColumn[0] != CodeColumn[0];
    if CodeColumn in frame.columns then Failure(DuplicateColumn(CodeColumn))
    else
      InsertInFront(frame, CodeColumn, Str(code));
      var withCode := InsertColumn(frame, 0, CodeColumn, Str(code)).value;
      if NameColumn in withCode.columns then Failure(DuplicateColumn(NameColumn))
      else
        InsertInFront(withCode, NameColumn, name);
        InsertColumn(withCode, 0, NameColumn, name)
  }

  /**
   * When the call fails, and why: a missing name, then a row wider (or every
   * row narrower) than the column list, then a clash of the inserted names
   * with the endpoint's own columns.
   */
  lemma KlineOutcome(columns: seq<string>, payload: KlinePayload, quoteId: string)
    ensures var r := KlineTable(columns, payload, quoteId);
      && (r.Success? <==>
            |payload.klines| == 0 ||
            (&& payload.name.Some?
             && MaxWidth(SplitRows(payload.klines)) == |columns|
             && CodeColumn !in columns
             && NameColumn !in columns))
      && (|payload.klines| > 0 && payload.name.None? ==> r == Failure(MissingKey("name")))
      && (|payload.klines| > 0 && payload.name.Some? && MaxWidth(SplitRows(payload.klines)) != |columns| ==>
            r == Failure(ShapeMismatch(|columns|, MaxWidth(SplitRows(payload.klines)))))
  {
  }

  /**
   * A well-formed non-empty payload gives one row per kline, in input order:
   * row i is the name, the code, then the fields of kline i.
   */
  lemma KlineRows(columns: seq<string>, payload: KlinePayload, quoteId: string)
    requires |payload.klines| > 0 && payload.name.Some?
    requires NameColumn !in columns && CodeColumn !in columns
    requires forall i :: 0 <= i < |payload.klines| ==> |Text.Split(payload.klines[i], ',')| == |columns|
    ensures var r := KlineTable(columns, payload, quoteId);
      && r.Success?
      && |r.value.rows| == |payload.klines|
      && forall i :: 0 <= i < |payload.klines| ==>
           r.value.rows[i] == [payload.name.value, Str(Text.LastSegment(quoteId))]
                              + Texts(Text.Split(payload.klines[i], ','))
  {
    var rows := SplitRows(payload.klines);
    assert |rows[0]| == |columns|;
    var frame := FromRows(columns, rows).value;
    forall i | 0 <= i < |payload.klines| ensures frame.rows[i] == Texts(rows[i]) {
      assert frame.rows[i][..|rows[i]|] == frame.rows[i];
    }
  }

  /**
   * For a quote id `market.code` with a dot-free code, every row of a table
   * shaped from it carries exactly that code.
   */
  lemma KlineCodeColumn(columns: seq<string>, payload: KlinePayload, market: string, code: string)
    requires '.' !in code
    ensures var r := KlineTable(columns, payload, market + "." + code);
      r.Success? ==> forall i :: 0 <= i < |r.value.rows| ==> r.value.rows[i][1] == Str(code)
  {
    Text.CodeRoundTrip(market, code);
    var r := KlineTable(columns, payload, market + "." + code);
    if r.Success? {
      forall i | 0 <= i < |r.value.rows| ensures r.value.rows[i][1] == Str(code) {
        assert r.value.rows[i][..2][1] == r.value.rows[i][1];
      }
    }
  }

  /**
   * Intraday order flow: the same shaping over the fixed six columns, except
   * that the name is read before the klines are looked at, so a response
   * without a name fails even when it holds no klines.
   */
  function TodayBill(payload: KlinePayload, quoteId: string): (r: Result<Table>)
    ensures payload.name.None? ==> r == Failure(MissingKey("name"))
    ensures payload.name.Some? && |payload.klines| == 0 ==> r == Success(Table(Schema(TodayBillColumns), []))
    ensures r.Success? ==> r.value.columns == Schema(TodayBillColumns) && Conforms(r.value)
    ensures r.Success? <==> payload.name.Some? && (|payload.klines| == 0 || MaxWidth(SplitRows(payload.klines)) == 6)
    ensures payload.name.Some? ==> r == KlineTable(TodayBillColumns, payload, quoteId)
  {
    KlineOutcome(TodayBillColumns, payload, quoteId);
    assert NameColumn[0] != CodeColumn[0];
    assert forall k :: 0 <= k < |TodayBillColumns| ==> TodayBillColumns[k][0] !in [NameColumn[0], CodeColumn[0]];
    if payload.name.None? then Failure(MissingKey("name"))
    else KlineTable(TodayBillColumns, payload, quoteId)
  }

  /**
   * The whole single-instrument quote history: the quote id is the code itself
   * in quote-id mode and the resolver's answer otherwise, then one request
   * (None: it raised) whose payload is shaped.
   */
  function QuoteHistorySingle(code: string, quoteIdMode: bool, resolve: string -> Option<string>,
                              columns: seq<string>, response: Option<KlinePayload>): (r: Result<Table>)
    ensures r.Success? ==> r.value.columns == Schema(columns) && Conforms(r.value)
    ensures !quoteIdMode && resolve(code).None? ==> r == Failure(Unresolved(code))
    ensures (quoteIdMode || resolve(code).Some?) && response.None? ==> r == Failure(Transport)
    ensures quoteIdMode && response.Some? ==> r == KlineTable(columns, response.value, code)
    ensures !quoteIdMode && resolve(code).Some? && response.Some? ==>
      r == KlineTable(columns, response.value, resolve(code).value)
  {
    var quoteId :- if quoteIdMode then Success(code)
                   else if resolve(code).Some? then Success(resolve(code).value)
                   else Failure(Unresolved(code));
    if response.None? then Failure(Transport)
    else KlineTable(columns, response.value, quoteId)
  }
}
