/**
 * Trade-by-trade detail of the latest session, and the process-wide cache of
 * base-info records it consults first.
 */
module DealDetail {
  import opened Wrappers
  import opened Frame
  import Text

  /** The fixed columns of a deal-detail table. */
  const DealColumns: seq<string> := ["名称", "代码", "时间", "昨收", "成交价", "成交量", "单数"]

  /** The columns of the detail lines themselves, before the previous close is inserted. */
  const DetailColumns: seq<string> := ["时间", "成交价", "成交量", "单数"]

  const PrevCloseColumn: string := "昨收"

  /** The two fields of a base-info record that the deal-detail call reads. */
  datatype BaseInfo = BaseInfo(name: Cell, code: Cell)

  /** What the base-info lookup returns when the service has no data: every field NaN. */
  const EmptyBaseInfo: BaseInfo := BaseInfo(NaN, NaN)

  /**
   * A decoded details response: `data.details` (comma-joined lines) and
   * `data.prePrice`, each absent when the response lacks it.
   */
  datatype DetailPayload = DetailPayload(details: Option<seq<string>>, prePrice: Option<Cell>)

  /** `str(base_info['代码']).lower() == 'nan'` */
  predicate CodeIsNan(info: BaseInfo) {
    Text.IsNanText(PyStr(info.code))
  }

  /** Python `fields[:4]`. */
  function FirstFour(fields: seq<string>): (r: seq<string>)
    ensures |r| <= 4 && |r| <= |fields| && r == fields[..|r|]
    ensures |fields| >= 4 ==> |r| == 4
    ensures |fields| < 4 ==> r == fields
  {
    if |fields| <= 4 then fields else fields[..4]
  }

  /** `[line.split(',')[:4] for line in lines]` */
  function DetailRows(lines: seq<string>): seq<seq<string>> {
    seq(|lines|, i requires 0 <= i < |lines| => FirstFour(Text.Split(lines[i], ',')))
  }

  /**
   * The table built from a base-info record and the details response (None:
   * the request raised). A code that prints as 'nan' short-circuits to an
   * empty table before any request. Otherwise each line keeps its first four
   * fields, the previous close is inserted after the time, and the record's
   * name and code fill the first two columns of every row.
   */
  function DealTable(info: BaseInfo, response: Option<DetailPayload>): (r: Result<Table>)
    ensures CodeIsNan(info) ==> r == Success(Table(DealColumns, []))
    ensures r.Success? ==> r.value.columns == DealColumns && Conforms(r.value)
    ensures r.Success? && !CodeIsNan(info) ==>
      && response.Some? && response.value.details.Some? && response.value.prePrice.Some?
      && |r.value.rows| == |response.value.details.value|
      && forall i :: 0 <= i < |r.value.rows| ==>
           && r.value.rows[i][0] == info.name
           && r.value.rows[i][1] == info.code
           && r.value.rows[i][3] == response.value.prePrice.value
  {
    if CodeIsNan(info) then Success(Table(DealColumns, []))
    else if response.None? then Failure(Transport)
    else if response.value.details.None? then Failure(MissingKey("details"))
    else
      var detail :- FromRows(DetailColumns, DetailRows(response.value.details.value));
      if response.value.prePrice.None? then Failure(MissingKey("prePrice"))
      else
        Success(WithNameAndCode(info, WithPrevClose(detail, response.value.prePrice.value)))
  }

  /** The detail table with the previous close inserted after the time column. */
  function WithPrevClose(detail: Table, prePrice: Cell): (t: Table)
    requires detail.columns == DetailColumns && Conforms(detail)
    ensures t.columns == DealColumns[2..] && Conforms(t) && |t.rows| == |detail.rows|
    ensures forall i :: 0 <= i < |t.rows| ==> t.rows[i] == detail.rows[i][..1] + [prePrice] + detail.rows[i][1..]
  {
    InsertColumnAt(detail, 1, PrevCloseColumn, prePrice);
    InsertColumn(detail, 1, PrevCloseColumn, prePrice).value
  }

  /** `df.loc[:, '代码'] = code`, `df.loc[:, '名称'] = name` over the detail values. */
  function WithNameAndCode(info: BaseInfo, t: Table): (r: Table)
    requires t.columns == DealColumns[2..] && Conforms(t)
    ensures r.columns == DealColumns && Conforms(r) && |r.rows| == |t.rows|
    ensures forall i :: 0 <= i < |r.rows| ==> r.rows[i] == [info.name, info.code] + t.rows[i]
  {
    Table(DealColumns, seq(|t.rows|, i requires 0 <= i < |t.rows| => [info.name, info.code] + t.rows[i]))
  }

  /**
   * When the code is not 'nan' and the response is complete, the call fails
   * exactly when there are lines and none of them has four fields.
   */
  lemma DealOutcome(info: BaseInfo, lines: seq<string>, prePrice: Cell)
    requires !CodeIsNan(info)
    ensures var r := DealTable(info, Some(DetailPayload(Some(lines), Some(prePrice))));
      && (r.Failure? <==> |lines| > 0 && forall i :: 0 <= i < |lines| ==> |Text.Split(lines[i], ',')| < 4)
      && (r.Failure? ==> r.error == ShapeMismatch(4, MaxWidth(DetailRows(lines))))
  {
    var rows := DetailRows(lines);
    if |lines| > 0 {
      if forall i :: 0 <= i < |lines| ==> |Text.Split(lines[i], ',')| < 4 {
        var k :| 0 <= k < |rows| && |rows[k]| == MaxWidth(rows);
        assert |rows[k]| < 4;
      } else {
        var k :| 0 <= k < |lines| && |Text.Split(lines[k], ',')| >= 4;
        assert |rows[k]| == 4;
      }
    }
  }

  /**
   * Row i of a table built from lines that each have at least four fields:
   * name, code, time, previous close, price, volume, order count.
   */
  lemma DealRows(info: BaseInfo, lines: seq<string>, prePrice: Cell)
    requires !CodeIsNan(info)
    requires forall i :: 0 <= i < |lines| ==> |Text.Split(lines[i], ',')| >= 4
    ensures var r := DealTable(info, Some(DetailPayload(Some(lines), Some(prePrice))));
      && r.Success?
      && |r.value.rows| == |lines|
      && forall i :: 0 <= i < |lines| ==>
           var f := Text.Split(lines[i], ',');
           r.value.rows[i] == [info.name, info.code, Str(f[0]), prePrice, Str(f[1]), Str(f[2]), Str(f[3])]
  {
    DealOutcome(info, lines, prePrice);
    var detail := FromRows(DetailColumns, DetailRows(lines)).value;
    assert DealTable(info, Some(DetailPayload(Some(lines), Some(prePrice))))
        == Success(WithNameAndCode(info, WithPrevClose(detail, prePrice)));
    forall i | 0 <= i < |lines|
      ensures var f := Text.Split(lines[i], ',');
        WithNameAndCode(info, WithPrevClose(detail, prePrice)).rows[i]
          == [info.name, info.code, Str(f[0]), prePrice, Str(f[1]), Str(f[2]), Str(f[3])]
    {
      DealRowAt(info, lines, prePrice, i);
    }
  }

  /** Row i of the assembled table, for a line with at least four fields. */
  lemma DealRowAt(info: BaseInfo, lines: seq<string>, prePrice: Cell, i: nat)
    requires forall k :: 0 <= k < |lines| ==> |Text.Split(lines[k], ',')| >= 4
    requires i < |lines|
    ensures var r := FromRows(DetailColumns, DetailRows(lines));
      var f := Text.Split(lines[i], ',');
      && r.Success?
      && |r.value.rows| == |lines|
      && WithNameAndCode(info, WithPrevClose(r.value, prePrice)).rows[i]
           == [info.name, info.code, Str(f[0]), prePrice, Str(f[1]), Str(f[2]), Str(f[3])]
  {
    DetailRowAt(lines, i);
    var f := Text.Split(lines[i], ',');
    AssembledRow(info, FromRows(DetailColumns, DetailRows(lines)).value, prePrice, i,
                 Str(f[0]), Str(f[1]), Str(f[2]), Str(f[3]));
  }

  /** A line with at least four fields becomes the row of its first four fields. */
  lemma DetailRowAt(lines: seq<string>, i: nat)
    requires forall k :: 0 <= k < |lines| ==> |Text.Split(lines[k], ',')| >= 4
    requires i < |lines|
    ensures var r := FromRows(DetailColumns, DetailRows(lines));
      var f := Text.Split(lines[i], ',');
      && r.Success?
      && |r.value.rows| == |lines|
      && r.value.rows[i] == [Str(f[0]), Str(f[1]), Str(f[2]), Str(f[3])]
  {
    var rows := DetailRows(lines);
    DetailWidth(lines, i);
    var detail := FromRows(DetailColumns, rows).value;
    assert detail.rows[i][..|rows[i]|] == detail.rows[i];
    var f := Text.Split(lines[i], ',');
    assert rows[i] == f[..4];
  }

  /** Lines that each have at least four fields give rows exactly four wide. */
  lemma DetailWidth(lines: seq<string>, i: nat)
    requires forall k :: 0 <= k < |lines| ==> |Text.Split(lines[k], ',')| >= 4
    requires i < |lines|
    ensures MaxWidth(DetailRows(lines)) == 4
  {
    var rows := DetailRows(lines);
    assert forall k :: 0 <= k < |rows| ==> |rows[k]| == 4;
    assert |rows[i]| == 4;
  }

  /** The previous close lands after the time, the name and code in front. */
  lemma AssembledRow(info: BaseInfo, detail: Table, prePrice: Cell, i: nat, time: Cell, price: Cell, volume: Cell, count: Cell)
    requires detail.columns == DetailColumns && Conforms(detail)
    requires i < |detail.rows| && detail.rows[i] == [time, price, volume, count]
    ensures WithNameAndCode(info, WithPrevClose(detail, prePrice)).rows[i]
      == [info.name, info.code, time, prePrice, price, volume, count]
  {
    var d := detail.rows[i];
    assert d[..1] == [time];
    assert d[1..] == [price, volume, count];
  }

  /** An empty base-info record always takes the 'nan' short-circuit. */
  lemma EmptyBaseInfoShortCircuits(response: Option<DetailPayload>)
    ensures DealTable(EmptyBaseInfo, response) == Success(Table(DealColumns, []))
  {
    assert PyStr(EmptyBaseInfo.code) == "nan";
    Text.NanSpellings("nan");
  }

  /**
   * The short-circuit fires for a NaN code and for a text code spelled nan in
   * any case, and never for a null code, which prints as "None".
   */
  lemma CodeIsNanCases(info: BaseInfo)
    ensures CodeIsNan(info) <==>
      info.code.NaN? || (info.code.Str? && Text.IsNanText(info.code.text))
    ensures info.code.Null? ==> !CodeIsNan(info)
  {
    Text.NanSpellings(PyStr(info.code));
  }

  /**
   * A record whose code is a JSON null goes on to request the details: with
   * lines that have four fields each, its rows carry the null as their code.
   */
  lemma NullCodeIsRequested(name: Cell, lines: seq<string>, prePrice: Cell)
    requires forall i :: 0 <= i < |lines| ==> |Text.Split(lines[i], ',')| >= 4
    ensures DealTable(BaseInfo(name, Null), None) == Failure(Transport)
    ensures var r := DealTable(BaseInfo(name, Null), Some(DetailPayload(Some(lines), Some(prePrice))));
      && r.Success?
      && |r.value.rows| == |lines|
      && forall i :: 0 <= i < |lines| ==> r.value.rows[i][1] == Null
  {
    CodeIsNanCases(BaseInfo(name, Null));
    DealRows(BaseInfo(name, Null), lines, prePrice);
  }

  /**
   * `BASE_INFO_CACHE.get(quote_id, fetched)` followed by storing the result
   * under `quote_id`: the cache ends up holding the key; a cached value wins
   * over the fetched one; no other key changes.
   */
  function CacheLookup(entries: map<string, BaseInfo>, quoteId: string, fetched: BaseInfo): (r: (map<string, BaseInfo>, BaseInfo))
    ensures quoteId in r.0 && r.0[quoteId] == r.1
    ensures quoteId in entries ==> r.1 == entries[quoteId] && r.0 == entries
    ensures quoteId !in entries ==> r.1 == fetched
    ensures r.0.Keys == entries.Keys + {quoteId}
    ensures forall k :: k in entries && k != quoteId ==> r.0[k] == entries[k]
  {
    var info := if quoteId in entries then entries[quoteId] else fetched;
    (entries[quoteId := info], info)
  }

  /**
   * A second lookup of the same id returns the same record and leaves the
   * cache as it was, whatever the second fetch returned.
   */
  lemma CacheLookupStable(entries: map<string, BaseInfo>, quoteId: string, fetched: BaseInfo, refetched: BaseInfo)
    ensures var (after, info) := CacheLookup(entries, quoteId, fetched);
      CacheLookup(after, quoteId, refetched) == (after, info)
  {
  }

  /** The process-wide base-info cache, keyed by quote id, never evicted. */
  class BaseInfoCache {
    var entries: map<string, BaseInfo>

    constructor ()
      ensures entries == map[]
    {
      entries := map[];
    }

    /**
     * The cache step of the deal-detail call. The base-info request is made
     * whether or not the id is cached (it is the default argument of `get`),
     * so when it raises nothing is stored and the error propagates even on a
     * cache hit.
     */
    method Lookup(quoteId: string, fetched: Result<BaseInfo>) returns (r: Result<BaseInfo>)
      modifies this
      ensures fetched.Failure? ==> r == Failure(fetched.error) && entries == old(entries)
      ensures fetched.Success? ==>
        && r.Success?
        && (entries, r.value) == CacheLookup(old(entries), quoteId, fetched.value)
    {
      if fetched.Failure? {
        return Failure(fetched.error);
      }
      var info := if quoteId in entries then entries[quoteId] else fetched.value;
      entries := entries[quoteId := info];
      r := Success(info);
    }
  }

  /**
   * `get_deal_detail`: the cache step with the base-info request's outcome,
   * then the table built from the cached record and the details response.
   */
  method GetDealDetail(cache: BaseInfoCache, quoteId: string, fetched: Result<BaseInfo>,
                       response: Option<DetailPayload>) returns (r: Result<Table>)
    modifies cache
    ensures fetched.Failure? ==> r == Failure(fetched.error) && cache.entries == old(cache.entries)
    ensures fetched.Success? ==>
      var (after, info) := CacheLookup(old(cache.entries), quoteId, fetched.value);
      cache.entries == after && r == DealTable(info, response)
  {
    var info :- cache.Lookup(quoteId, fetched);
    r := DealTable(info, response);
  }
}
