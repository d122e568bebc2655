/**
 * The multi-instrument quote history and the dispatch in front of it.
 * `get_quote_history_multi` starts one thread per code; each thread retries
 * its fetch on its own, writes only its own key of the result map and bumps
 * the progress counter once on success. Here the units run one after the
 * other, in input order.
 */
module Batch {
  import opened Wrappers
  import opened Frame
  import opened KLines

  /**
   * The outcome of one attempt: `fetch(code, i, k)` is what the single fetch
   * of `code` returns (or raises) on attempt `k` of the unit launched for
   * position `i` of the code list.
   */
  type Fetch = (string, nat, nat) -> Result<Table>

  /**
   * What the service and the resolver make of each attempt: the endpoint's
   * columns, whether codes are already quote ids, the quote-id resolver, and
   * `respond(i, k)`, the response to attempt `k` of unit `i` (None: the
   * request raised).
   */
  datatype Request = Request(
    columns: seq<string>,
    quoteIdMode: bool,
    resolve: string -> Option<string>,
    respond: (nat, nat) -> Option<KlinePayload>)

  /** Every attempt is one full single-instrument fetch. */
  function SingleFetch(req: Request): Fetch {
    (code: string, i: nat, k: nat) => QuoteHistorySingle(code, req.quoteIdMode, req.resolve, req.columns, req.respond(i, k))
  }

  /**
   * The retry decorator from attempt `k` on: the table of the first attempt
   * before `tries` that succeeds, or nothing when every one of them raised.
   */
  function RetryFrom(fetch: Fetch, code: string, i: nat, tries: nat, k: nat): (r: Option<Table>)
    ensures r.Some? ==> k < tries
    decreases tries - k
  {
    if k >= tries then None
    else if fetch(code, i, k).Success? then Some(fetch(code, i, k).value)
    else RetryFrom(fetch, code, i, tries, k + 1)
  }

  /**
   * The retry outcome is the table of the first attempt before `tries` that
   * succeeds, and there is one exactly when some attempt in the budget succeeds.
   */
  lemma {:induction false} RetryFirstSuccess(fetch: Fetch, code: string, i: nat, tries: nat, k: nat)
    ensures var r := RetryFrom(fetch, code, i, tries, k);
      && (r.Some? <==> exists j :: k <= j < tries && fetch(code, i, j).Success?)
      && (r.Some? ==> exists j :: k <= j < tries && fetch(code, i, j) == Success(r.value)
                        && forall m :: k <= m < j ==> fetch(code, i, m).Failure?)
    decreases tries - k
  {
    if k < tries && fetch(code, i, k).Failure? {
      RetryFirstSuccess(fetch, code, i, tries, k + 1);
      var r := RetryFrom(fetch, code, i, tries, k);
      if r.Some? {
        var j :| k + 1 <= j < tries && fetch(code, i, j) == Success(r.value)
                 && forall m :: k + 1 <= m < j ==> fetch(code, i, m).Failure?;
        assert forall m :: k <= m < j ==> fetch(code, i, m).Failure?;
      }
    }
  }

  /** The terminal outcome of unit `i` with a budget of `tries` attempts. */
  function UnitOutcome(fetch: Fetch, code: string, i: nat, tries: nat): Option<Table> {
    RetryFrom(fetch, code, i, tries, 0)
  }

  /**
   * One unit of work: call the single fetch until it returns, at most `tries`
   * times. Returns the table (None when every attempt raised) and how many
   * attempts were made.
   */
  method RunUnit(fetch: Fetch, code: string, i: nat, tries: nat) returns (outcome: Option<Table>, attempts: nat)
    ensures outcome == UnitOutcome(fetch, code, i, tries)
    ensures attempts <= tries
    ensures outcome.None? ==> attempts == tries
    ensures outcome.Some? ==> 1 <= attempts && fetch(code, i, attempts - 1) == Success(outcome.value)
    ensures forall m :: 0 <= m < attempts - 1 ==> fetch(code, i, m).Failure?
  {
    attempts := 0;
    while attempts < tries
      invariant attempts <= tries
      invariant forall m :: 0 <= m < attempts ==> fetch(code, i, m).Failure?
      invariant RetryFrom(fetch, code, i, tries, attempts) == UnitOutcome(fetch, code, i, tries)
    {
      var result := fetch(code, i, attempts);
      attempts := attempts + 1;
      if result.Success? {
        return Some(result.value), attempts;
      }
    }
    outcome := None;
  }

  /** The positions among the first `n` whose unit succeeded. */
  function SucceededUnits(codes: seq<string>, fetch: Fetch, tries: nat, n: nat): (s: set<nat>)
    requires n <= |codes|
    ensures forall i: nat :: i in s <==> i < n && UnitOutcome(fetch, codes[i], i, tries).Some?
    ensures |s| <= n
    decreases n
  {
    if n == 0 then {}
    else
      var prev := SucceededUnits(codes, fetch, tries, n - 1);
      assert n - 1 !in prev;
      if UnitOutcome(fetch, codes[n - 1], n - 1, tries).Some? then prev + {n - 1} else prev
  }

  /**
   * The last position before `n` whose unit for code `c` succeeded, or -1
   * when none did.
   */
  function LastSuccess(codes: seq<string>, fetch: Fetch, tries: nat, n: nat, c: string): (r: int)
    requires n <= |codes|
    ensures -1 <= r < n
    ensures r >= 0 ==> codes[r] == c && UnitOutcome(fetch, c, r, tries).Some?
    ensures forall j :: r < j < n && codes[j] == c ==> UnitOutcome(fetch, c, j, tries).None?
    decreases n
  {
    if n == 0 then -1
    else if codes[n - 1] == c && UnitOutcome(fetch, c, n - 1, tries).Some? then n - 1
    else LastSuccess(codes, fetch, tries, n - 1, c)
  }

  /**
   * The result map and the progress count after the first `n` units. The
   * count is the number of units that succeeded: one per success, never one
   * per attempt.
   */
  function Aggregate(codes: seq<string>, fetch: Fetch, tries: nat, n: nat): (r: (map<string, Table>, nat))
    requires n <= |codes|
    ensures r.1 == |SucceededUnits(codes, fetch, tries, n)|
    ensures r.1 <= n
    decreases n
  {
    if n == 0 then (map[], 0)
    else
      var prev := Aggregate(codes, fetch, tries, n - 1);
      var last := UnitOutcome(fetch, codes[n - 1], n - 1, tries);
      if last.Some? then (prev.0[codes[n - 1] := last.value], prev.1 + 1)
      else prev
  }

  /**
   * A code is a key exactly when one of its units succeeded, and it holds the
   * table of the last of them.
   */
  lemma {:induction false} AggregateAt(codes: seq<string>, fetch: Fetch, tries: nat, n: nat, c: string)
    requires n <= |codes|
    ensures var r := Aggregate(codes, fetch, tries, n);
      var k := LastSuccess(codes, fetch, tries, n, c);
      && (c in r.0 <==> k >= 0)
      && (c in r.0 ==> UnitOutcome(fetch, c, k, tries) == Some(r.0[c]))
    decreases n
  {
    if n > 0 {
      AggregateAt(codes, fetch, tries, n - 1, c);
    }
  }

  /** The keys are exactly the codes that have a unit that succeeded. */
  lemma AggregateKeys(codes: seq<string>, fetch: Fetch, tries: nat, c: string)
    ensures c in Aggregate(codes, fetch, tries, |codes|).0 <==>
      exists i :: 0 <= i < |codes| && codes[i] == c && UnitOutcome(fetch, c, i, tries).Some?
  {
    AggregateAt(codes, fetch, tries, |codes|, c);
    var k := LastSuccess(codes, fetch, tries, |codes|, c);
    if k < 0 {
      assert forall i :: 0 <= i < |codes| && codes[i] == c ==> UnitOutcome(fetch, c, i, tries).None?;
    }
  }

  /** A unit's table has the endpoint's schema, like every single fetch. */
  lemma {:induction false} RetrySchema(req: Request, code: string, i: nat, tries: nat, k: nat)
    ensures var r := RetryFrom(SingleFetch(req), code, i, tries, k);
      r.Some? ==> r.value.columns == Schema(req.columns) && Conforms(r.value)
    decreases tries - k
  {
    if k < tries {
      var attempt := QuoteHistorySingle(code, req.quoteIdMode, req.resolve, req.columns, req.respond(i, k));
      assert SingleFetch(req)(code, i, k) == attempt;
      if attempt.Failure? {
        RetrySchema(req, code, i, tries, k + 1);
      }
    }
  }

  /** Every table in the result map has the endpoint's schema. */
  lemma BatchSchema(req: Request, codes: seq<string>, tries: nat, c: string)
    requires c in Aggregate(codes, SingleFetch(req), tries, |codes|).0
    ensures var t := Aggregate(codes, SingleFetch(req), tries, |codes|).0[c];
      t.columns == Schema(req.columns) && Conforms(t)
  {
    AggregateAt(codes, SingleFetch(req), tries, |codes|, c);
    var k := LastSuccess(codes, SingleFetch(req), tries, |codes|, c);
    RetrySchema(req, c, k, tries, 0);
  }

  /**
   * `get_quote_history_multi`: launch one unit per code, in order, and join
   * them all. Returns the result map and the final progress count.
   */
  method QuoteHistoryMulti(req: Request, codes: seq<string>, tries: nat) returns (dfs: map<string, Table>, progress: nat)
    ensures (dfs, progress) == Aggregate(codes, SingleFetch(req), tries, |codes|)
  {
    var fetch := SingleFetch(req);
    dfs, progress := map[], 0;
    var i := 0;
    while i < |codes|
      invariant i <= |codes|
      invariant (dfs, progress) == Aggregate(codes, fetch, tries, i)
    {
      var outcome, _ := RunUnit(fetch, codes[i], i, tries);
      if outcome.Some? {
        dfs := dfs[codes[i] := outcome.value];
        progress := progress + 1;
      }
      i := i + 1;
    }
  }

  /**
   * Isolation: a unit's outcome depends on the service's answers to that
   * unit's own attempts only, whatever the other units receive.
   */
  lemma {:induction false} UnitIsolated(req: Request, other: Request, code: string, i: nat, tries: nat)
    requires other.columns == req.columns && other.quoteIdMode == req.quoteIdMode && other.resolve == req.resolve
    requires forall a :: req.respond(i, a) == other.respond(i, a)
    ensures UnitOutcome(SingleFetch(req), code, i, tries) == UnitOutcome(SingleFetch(other), code, i, tries)
  {
    forall a: nat ensures SingleFetch(req)(code, i, a) == SingleFetch(other)(code, i, a) {
      assert req.respond(i, a) == other.respond(i, a);
    }
    RetryAgrees(SingleFetch(req), SingleFetch(other), code, i, tries, 0);
  }

  /** Two fetches that agree on every attempt of a unit give it the same outcome. */
  lemma {:induction false} RetryAgrees(f: Fetch, g: Fetch, code: string, i: nat, tries: nat, k: nat)
    requires forall a: nat :: f(code, i, a) == g(code, i, a)
    ensures RetryFrom(f, code, i, tries, k) == RetryFrom(g, code, i, tries, k)
    decreases tries - k
  {
    if k < tries {
      RetryAgrees(f, g, code, i, tries, k + 1);
    }
  }

  /** With pairwise distinct codes the progress count equals the number of keys. */
  lemma {:induction false} DistinctProgress(codes: seq<string>, fetch: Fetch, tries: nat, n: nat)
    requires n <= |codes|
    requires forall a, b :: 0 <= a < b < |codes| ==> codes[a] != codes[b]
    ensures |Aggregate(codes, fetch, tries, n).0| == Aggregate(codes, fetch, tries, n).1
    decreases n
  {
    if n > 0 {
      DistinctProgress(codes, fetch, tries, n - 1);
      AggregateAt(codes, fetch, tries, n - 1, codes[n - 1]);
    }
  }

  /** When every attempt raises, the map is empty and no progress is reported. */
  lemma AllFail(codes: seq<string>, fetch: Fetch, tries: nat)
    requires forall i, k :: 0 <= i < |codes| && 0 <= k ==> fetch(codes[i], i, k).Failure?
    ensures Aggregate(codes, fetch, tries, |codes|) == (map[], 0)
  {
    var r := Aggregate(codes, fetch, tries, |codes|);
    forall i | 0 <= i < |codes| ensures UnitOutcome(fetch, codes[i], i, tries).None? {
      RetryFirstSuccess(fetch, codes[i], i, tries, 0);
    }
    assert SucceededUnits(codes, fetch, tries, |codes|) == {};
    forall c ensures c !in r.0 {
      AggregateAt(codes, fetch, tries, |codes|, c);
    }
    assert r.0 == map[];
  }

  /** When every unit succeeds, every code is a key. */
  lemma AllSucceed(codes: seq<string>, fetch: Fetch, tries: nat)
    requires forall i :: 0 <= i < |codes| ==> UnitOutcome(fetch, codes[i], i, tries).Some?
    ensures Aggregate(codes, fetch, tries, |codes|).0.Keys == set c | c in codes
  {
    var r := Aggregate(codes, fetch, tries, |codes|);
    forall c ensures c in r.0 <==> c in codes {
      AggregateKeys(codes, fetch, tries, c);
      if c in codes {
        var i :| 0 <= i < |codes| && codes[i] == c;
      }
    }
  }

  /**
   * The argument of `get_quote_history`: a `str` (routed first, although a
   * string is iterable too), any other value with `__iter__` (its items, as
   * `list(codes)` gives them), or anything else.
   */
  datatype CodesArg = SingleCode(code: string) | CodeIterable(codes: seq<string>) | NotIterable

  datatype History =
    | Single(table: Result<Table>)
    | Multi(tables: map<string, Table>, progress: nat)
    | TypeError

  /**
   * `get_quote_history`: a single code takes one unretried fetch (the
   * service's first answer to unit 0); an iterable goes to the multi call;
   * anything else raises `TypeError` before any request.
   */
  method GetQuoteHistory(arg: CodesArg, req: Request, tries: nat) returns (r: History)
    ensures arg.SingleCode? ==>
      r == Single(QuoteHistorySingle(arg.code, req.quoteIdMode, req.resolve, req.columns, req.respond(0, 0)))
    ensures arg.CodeIterable? ==>
      r.Multi? && (r.tables, r.progress) == Aggregate(arg.codes, SingleFetch(req), tries, |arg.codes|)
    ensures arg.NotIterable? ==> r == TypeError
  {
    match arg
    case SingleCode(code) =>
      r := Single(QuoteHistorySingle(code, req.quoteIdMode, req.resolve, req.columns, req.respond(0, 0)));
    case CodeIterable(codes) =>
      var tables, progress := QuoteHistoryMulti(req, codes, tries);
      r := Multi(tables, progress);
    case NotIterable =>
      r := TypeError;
  }
}
