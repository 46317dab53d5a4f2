/** The price catalog: matching models, conditional overrides and the cost estimate (internal/pricing/catalog.go). */
module Catalog {
  import opened Wrappers
  import opened Text
  import opened Generations

  type Prices = map<string, Rates>

  // Token buckets of one record (internal/normalize/normalize.go).

  function UncachedInput(row: Row): Option<int> {
    if row.input.None? then None
    else if !OpenAiStyle(row.source) then row.input
    else
      var cached := row.cacheRead.GetOr(0) + row.cacheCreation.GetOr(0);
      var u := row.input.value - cached;
      Some(if u < 0 then 0 else u)
  }

  function NonReasoningOutput(row: Row): Option<int> {
    if row.output.None? then None
    else if OpenAiStyle(row.source) && row.reasoning.Some? then
      var v := row.output.value - row.reasoning.value;
      Some(if v < 0 then 0 else v)
    else row.output
  }

  /**
   * Single records and SQL aggregates measure the same tokens. Where input includes cached tokens
   * and output includes reasoning, the billed buckets partition input plus output.
   */
  lemma BilledBucketsPartition(row: Row)
    requires row.input.Some? && row.output.Some?
    ensures UncachedInput(row) == Some(UncachedInputSql(row.source, row.input, row.cacheRead, row.cacheCreation))
    ensures NonReasoningOutput(row) == Some(OutputTokensSql(row.source, row.output, row.reasoning))
    ensures OpenAiStyle(row.source)
            && row.cacheRead.GetOr(0) + row.cacheCreation.GetOr(0) <= row.input.value
            && row.reasoning.GetOr(0) <= row.output.value ==>
              UncachedInput(row).value + row.cacheRead.GetOr(0) + row.cacheCreation.GetOr(0)
              + NonReasoningOutput(row).value + row.reasoning.GetOr(0) == row.input.value + row.output.value
  {
  }

  // Overrides.

  datatype PriceKey = PromptKey | CompletionKey | CacheReadKey | CacheWriteKey | ReasoningKey | RequestKey

  const PRICE_KEYS: set<PriceKey> := {PromptKey, CompletionKey, CacheReadKey, CacheWriteKey, ReasoningKey, RequestKey}

  function KeyName(k: PriceKey): string {
    match k
    case PromptKey => "prompt"
    case CompletionKey => "completion"
    case CacheReadKey => "input_cache_read"
    case CacheWriteKey => "input_cache_write"
    case ReasoningKey => "internal_reasoning"
    case RequestKey => "request"
  }

  function RateOf(r: Rates, k: PriceKey): real {
    match k
    case PromptKey => r.prompt
    case CompletionKey => r.completion
    case CacheReadKey => r.cacheRead
    case CacheWriteKey => r.cacheWrite
    case ReasoningKey => r.reasoning
    case RequestKey => r.request
  }

  /** The price an entry sets: only a string holding a non-negative number is one. */
  function PriceOf(value: Json): Option<real> {
    if value.JsonString? && value.price.Some? && value.price.value >= 0.0 then value.price else None
  }

  predicate IsCondition(key: string) {
    key == "min_prompt_tokens" || key == "utc_start" || key == "utc_end" || key == "utc_days"
  }

  function PromptTokens(row: Row): Option<int> {
    if UncachedInput(row).None? then None
    else Some(UncachedInput(row).value + row.cacheRead.GetOr(0) + row.cacheCreation.GetOr(0))
  }

  /** time.Weekday of a UTC timestamp; 1970-01-01 was a Thursday. */
  function Weekday(timestamp: nat): nat { (timestamp / DAY_MS + 4) % 7 }

  function Clock(timestamp: nat): nat {
    var minutes := timestamp % DAY_MS / 60000;
    minutes / 60 * 100 + minutes % 60
  }

  /** A JSON value read into an int; null leaves it zero. */
  function IntValue(value: Json): Option<int> {
    match value
    case JsonInt(n) => Some(n)
    case JsonNull => Some(0)
    case _ => None
  }

  predicate ValidClock(n: int) { 0 <= n < 2400 && n % 100 < 60 }

  predicate TimeMatches(o: Override, row: Row) {
    if "utc_start" !in o && "utc_end" !in o then true
    else if "utc_start" !in o || "utc_end" !in o then false
    else
      var start, end := IntValue(o["utc_start"]), IntValue(o["utc_end"]);
      if start.None? || end.None? || !ValidClock(start.value) || !ValidClock(end.value) then false
      else
        var clock := Clock(row.timestamp);
        if end.value > start.value then start.value <= clock < end.value else start.value <= clock || clock < end.value
  }

  /** overrideMatches: every condition holds, and every other value is a string. */
  predicate Matches(o: Override, row: Row) {
    && (forall key :: key in o && !IsCondition(key) ==> o[key].JsonString? || o[key].JsonNull?)
    && ("min_prompt_tokens" in o ==>
          var threshold := IntValue(o["min_prompt_tokens"]);
          && threshold.Some? && threshold.value >= 0
          && PromptTokens(row).Some? && PromptTokens(row).value > threshold.value)
    && ("utc_days" in o ==> o["utc_days"].JsonWeekdays? && Some(Weekday(row.timestamp)) in o["utc_days"].days)
    && TimeMatches(o, row)
  }

  /** The value of the last matching override that sets the key. */
  function LastSet(overrides: seq<Override>, row: Row, k: PriceKey): Option<Json> {
    if overrides == [] then None
    else
      var last := overrides[|overrides| - 1];
      if Matches(last, row) && KeyName(k) in last then Some(last[KeyName(k)])
      else LastSet(overrides[..|overrides| - 1], row, k)
  }

  /** Every price a matching override sets is readable; otherwise there is no estimate. */
  predicate Readable(overrides: seq<Override>, row: Row) {
    forall i, k :: 0 <= i < |overrides| && Matches(overrides[i], row) && KeyName(k) in overrides[i] ==>
      PriceOf(overrides[i][KeyName(k)]).Some?
  }

  /** The base rate, or that of the last matching override that sets it. */
  function Overridden(r: Rates, overrides: seq<Override>, row: Row, k: PriceKey): real {
    var last := LastSet(overrides, row, k);
    if last.None? || PriceOf(last.value).None? then RateOf(r, k) else PriceOf(last.value).value
  }

  /** Whether a rate still follows its default after the overrides. */
  predicate StillDefault(isDefault: bool, overrides: seq<Override>, row: Row, k: PriceKey) {
    isDefault && LastSet(overrides, row, k).None?
  }

  /** The rates forUsage returns: unset cache and reasoning rates follow the final prompt and completion rates. */
  function Effective(r: Rates, row: Row): Rates {
    var o := r.overrides;
    var prompt, completion := Overridden(r, o, row, PromptKey), Overridden(r, o, row, CompletionKey);
    var readDefault := StillDefault(r.cacheReadDefault, o, row, CacheReadKey);
    var writeDefault := StillDefault(r.cacheWriteDefault, o, row, CacheWriteKey);
    var reasoningDefault := StillDefault(r.reasoningDefault, o, row, ReasoningKey);
    Rates(prompt, completion,
          if readDefault then prompt else Overridden(r, o, row, CacheReadKey),
          if writeDefault then prompt else Overridden(r, o, row, CacheWriteKey),
          if reasoningDefault then completion else Overridden(r, o, row, ReasoningKey),
          Overridden(r, o, row, RequestKey),
          readDefault, writeDefault, reasoningDefault, o)
  }

  function WithRate(r: Rates, k: PriceKey, v: real): Rates {
    match k
    case PromptKey => r.(prompt := v)
    case CompletionKey => r.(completion := v)
    case CacheReadKey => r.(cacheRead := v, cacheReadDefault := false)
    case CacheWriteKey => r.(cacheWrite := v, cacheWriteDefault := false)
    case ReasoningKey => r.(reasoning := v, reasoningDefault := false)
    case RequestKey => r.(request := v)
  }

  function DefaultOf(r: Rates, k: PriceKey): bool {
    match k
    case CacheReadKey => r.cacheReadDefault
    case CacheWriteKey => r.cacheWriteDefault
    case ReasoningKey => r.reasoningDefault
    case _ => false
  }

  /** The running rates after some overrides, apart from the defaults filled in at the end. */
  ghost predicate Follows(cur: Rates, r: Rates, overrides: seq<Override>, row: Row) {
    && cur.overrides == r.overrides
    && (forall k :: RateOf(cur, k) == Overridden(r, overrides, row, k))
    && (forall k :: DefaultOf(cur, k) == StillDefault(DefaultOf(r, k), overrides, row, k))
  }

  ghost predicate AllReadable(o: Override) { forall k :: KeyName(k) in o ==> PriceOf(o[KeyName(k)]).Some? }

  /** One matching override's prices written over the running rates. */
  ghost predicate Wrote(next: Rates, cur: Rates, o: Override, k: PriceKey) {
    if KeyName(k) in o then Some(RateOf(next, k)) == PriceOf(o[KeyName(k)]) && !DefaultOf(next, k)
    else RateOf(next, k) == RateOf(cur, k) && DefaultOf(next, k) == DefaultOf(cur, k)
  }

  lemma WithRateWrites(r: Rates, k: PriceKey, v: real)
    ensures WithRate(r, k, v).overrides == r.overrides
    ensures RateOf(WithRate(r, k, v), k) == v && !DefaultOf(WithRate(r, k, v), k)
    ensures forall k' :: k' != k ==>
              RateOf(WithRate(r, k, v), k') == RateOf(r, k') && DefaultOf(WithRate(r, k, v), k') == DefaultOf(r, k')
  {
  }

  /** The inner loop of forUsage: visits the price fields in whatever order a map gives them. */
  method WritePrices(cur: Rates, o: Override) returns (next: Rates, ok: bool)
    ensures ok == AllReadable(o)
    ensures ok ==> next.overrides == cur.overrides && forall k :: Wrote(next, cur, o, k)
  {
    next := cur;
    var todo := PRICE_KEYS;
    while todo != {}
      invariant todo <= PRICE_KEYS && next.overrides == cur.overrides
      invariant forall k :: k in todo ==> RateOf(next, k) == RateOf(cur, k) && DefaultOf(next, k) == DefaultOf(cur, k)
      invariant forall k :: k !in todo ==> Wrote(next, cur, o, k)
    {
      var key :| key in todo;
      todo := todo - {key};
      if KeyName(key) in o {
        var price := PriceOf(o[KeyName(key)]);
        if price.None? {
          return next, false;
        }
        WithRateWrites(next, key, price.value);
        next := WithRate(next, key, price.value);
      }
    }
    forall k ensures Wrote(next, cur, o, k) && (KeyName(k) in o ==> PriceOf(o[KeyName(k)]).Some?) {
      assert k !in todo;
    }
    ok := true;
  }

  lemma PrefixStep(overrides: seq<Override>, i: nat, row: Row, k: PriceKey)
    requires i < |overrides|
    ensures LastSet(overrides[..i + 1], row, k)
            == if Matches(overrides[i], row) && KeyName(k) in overrides[i] then Some(overrides[i][KeyName(k)])
               else LastSet(overrides[..i], row, k)
  {
    assert overrides[..i + 1][..i] == overrides[..i];
  }

  lemma FollowsSkipped(cur: Rates, r: Rates, i: nat, row: Row)
    requires i < |r.overrides| && !Matches(r.overrides[i], row) && Follows(cur, r, r.overrides[..i], row)
    ensures Follows(cur, r, r.overrides[..i + 1], row)
  {
    forall k ensures LastSet(r.overrides[..i + 1], row, k) == LastSet(r.overrides[..i], row, k) {
      PrefixStep(r.overrides, i, row, k);
    }
  }

  lemma FollowsWritten(cur: Rates, next: Rates, r: Rates, i: nat, row: Row)
    requires i < |r.overrides| && Matches(r.overrides[i], row) && Follows(cur, r, r.overrides[..i], row)
    requires AllReadable(r.overrides[i]) && next.overrides == cur.overrides
    requires forall k :: Wrote(next, cur, r.overrides[i], k)
    ensures Follows(next, r, r.overrides[..i + 1], row)
  {
    forall k
      ensures RateOf(next, k) == Overridden(r, r.overrides[..i + 1], row, k)
      ensures DefaultOf(next, k) == StillDefault(DefaultOf(r, k), r.overrides[..i + 1], row, k)
    {
      PrefixStep(r.overrides, i, row, k);
      assert Wrote(next, cur, r.overrides[i], k);
    }
  }

  lemma FollowsToEffective(cur: Rates, r: Rates, row: Row)
    requires Follows(cur, r, r.overrides, row)
    ensures Effective(r, row)
            == cur.(cacheRead := if cur.cacheReadDefault then cur.prompt else cur.cacheRead,
                    cacheWrite := if cur.cacheWriteDefault then cur.prompt else cur.cacheWrite,
                    reasoning := if cur.reasoningDefault then cur.completion else cur.reasoning)
  {
    assert forall k :: RateOf(cur, k) == Overridden(r, r.overrides, row, k);
    assert DefaultOf(cur, CacheReadKey) == StillDefault(DefaultOf(r, CacheReadKey), r.overrides, row, CacheReadKey);
    assert DefaultOf(cur, CacheWriteKey) == StillDefault(DefaultOf(r, CacheWriteKey), r.overrides, row, CacheWriteKey);
    assert DefaultOf(cur, ReasoningKey) == StillDefault(DefaultOf(r, ReasoningKey), r.overrides, row, ReasoningKey);
    assert RateOf(cur, PromptKey) == cur.prompt && RateOf(cur, CompletionKey) == cur.completion;
    assert RateOf(cur, CacheReadKey) == cur.cacheRead && RateOf(cur, CacheWriteKey) == cur.cacheWrite;
    assert RateOf(cur, ReasoningKey) == cur.reasoning && RateOf(cur, RequestKey) == cur.request;
  }

  /**
   * forUsage: nested loops that overwrite the rates. The result does not depend on the order the
   * inner loop visits the price fields in.
   */
  method ForUsage(r: Rates, row: Row) returns (out: Rates, ok: bool)
    ensures ok == Readable(r.overrides, row)
    ensures ok ==> out == Effective(r, row)
  {
    out := r;
    for i := 0 to |r.overrides|
      invariant forall j :: 0 <= j < i && Matches(r.overrides[j], row) ==> AllReadable(r.overrides[j])
      invariant Follows(out, r, r.overrides[..i], row)
    {
      if !Matches(r.overrides[i], row) {
        FollowsSkipped(out, r, i, row);
        continue;
      }
      var next, readable := WritePrices(out, r.overrides[i]);
      if !readable {
        return next, false;
      }
      FollowsWritten(out, next, r, i, row);
      out := next;
    }
    assert r.overrides[..|r.overrides|] == r.overrides;
    FollowsToEffective(out, r, row);
    if out.cacheReadDefault { out := out.(cacheRead := out.prompt); }
    if out.cacheWriteDefault { out := out.(cacheWrite := out.prompt); }
    if out.reasoningDefault { out := out.(reasoning := out.completion); }
    ok := true;
  }

  // The estimate.

  function Cost(tokens: int, price: real): real { (tokens as real) * price }

  function Billed(row: Row, r: Rates): real {
    Cost(UncachedInput(row).GetOr(0), r.prompt) + Cost(row.cacheRead.GetOr(0), r.cacheRead)
    + Cost(row.cacheCreation.GetOr(0), r.cacheWrite) + Cost(NonReasoningOutput(row).GetOr(0), r.completion)
    + Cost(row.reasoning.GetOr(0), r.reasoning) + r.request
  }

  /** estimate, with exact arithmetic. */
  function Estimate(row: Row, r: Rates): Option<real> {
    if row.input.None? || row.output.None? || !Readable(r.overrides, row) then None
    else
      var n := Billed(row, Effective(r, row));
      if n < 0.0 || n > 1000000.0 then None else Some(n)
  }

  /** The part of a row an estimate under saved rates reads. */
  predicate SameUsage(a: Row, b: Row) {
    && a.source == b.source && a.input == b.input && a.output == b.output
    && a.cacheRead == b.cacheRead && a.cacheCreation == b.cacheCreation && a.reasoning == b.reasoning
  }

  lemma {:induction false} LastSetReads(overrides: seq<Override>, a: Row, b: Row, k: PriceKey)
    requires SameUsage(a, b) && (a.timestamp == b.timestamp || overrides == [])
    ensures LastSet(overrides, a, k) == LastSet(overrides, b, k)
  {
    if overrides == [] {
    } else {
      LastSetReads(overrides[..|overrides| - 1], a, b, k);
    }
  }

  lemma MatchesReads(o: Override, a: Row, b: Row)
    requires SameUsage(a, b) && a.timestamp == b.timestamp
    ensures Matches(o, a) == Matches(o, b)
  {
  }

  lemma EffectiveReads(a: Row, b: Row, r: Rates)
    requires SameUsage(a, b) && (a.timestamp == b.timestamp || r.overrides == [])
    ensures Effective(r, a) == Effective(r, b)
  {
    forall k ensures LastSet(r.overrides, a, k) == LastSet(r.overrides, b, k) {
      LastSetReads(r.overrides, a, b, k);
    }
  }

  /** An estimate depends on the usage and the timestamp only, and without overrides not on the timestamp. */
  lemma EstimateReads(a: Row, b: Row, r: Rates)
    requires SameUsage(a, b) && (a.timestamp == b.timestamp || r.overrides == [])
    ensures Estimate(a, r) == Estimate(b, r)
  {
    EffectiveReads(a, b, r);
    forall i | 0 <= i < |r.overrides| ensures Matches(r.overrides[i], a) == Matches(r.overrides[i], b) {
      MatchesReads(r.overrides[i], a, b);
    }
    assert Readable(r.overrides, a) == Readable(r.overrides, b);
    BilledReads(a, b, Effective(r, a));
    hide Matches, Effective, Billed;
  }

  lemma BilledReads(a: Row, b: Row, r: Rates)
    requires SameUsage(a, b)
    ensures Billed(a, r) == Billed(b, r)
  {
    assert UncachedInput(a) == UncachedInput(b) && NonReasoningOutput(a) == NonReasoningOutput(b);
  }

  // What overrides mean.

  /** The clock shows hours and minutes of the day, and the weekdays go round from a Thursday. */
  lemma ClockReads(day: nat, hour: nat, minute: nat, rest: nat)
    requires hour < 24 && minute < 60 && rest < 60000
    ensures var t := day * DAY_MS + hour * HOUR_MS + minute * 60000 + rest;
            && Clock(t) == hour * 100 + minute && ValidClock(Clock(t))
            && Weekday(t) == (if day == 0 then 4 else (Weekday(t - DAY_MS) + 1) % 7)
  {
    var t := day * DAY_MS + hour * HOUR_MS + minute * 60000 + rest;
    assert t / DAY_MS == day && t % DAY_MS / 60000 == hour * 60 + minute;
    if day > 0 { assert (t - DAY_MS) / DAY_MS == day - 1; }
  }

  lemma ValidClockIff(hour: int, minute: nat)
    requires minute < 100
    ensures ValidClock(hour * 100 + minute) <==> 0 <= hour < 24 && minute < 60
  {
  }

  /** Without a condition an override matches every row, unless it holds something no price can be. */
  lemma PlainOverride(o: Override, row: Row)
    requires forall key :: key in o ==> !IsCondition(key)
    ensures Matches(o, row) <==> forall key :: key in o ==> o[key].JsonString? || o[key].JsonNull?
  {
  }

  /**
   * A threshold restricts an override to the rows with more prompt tokens, cached ones included once:
   * they add to the input, or where it includes them are at most the input.
   */
  lemma ThresholdRestricts(o: Override, row: Row, v: Json)
    requires "min_prompt_tokens" !in o
    ensures var cached := row.cacheRead.GetOr(0) + row.cacheCreation.GetOr(0);
            Matches(o["min_prompt_tokens" := v], row)
            <==> Matches(o, row) && row.input.Some? && (v.JsonInt? || v.JsonNull?)
                 && var n := if v.JsonInt? then v.n else 0;
                    n >= 0 && if OpenAiStyle(row.source) then n < row.input.value || n < cached
                              else n < row.input.value + cached
  {
    SameConditions(o, "min_prompt_tokens", v, row);
    hide TimeMatches, IsCondition;
  }

  /** Days restrict an override to the rows of those weekdays. */
  lemma DaysRestrict(o: Override, row: Row, v: Json)
    requires "utc_days" !in o
    ensures Matches(o["utc_days" := v], row)
            <==> Matches(o, row) && v.JsonWeekdays? && Some(Weekday(row.timestamp)) in v.days
  {
    SameConditions(o, "utc_days", v, row);
    hide TimeMatches, IsCondition, Weekday;
  }

  /**
   * A start and an end restrict an override to the rows of that time of day: from the start on and
   * before the end, or for an end not after the start, at any time but from the end on and before
   * the start. One without the other matches no row.
   */
  lemma WindowRestricts(o: Override, row: Row, start: int, end: int)
    requires "utc_start" !in o && "utc_end" !in o
    ensures var clock := Clock(row.timestamp);
            Matches(o["utc_start" := JsonInt(start)]["utc_end" := JsonInt(end)], row)
            <==> Matches(o, row) && ValidClock(start) && ValidClock(end)
                 && if start < end then start <= clock < end else !(end <= clock < start)
    ensures !Matches(o["utc_start" := JsonInt(start)], row) && !Matches(o["utc_end" := JsonInt(end)], row)
  {
    hide Clock, Weekday, ValidClock, PromptTokens;
    var started := o["utc_start" := JsonInt(start)];
    var both := started["utc_end" := JsonInt(end)];
    forall key | key in both && key != "utc_start" && key != "utc_end" ensures key in o && both[key] == o[key] {}
  }

  lemma SameConditions(o: Override, key: string, v: Json, row: Row)
    requires key !in o && (key == "min_prompt_tokens" || key == "utc_days")
    ensures TimeMatches(o[key := v], row) == TimeMatches(o, row)
    ensures (forall k :: k in o[key := v] && !IsCondition(k) ==> o[key := v][k].JsonString? || o[key := v][k].JsonNull?)
            <==> (forall k :: k in o && !IsCondition(k) ==> o[k].JsonString? || o[k].JsonNull?)
  {
    var more := o[key := v];
    forall k | k in more && !IsCondition(k) ensures k in o && more[k] == o[k] {}
    forall k | k in o ensures k in more && more[k] == o[k] {}
    hide Clock, IntValue, ValidClock;
  }

  /** The price an override sets under a name, or else the given one. */
  function PriceIn(o: Override, name: string, otherwise: real): real {
    if name in o && o[name].JsonString? then o[name].price.GetOr(otherwise) else otherwise
  }

  /**
   * One matching override sets the rates it names; a cache or reasoning rate that neither it nor the
   * entry names follows the prompt or completion rate it leaves. It is unreadable exactly when one
   * of these names holds no price.
   */
  lemma OverrideSets(r: Rates, o: Override, row: Row)
    requires r.overrides == [o] && Matches(o, row)
    ensures Readable(r.overrides, row)
            <==> forall name :: name in o && name in {"prompt", "completion", "input_cache_read", "input_cache_write",
                                                      "internal_reasoning", "request"} ==>
                   o[name].JsonString? && o[name].price.Some? && o[name].price.value >= 0.0
    ensures Readable(r.overrides, row) ==>
              var e := Effective(r, row);
              && e.prompt == PriceIn(o, "prompt", r.prompt)
              && e.completion == PriceIn(o, "completion", r.completion)
              && e.cacheRead == PriceIn(o, "input_cache_read", if r.cacheReadDefault then e.prompt else r.cacheRead)
              && e.cacheWrite == PriceIn(o, "input_cache_write", if r.cacheWriteDefault then e.prompt else r.cacheWrite)
              && e.reasoning
                 == PriceIn(o, "internal_reasoning", if r.reasoningDefault then e.completion else r.reasoning)
              && e.request == PriceIn(o, "request", r.request)
  {
    assert r.overrides[..0] == [];
    forall k
      ensures LastSet(r.overrides, row, k) == if KeyName(k) in o then Some(o[KeyName(k)]) else None
      ensures Readable(r.overrides, row) && KeyName(k) in o ==>
                Overridden(r, r.overrides, row, k) == PriceOf(o[KeyName(k)]).value
    {
      assert r.overrides[0] == o;
    }
    ReadableNames(r.overrides, o, row);
    assert KeyName(PromptKey) == "prompt" && KeyName(CompletionKey) == "completion" && KeyName(RequestKey) == "request";
    hide Matches, Readable, LastSet;
  }

  lemma ReadableNames(overrides: seq<Override>, o: Override, row: Row)
    requires overrides == [o] && Matches(o, row)
    ensures Readable(overrides, row)
            <==> forall name :: name in o && name in {"prompt", "completion", "input_cache_read", "input_cache_write",
                                                      "internal_reasoning", "request"} ==>
                   o[name].JsonString? && o[name].price.Some? && o[name].price.value >= 0.0
  {
    assert overrides[0] == o;
    assert Readable(overrides, row) <==> forall k :: KeyName(k) in o ==> PriceOf(o[KeyName(k)]).Some?;
    assert KeyName(PromptKey) == "prompt" && KeyName(CompletionKey) == "completion" && KeyName(RequestKey) == "request";
    assert KeyName(CacheReadKey) == "input_cache_read" && KeyName(CacheWriteKey) == "input_cache_write";
    assert KeyName(ReasoningKey) == "internal_reasoning";
    hide Matches, Readable;
  }

  /** A further override comes after the others: where it matches, the prices it sets win. */
  lemma LaterOverrideWins(overrides: seq<Override>, o: Override, row: Row, k: PriceKey)
    ensures LastSet(overrides + [o], row, k)
            == if Matches(o, row) && KeyName(k) in o then Some(o[KeyName(k)]) else LastSet(overrides, row, k)
  {
    assert (overrides + [o])[..|overrides|] == overrides;
  }

  // What an estimate charges.

  datatype Bucket = InputTokens | CacheReadTokens | CacheCreationTokens | OutputTokens | ReasoningTokens

  /** The row with one more token reported in a bucket. */
  function OneMore(row: Row, b: Bucket): Row {
    match b
    case InputTokens => row.(input := Some(row.input.GetOr(0) + 1))
    case CacheReadTokens => row.(cacheRead := Some(row.cacheRead.GetOr(0) + 1))
    case CacheCreationTokens => row.(cacheCreation := Some(row.cacheCreation.GetOr(0) + 1))
    case OutputTokens => row.(output := Some(row.output.GetOr(0) + 1))
    case ReasoningTokens => row.(reasoning := Some(row.reasoning.GetOr(0) + 1))
  }

  /** Rates without overrides are the same for every row; what the entry left out follows prompt and completion. */
  lemma FlatRates(r: Rates, row: Row)
    requires r.overrides == []
    ensures Readable(r.overrides, row)
    ensures Effective(r, row) == r.(cacheRead := if r.cacheReadDefault then r.prompt else r.cacheRead,
                                    cacheWrite := if r.cacheWriteDefault then r.prompt else r.cacheWrite,
                                    reasoning := if r.reasoningDefault then r.completion else r.reasoning)
  {
    assert forall k :: LastSet(r.overrides, row, k) == None;
  }

  /** An estimate under overrides is the one under the plain rates they select for the row. */
  lemma EstimateIsFlat(r: Rates, row: Row)
    requires Readable(r.overrides, row)
    ensures Estimate(row, r) == Estimate(row, Effective(r, row).(overrides := []))
  {
    FlatRates(Effective(r, row).(overrides := []), row);
    hide Matches, LastSet, Overridden;
  }

  /** A call without tokens costs the request price. */
  lemma RequestPrice(r: Rates, row: Row)
    requires row.input == Some(0) && row.output == Some(0) && Readable(r.overrides, row)
    requires row.cacheRead.GetOr(0) == 0 && row.cacheCreation.GetOr(0) == 0 && row.reasoning.GetOr(0) == 0
    ensures var price := Effective(r, row).request;
            Estimate(row, r) == if 0.0 <= price <= 1000000.0 then Some(price) else None
  {
    hide Effective;
  }

  /**
   * The price of one more token in a bucket. A cached token costs its cache rate, and where input
   * includes the cached ones it leaves one token less at the prompt rate, as long as there is one;
   * likewise a reasoning token and the output.
   */
  function TokenPrice(row: Row, e: Rates, b: Bucket): real
    requires row.input.Some? && row.output.Some?
  {
    var inclusive := OpenAiStyle(row.source);
    var cached, reasoned := row.cacheRead.GetOr(0) + row.cacheCreation.GetOr(0), row.reasoning.GetOr(0);
    match b
    case InputTokens => if inclusive && row.input.value < cached then 0.0 else e.prompt
    case CacheReadTokens => e.cacheRead - if inclusive && cached < row.input.value then e.prompt else 0.0
    case CacheCreationTokens => e.cacheWrite - if inclusive && cached < row.input.value then e.prompt else 0.0
    case OutputTokens => if inclusive && row.output.value < reasoned then 0.0 else e.completion
    case ReasoningTokens => e.reasoning - if inclusive && reasoned < row.output.value then e.completion else 0.0
  }

  /** One more token raises an estimate by its price, at the rates in force; beyond a million there is none. */
  lemma MarginalPrice(r: Rates, row: Row, b: Bucket)
    requires Estimate(row, r).Some? && Readable(r.overrides, OneMore(row, b))
    requires Effective(r, OneMore(row, b)) == Effective(r, row)
    ensures var price := Estimate(row, r).value + TokenPrice(row, Effective(r, row), b);
            Estimate(OneMore(row, b), r) == if 0.0 <= price <= 1000000.0 then Some(price) else None
  {
    BilledMore(row, Effective(r, row), b);
    hide Effective, Billed, TokenPrice, Matches;
  }

  lemma BilledMore(row: Row, e: Rates, b: Bucket)
    requires row.input.Some? && row.output.Some?
    ensures Billed(OneMore(row, b), e) == Billed(row, e) + TokenPrice(row, e, b)
  {
    var more := OneMore(row, b);
    CostMore(UncachedInput(more).value, UncachedInput(row).value, e.prompt);
    CostMore(NonReasoningOutput(more).value, NonReasoningOutput(row).value, e.completion);
    CostMore(more.cacheRead.GetOr(0), row.cacheRead.GetOr(0), e.cacheRead);
    CostMore(more.cacheCreation.GetOr(0), row.cacheCreation.GetOr(0), e.cacheWrite);
    CostMore(more.reasoning.GetOr(0), row.reasoning.GetOr(0), e.reasoning);
    hide Cost;
  }

  lemma CostMore(more: int, n: int, price: real)
    ensures more == n ==> Cost(more, price) == Cost(n, price)
    ensures more == n + 1 ==> Cost(more, price) == Cost(n, price) + price
    ensures more == n - 1 ==> Cost(more, price) == Cost(n, price) - price
  {
  }

  // Matching a model.

  const ALIASES: map<string, string> := map[
    "qwen3.8-max" := "qwen/qwen3.8-max-0902",
    "qwen/qwen3.8-max" := "qwen/qwen3.8-max-0902",
    "claude-haiku-4-5" := "anthropic/claude-haiku-4.5",
    "claude-haiku-4-5-20251001" := "anthropic/claude-haiku-4.5",
    "claude-sonnet-4-5" := "anthropic/claude-sonnet-4.5",
    "claude-sonnet-4-5-20250929" := "anthropic/claude-sonnet-4.5",
    "claude-3-5-sonnet" := "anthropic/claude-3.5-sonnet",
    "claude-3-5-haiku" := "anthropic/claude-3.5-haiku",
    "claude-3-7-sonnet" := "anthropic/claude-3.7-sonnet",
    "claude-sonnet-4" := "anthropic/claude-sonnet-4",
    "claude-opus-4" := "anthropic/claude-opus-4"]

  /** The part of an ID after its first slash, if it has one. */
  function Bare(id: string): Option<string> {
    if id == [] then None else if id[0] == '/' then Some(id[1..]) else Bare(id[1..])
  }

  /** The bare name is what follows the creator and the first slash. */
  lemma {:induction false} BareSplits(creator: string, model: string)
    requires '/' !in creator
    ensures Bare(creator + "/" + model) == Some(model) && Bare(creator) == None
  {
    var id := creator + "/" + model;
    if creator == "" {
      assert id == ['/'] + model;
    } else {
      BareSplits(creator[1..], model);
      assert id[1..] == creator[1..] + "/" + model;
    }
  }

  /** The catalog IDs a bare model may stand for. */
  function Candidates(c: Prices, model: string): set<string> { set id | id in c && Bare(id) == Some(model) }

  /** match: the model itself, its alias, or the only catalog entry it is the bare name of. */
  function MatchId(c: Prices, aliases: map<string, string>, name: string): (id: Option<string>)
    ensures id.Some? ==> id.value in c
  {
    var model := TrimSpace(name);
    if model in c then Some(model)
    else if model in aliases && aliases[model] in c then Some(aliases[model])
    else if '/' in model then None
    else Only(Candidates(c, model))
  }

  /** The element of a singleton. */
  function Only(s: set<string>): (r: Option<string>)
    ensures r.Some? <==> |s| == 1
    ensures r.Some? ==> s == {r.value}
  {
    if |s| == 1 then
      var x :| x in s;
      SingletonUnique(s, x);
      Some(x)
    else None
  }

  lemma SingletonUnique(s: set<string>, x: string)
    requires |s| == 1 && x in s
    ensures s == {x}
  {
    assert |s - {x}| == 0;
  }

  /** The candidates among the entries visited so far. */
  ghost function Visited(c: Prices, todo: set<string>, model: string): set<string> {
    set id | id in c && id !in todo && Bare(id) == Some(model)
  }

  /** match as the code runs it: one pass over the catalog in map order, giving up at the second candidate. */
  method Match(c: Prices, aliases: map<string, string>, name: string) returns (id: string, rates: Option<Rates>)
    ensures rates.Some? <==> MatchId(c, aliases, name).Some?
    ensures rates.Some? ==> MatchId(c, aliases, name) == Some(id) && rates == Some(c[id])
  {
    hide Visited, Candidates;
    var model := TrimSpace(name);
    if model in c { return model, Some(c[model]); }
    if model in aliases && aliases[model] in c { return aliases[model], Some(c[aliases[model]]); }
    if '/' in model { return "", None; }
    id, rates := "", None;
    var todo := c.Keys;
    VisitAll(c, model);
    while todo != {}
      invariant todo <= c.Keys
      invariant Visited(c, todo, model) == if id == "" then {} else {id}
      invariant if id == "" then rates == None else id in c && rates == Some(c[id])
    {
      var candidate :| candidate in todo;
      VisitCandidate(c, todo, model, candidate);
      if Bare(candidate) == Some(model) {
        if id != "" {
          SecondCandidate(c, todo, model, id, candidate);
          return "", None;
        }
        id, rates := candidate, Some(c[candidate]);
      }
      todo := todo - {candidate};
    }
  }

  lemma VisitAll(c: Prices, model: string)
    ensures Visited(c, c.Keys, model) == {} && Visited(c, {}, model) == Candidates(c, model)
  {
  }

  lemma SecondCandidate(c: Prices, todo: set<string>, model: string, id: string, other: string)
    requires Visited(c, todo, model) == {id} && other in todo && other in c && Bare(other) == Some(model)
    ensures Only(Candidates(c, model)) == None
  {
    assert id in Visited(c, todo, model);
    hide Bare;
    SubsetSize({id, other}, Candidates(c, model));
  }

  lemma VisitCandidate(c: Prices, todo: set<string>, model: string, candidate: string)
    requires candidate in todo && candidate in c
    ensures Visited(c, todo - {candidate}, model)
            == Visited(c, todo, model) + (if Bare(candidate) == Some(model) then {candidate} else {})
  {
    hide Bare;
  }

  // Free models.

  /** strings.ToLower on ASCII letters: no other letter has a lower case form among those of "free". */
  function ToLower(s: string): string {
    if s == "" then "" else [if 'A' <= s[0] <= 'Z' then s[0] - 'A' + 'a' else s[0]] + ToLower(s[1..])
  }

  predicate FreeModel(model: string) {
    var m := ToLower(TrimSpace(model));
    |m| >= 4 && m[|m| - 4..] == "free"
  }

  lemma {:induction false} ToLowerAt(s: string, i: nat)
    requires i < |s|
    ensures |ToLower(s)| == |s|
    ensures ToLower(s)[i] == if 'A' <= s[i] <= 'Z' then s[i] - 'A' + 'a' else s[i]
  {
    if |s| == 1 {
    } else {
      ToLowerAt(s[1..], if i == 0 then 0 else i - 1);
    }
  }

  /** A model is free exactly when its name, apart from blanks around it, ends with "free" in any case. */
  lemma FreeModelIff(model: string)
    ensures var t := TrimSpace(model);
            FreeModel(model) <==> |t| >= 4 && t[|t| - 4] in {'f', 'F'} && t[|t| - 3] in {'r', 'R'}
                                  && t[|t| - 2] in {'e', 'E'} && t[|t| - 1] in {'e', 'E'}
  {
    var t := TrimSpace(model);
    if t != "" {
      ToLowerAt(t, 0);
      forall i: nat | i < |t| { ToLowerAt(t, i); }
    }
    if |t| >= 4 {
      var end := ToLower(t)[|t| - 4..];
      assert end == "free" <==> end[0] == 'f' && end[1] == 'r' && end[2] == 'e' && end[3] == 'e';
    }
    hide ToLower, TrimSpace;
  }
}
