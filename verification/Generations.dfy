/** The generations table, the normalized records that feed it, and the canonical token measures. */
module Generations {
  import opened Wrappers
  import opened Text

  const DAY_MS: int := 86400000
  const HOUR_MS: int := 3600000

  const COPILOT := "copilot"
  const CODEX := "codex"
  const XTAB_PROVIDER := "XtabProvider"
  const TITLE := "title"
  const PROGRESS_MESSAGES := "progressMessages"

  type Id = string

  /** One raw JSON value of a price override. */
  datatype Json =
    | JsonNull
    | JsonString(price: Option<real>)        // a string; None when it is not a finite decimal
    | JsonInt(n: int)
    | JsonWeekdays(days: seq<Option<nat>>)   // a list of strings, each as the weekday it names (Sunday is 0)
    | JsonOther

  type Override = map<string, Json>

  /** The prices of one catalog entry, per token (internal/pricing/catalog.go). */
  datatype Rates = Rates(
    prompt: real, completion: real, cacheRead: real, cacheWrite: real, reasoning: real, request: real,
    cacheReadDefault: bool, cacheWriteDefault: bool, reasoningDefault: bool,
    overrides: seq<Override>)

  datatype CostSource = Unknown | Harness | OpenRouter | Manual | Free

  /**
   * One stored model call. Token counts are never negative: the attribute readers take a negative
   * one for missing or refuse the record. Saved rates stand for the pricing snapshot the row refers to.
   */
  datatype Row = Row(
    timestamp: nat, source: string, serviceName: Option<string>,
    provider: Option<string>, model: Option<string>,
    input: Option<nat>, output: Option<nat>, cacheRead: Option<nat>, cacheCreation: Option<nat>, reasoning: Option<nat>,
    cost: Option<real>, conversation: Option<string>, duration: Option<int>, agent: Option<string>,
    gitRepo: Option<string>, gitBranch: Option<string>, effort: Option<string>, token: Option<int>,
    harness: bool, costSource: CostSource, pending: bool, revision: nat,
    priceModel: Option<string>, priceFetched: Option<int>, rates: Option<Rates>)

  type Table = map<Id, Row>

  /** One normalized telemetry record: text and token IDs use "" and 0 for "not reported". */
  datatype Record = Record(
    id: Id, timestamp: nat, source: string, serviceName: string, provider: string, model: string,
    input: Option<nat>, output: Option<nat>, cacheRead: Option<nat>, cacheCreation: Option<nat>, reasoning: Option<nat>,
    cost: Option<real>, conversation: string, durationNs: int, agent: string,
    gitRepo: string, gitBranch: string, effort: string, token: int)

  function NullableString(s: string): Option<string> { if s == "" then None else Some(s) }

  function NullableId(id: int): Option<int> { if id == 0 then None else Some(id) }

  function NullableDuration(ns: int): Option<int> {
    if ns == 0 then None else Some(if ns >= 0 then ns / 1000000 else -((-ns) / 1000000))
  }

  /** Sources that report input including cached tokens and output including reasoning. */
  predicate OpenAiStyle(source: string): (inclusive: bool)
    ensures inclusive <==> source in {"copilot", "codex"}
  {
    source == COPILOT || source == CODEX
  }

  /** uncachedInputSQL. */
  function UncachedInputSql(source: string, input: Option<nat>, cacheRead: Option<nat>,
                            cacheCreation: Option<nat>): int {
    if OpenAiStyle(source) then Max(input.GetOr(0) - cacheRead.GetOr(0) - cacheCreation.GetOr(0), 0) else input.GetOr(0)
  }

  /** outputTokensSQL. */
  function OutputTokensSql(source: string, output: Option<nat>, reasoning: Option<nat>): int {
    if OpenAiStyle(source) then Max(output.GetOr(0) - reasoning.GetOr(0), 0) else output.GetOr(0)
  }

  /** A Copilot agent without a session of its own. */
  predicate SessionlessAgent(source: string, agent: Option<string>) {
    source == COPILOT && (agent == Some(XTAB_PROVIDER) || agent == Some(TITLE) || agent == Some(PROGRESS_MESSAGES))
  }

  /** timestamp / 86400000 * 86400000. */
  function DayOf(timestamp: nat): nat { timestamp / DAY_MS * DAY_MS }

  const OTHER_PREFIX := "other:"
  const AUTOCOMPLETE_PREFIX := "autocomplete:"
  const TITLE_PROGRESS_PREFIX := "titleprogress:"

  /** A text that one of the per-day group prefixes starts (the GLOB patterns of the span guard). */
  predicate MimicsDayKey(key: string) {
    HasPrefix(key, OTHER_PREFIX) || HasPrefix(key, AUTOCOMPLETE_PREFIX) || HasPrefix(key, TITLE_PROGRESS_PREFIX)
  }

  /** conversationKeySQL. */
  function ConversationKey(row: Row): string {
    if row.source == COPILOT && row.agent == Some(XTAB_PROVIDER) then
      AUTOCOMPLETE_PREFIX + Decimal(DayOf(row.timestamp))
    else if row.source == COPILOT && (row.agent == Some(TITLE) || row.agent == Some(PROGRESS_MESSAGES)) then
      TITLE_PROGRESS_PREFIX + Decimal(DayOf(row.timestamp))
    else if row.conversation.None? then OTHER_PREFIX + Decimal(DayOf(row.timestamp))
    else row.conversation.value
  }

  /** The columns the fact expressions read (factInputColumns), which the update trigger compares. */
  datatype Inputs = Inputs(
    timestamp: nat, source: string, provider: Option<string>, model: Option<string>, token: Option<int>,
    agent: Option<string>, conversation: Option<string>,
    input: Option<nat>, output: Option<nat>, cacheRead: Option<nat>, cacheCreation: Option<nat>,
    reasoning: Option<nat>, cost: Option<real>, costSource: CostSource)

  function FactInputs(row: Row): Inputs {
    Inputs(row.timestamp, row.source, row.provider, row.model, row.token, row.agent, row.conversation,
           row.input, row.output, row.cacheRead, row.cacheCreation, row.reasoning, row.cost, row.costSource)
  }
}
