/**
 * Record identities (internal/normalize/id.go): the text that is hashed into an ID. The hash is
 * taken as injective, so the text stands for the ID. Text is a sequence of bytes.
 */
module Identity {
  import opened Wrappers
  import opened Text

  /** A span's identity, or an error when it has no trace or span ID. */
  function SpanKey(source: string, trace: string, span: string): Result<string> {
    if trace == "" || span == "" then Err("empty trace/span ID") else Ok(source + "|" + trace + "|" + span)
  }

  function Lengthed(part: string): string { Decimal(|part|) + ":" + part }

  function TokenText(token: Option<int>): string {
    if token.None? then "n" else "v" + FormatInt(token.value)
  }

  function TokenFields(tokens: seq<Option<int>>): string {
    if tokens == [] then "" else TokenFields(tokens[..|tokens| - 1]) + "|" + TokenText(tokens[|tokens| - 1])
  }

  /** Length-prefixed fields, one after the other. */
  function Fields(parts: seq<string>): string {
    if parts == [] then "" else Lengthed(parts[0]) + Fields(parts[1..])
  }

  /** A log record's identity: four length-prefixed fields, then the tokens. */
  function LogKey(source: string, conversation: string, timestamp: string, model: string,
                  tokens: seq<Option<int>>): string {
    Fields([source, conversation, timestamp, model]) + TokenFields(tokens)
  }

  /** DedupLogID, up to the hash. The timestamp is its RFC 3339 text, and absent when it is the zero time. */
  method DedupLogId(source: string, conversation: string, timestamp: Option<string>, model: string,
                    tokens: seq<Option<int>>)
    returns (id: Result<string>)
    ensures id.Err? <==> source == "" || conversation == "" || timestamp.None? || model == ""
    ensures id.Ok? ==> id.value == LogKey(source, conversation, timestamp.value, model, tokens)
  {
    if source == "" || conversation == "" || timestamp.None? || model == "" {
      return Err("missing log identity");
    }
    var parts := [source, conversation, timestamp.value, model];
    var text := "";
    for i := 0 to |parts|
      invariant text + Fields(parts[i..]) == Fields(parts)
    {
      FieldsOne(text, parts, i);
      text := text + Decimal(|parts[i]|);
      text := text + ":";
      text := text + parts[i];
    }
    assert parts[|parts|..] == [];
    for i := 0 to |tokens|
      invariant text == Fields(parts) + TokenFields(tokens[..i])
    {
      TokenFieldsOne(Fields(parts), tokens, i);
      text := text + "|";
      if tokens[i].None? {
        text := text + "n";
        continue;
      }
      ghost var was := text;
      text := text + "v";
      text := text + FormatInt(tokens[i].value);
      assert text == was + TokenText(tokens[i]);
    }
    assert tokens[..|tokens|] == tokens;
    return Ok(text);
  }

  lemma FieldsOne(text: string, parts: seq<string>, i: nat)
    requires i < |parts|
    ensures text + Decimal(|parts[i]|) + ":" + parts[i] + Fields(parts[i + 1..]) == text + Fields(parts[i..])
  {
    assert parts[i..][1..] == parts[i + 1..];
  }

  lemma TokenFieldsOne(fields: string, tokens: seq<Option<int>>, i: nat)
    requires i < |tokens|
    ensures fields + TokenFields(tokens[..i + 1]) == fields + TokenFields(tokens[..i]) + "|" + TokenText(tokens[i])
  {
    hide TokenText;
    assert tokens[..i + 1][..i] == tokens[..i];
  }

  // Log identities.

  /** A length-prefixed field can be read back, whatever follows it and whatever it contains. */
  lemma LengthedPrefix(a: string, b: string, rest: string, other: string)
    requires Lengthed(a) + rest == Lengthed(b) + other
    ensures a == b && rest == other
  {
    assert Lengthed(a) + rest == Decimal(|a|) + ":" + (a + rest);
    assert Lengthed(b) + other == Decimal(|b|) + ":" + (b + other);
    SplitAtFirst(Decimal(|a|), Decimal(|b|), ':', a + rest, b + other);
    DecimalInjective(|a|, |b|);
    assert a == (a + rest)[..|a|] && b == (b + other)[..|b|];
    assert rest == (a + rest)[|a|..] && other == (b + other)[|b|..];
  }

  lemma {:induction false} FieldsPrefix(a: seq<string>, b: seq<string>, rest: string, other: string)
    requires |a| == |b| && Fields(a) + rest == Fields(b) + other
    ensures a == b && rest == other
  {
    if a != [] {
      assert Fields(a) + rest == Lengthed(a[0]) + (Fields(a[1..]) + rest);
      assert Fields(b) + other == Lengthed(b[0]) + (Fields(b[1..]) + other);
      LengthedPrefix(a[0], b[0], Fields(a[1..]) + rest, Fields(b[1..]) + other);
      FieldsPrefix(a[1..], b[1..], rest, other);
      assert a == [a[0]] + a[1..] && b == [b[0]] + b[1..];
    } else {
      assert Fields(a) + rest == rest && Fields(b) + other == other;
    }
  }

  lemma TokenTextInjective(a: Option<int>, b: Option<int>)
    requires TokenText(a) == TokenText(b)
    ensures a == b
  {
    assert TokenText(a)[0] == TokenText(b)[0];
    if a.Some? {
      assert TokenText(a)[1..] == FormatInt(a.value) && TokenText(b)[1..] == FormatInt(b.value);
      FormatIntInjective(a.value, b.value);
    }
  }

  lemma TokenTextHasNoBar(a: Option<int>)
    ensures '|' !in TokenText(a)
  {
    if a.Some? {
      forall i | 0 <= i < |FormatInt(a.value)| ensures FormatInt(a.value)[i] != '|' { FormatIntChars(a.value, i); }
    }
  }

  /** A token field starts at the last bar. */
  lemma {:induction false} TokenFieldsInjective(a: seq<Option<int>>, b: seq<Option<int>>)
    requires TokenFields(a) == TokenFields(b)
    ensures a == b
    decreases |a|
  {
    hide TokenText;
    if a == [] || b == [] {
    } else {
      var ra, rb, x, y := a[..|a| - 1], b[..|b| - 1], a[|a| - 1], b[|b| - 1];
      TokenTextHasNoBar(x);
      TokenTextHasNoBar(y);
      SplitAtLast(TokenFields(ra), TokenFields(rb), '|', TokenText(x), TokenText(y));
      TokenTextInjective(x, y);
      TokenFieldsInjective(ra, rb);
      assert a == ra + [x] && b == rb + [y];
    }
  }

  /**
   * Different log identities have different texts, for all field contents: digits, colons and bars
   * included, and for any number of tokens.
   */
  lemma LogKeyInjective(s: string, c: string, t: string, m: string, tokens: seq<Option<int>>,
                        s': string, c': string, t': string, m': string, tokens': seq<Option<int>>)
    requires LogKey(s, c, t, m, tokens) == LogKey(s', c', t', m', tokens')
    ensures s == s' && c == c' && t == t' && m == m' && tokens == tokens'
  {
    var a, b := [s, c, t, m], [s', c', t', m'];
    FieldsPrefix(a, b, TokenFields(tokens), TokenFields(tokens'));
    assert s == a[0] && c == a[1] && t == a[2] && m == a[3];
    TokenFieldsInjective(tokens, tokens');
  }

  // Span identities.

  /** A bar that could end the trace ID earlier, or start the span ID later. */
  predicate Ambiguous(trace: string, span: string) {
    || (exists i :: 0 < i < |trace| && trace[i] == '|')
    || (exists i :: 0 <= i < |span| - 1 && span[i] == '|')
  }

  /**
   * Sources hold no bar. Among them, an identity belongs to one trace and span ID alone if and only
   * if no bar in these leaves room for another way to split the text.
   */
  lemma SpanKeyUniqueIff(source: string, trace: string, span: string)
    requires '|' !in source && trace != "" && span != ""
    ensures (forall s, t, p :: '|' !in s && SpanKey(s, t, p).Ok? && SpanKey(s, t, p) == SpanKey(source, trace, span)
                               ==> s == source && t == trace && p == span)
            <==> !Ambiguous(trace, span)
  {
    if Ambiguous(trace, span) {
      AmbiguousCollides(source, trace, span);
    } else {
      forall s, t, p | '|' !in s && SpanKey(s, t, p).Ok? && SpanKey(s, t, p) == SpanKey(source, trace, span)
        ensures s == source && t == trace && p == span
      {
        PlainIsUnique(source, trace, span, s, t, p);
      }
    }
  }

  lemma AmbiguousCollides(source: string, trace: string, span: string)
    requires Ambiguous(trace, span) && trace != "" && span != ""
    ensures exists t, p ::
              SpanKey(source, t, p).Ok? && SpanKey(source, t, p) == SpanKey(source, trace, span) && t != trace
  {
    if i :| 0 < i < |trace| && trace[i] == '|' {
      SameText(source, trace[..i], trace[i + 1..], span);
      assert trace == trace[..i] + "|" + trace[i + 1..];
      assert SpanKey(source, trace[..i], trace[i + 1..] + "|" + span) == SpanKey(source, trace, span);
    } else {
      var i :| 0 <= i < |span| - 1 && span[i] == '|';
      SameText(source, trace, span[..i], span[i + 1..]);
      assert span == span[..i] + "|" + span[i + 1..];
      assert SpanKey(source, trace + "|" + span[..i], span[i + 1..]) == SpanKey(source, trace, span);
      assert |trace + "|" + span[..i]| != |trace|;
    }
  }

  lemma SameText(s: string, a: string, b: string, c: string)
    ensures s + "|" + a + "|" + (b + "|" + c) == s + "|" + (a + "|" + b) + "|" + c
  {
  }

  lemma PlainIsUnique(source: string, trace: string, span: string, s: string, t: string, p: string)
    requires '|' !in source && '|' !in s && trace != "" && span != "" && t != "" && p != ""
    requires !Ambiguous(trace, span) && source + "|" + trace + "|" + span == s + "|" + t + "|" + p
    ensures s == source && t == trace && p == span
  {
    var a, b := trace + "|" + span, t + "|" + p;
    assert source + "|" + trace + "|" + span == source + "|" + a && s + "|" + t + "|" + p == s + "|" + b;
    SplitAtFirst(source, s, '|', a, b);
    assert a[|trace|] == '|' && b[|t|] == '|';
    forall i | 0 < i < |trace| ensures a[i] != '|' { assert a[i] == trace[i]; }
    forall i | |trace| < i < |a| - 1 ensures a[i] != '|' { assert a[i] == span[i - |trace| - 1]; }
    assert trace == a[..|trace|] && t == b[..|t|] && span == a[|trace| + 1..] && p == b[|t| + 1..];
  }

  /** The span part Maki and Claude Code records use: the timestamp and the event sequence. */
  function EventPart(timestamp: nat, sequence: int): string { Decimal(timestamp) + ":" + FormatInt(sequence) }

  /** For these records the session may hold anything: its bars never make two identities collide. */
  lemma EventIdentityInjective(source: string, session: string, ts: nat, seq_: int,
                               session': string, ts': nat, seq': int)
    requires SpanKey(source, session, EventPart(ts, seq_)).Ok?
    requires SpanKey(source, session, EventPart(ts, seq_)) == SpanKey(source, session', EventPart(ts', seq'))
    ensures session == session' && ts == ts' && seq_ == seq'
  {
    EventPartText(ts, seq_);
    EventPartText(ts', seq');
    SplitAtLast(source + "|" + session, source + "|" + session', '|', EventPart(ts, seq_), EventPart(ts', seq'));
    assert session == (source + "|" + session)[|source| + 1..] && session' == (source + "|" + session')[|source| + 1..];
    SplitAtFirst(Decimal(ts), Decimal(ts'), ':', FormatInt(seq_), FormatInt(seq'));
    DecimalInjective(ts, ts');
    FormatIntInjective(seq_, seq');
  }

  lemma EventPartText(timestamp: nat, sequence: int)
    ensures '|' !in EventPart(timestamp, sequence) && ':' !in Decimal(timestamp)
  {
    forall i | 0 <= i < |FormatInt(sequence)| ensures FormatInt(sequence)[i] != '|' { FormatIntChars(sequence, i); }
  }

  /** A Claude Code record is identified by its request ID, with this word for the trace ID, or by its session. */
  const REQUEST := "request"

  /** A session that is the word, or goes on after it with a bar. */
  predicate ReadsLikeRequest(session: string, word: string) { session == word || word + "|" <= session }

  /**
   * A session's records can share an identity with a request ID if and only if the session is the
   * word "request", or starts with it and a bar.
   */
  lemma RequestIdCollidesIff(source: string, word: string, session: string, ts: nat, sequence: int)
    requires '|' !in word && word != "" && session != ""
    ensures (exists id :: id != "" && SpanKey(source, word, id) == SpanKey(source, session, EventPart(ts, sequence)))
            <==> ReadsLikeRequest(session, word)
  {
    var event := EventPart(ts, sequence);
    EventPartText(ts, sequence);
    if session == word {
      assert SpanKey(source, word, event) == SpanKey(source, session, event);
    } else if word + "|" <= session {
      var rest := session[|word| + 1..];
      assert session == word + "|" + rest;
      SameText(source, word, rest, event);
      assert SpanKey(source, word, rest + "|" + event) == SpanKey(source, session, event);
    }
    forall id | id != "" && SpanKey(source, word, id) == SpanKey(source, session, event)
      ensures ReadsLikeRequest(session, word)
    {
      SharedTextReadsLikeRequest(source, word, id, session, event);
    }
  }

  lemma SharedTextReadsLikeRequest(source: string, word: string, id: string, session: string, event: string)
    requires '|' !in word && '|' !in event && source + "|" + word + "|" + id == source + "|" + session + "|" + event
    ensures ReadsLikeRequest(session, word)
  {
    var a, b := word + "|" + id, session + "|" + event;
    assert source + "|" + word + "|" + id == source + "|" + a
        && source + "|" + session + "|" + event == source + "|" + b;
    assert a == (source + "|" + a)[|source| + 1..] && b == (source + "|" + b)[|source| + 1..];
    assert a[|word|] == '|' && b[|session|] == '|';
    assert forall i :: 0 <= i < |word| ==> a[i] == word[i] != '|';
    assert forall i :: |session| < i < |b| ==> b[i] == event[i - |session| - 1] != '|';
    assert word == a[..|word|];
    if |word| < |session| {
      assert session[..|word| + 1] == a[..|word| + 1] == word + "|";
    } else {
      assert session == b[..|session|];
    }
  }

  /** Both ways to collide: the bare word, and a session that goes on after it. */
  lemma RequestIdMayCollide()
    ensures SpanKey("claude_code", REQUEST, "17:2") == SpanKey("claude_code", REQUEST, EventPart(17, 2))
    ensures SpanKey("claude_code", REQUEST, "foo|17:2") == SpanKey("claude_code", "request|foo", EventPart(17, 2))
  {
    assert Decimal(17) == Decimal(1) + [Digit(7)] && Decimal(1) == [Digit(1)];
    assert EventPart(17, 2) == "17:2";
    SameText("claude_code", REQUEST, "foo", "17:2");
    assert "foo" + "|" + "17:2" == "foo|17:2" && REQUEST + "|" + "foo" == "request|foo";
  }
}
