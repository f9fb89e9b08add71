/**
 * The LogEntry constructor: one line of a combined-format access log is cut
 * into tokens by the regular expression
 *   ([^ "\[]+)|(\[(?<brackets>[^]]*)])|("(?<text>[^"]*)")
 * and the tokens at positions 1, 4, 5, 6, 7, 8 and 9 become the entry's
 * fields. Any exception while converting a token aborts the construction.
 */
module LogEntries {
  import opened Outcomes
  import opened Text
  import opened Timestamps
  import opened UserAgents

  datatype HttpMethod = Post | Get | Put | Head

  /** Enum.name() of an HttpMethod. */
  function MethodName(m: HttpMethod): string {
    match m
    case Post => "POST"
    case Get => "GET"
    case Put => "PUT"
    case Head => "HEAD"
  }

  /** HttpMethod.values(), in declaration order. */
  const HttpMethods: seq<HttpMethod> := [Post, Get, Put, Head]

  lemma AllMethodsListed(m: HttpMethod)
    ensures m in HttpMethods
  {
    match m
    case Post => assert HttpMethods[0] == m;
    case Get => assert HttpMethods[1] == m;
    case Put => assert HttpMethods[2] == m;
    case Head => assert HttpMethods[3] == m;
  }

  // ---------------------------------------------------------------------------
  // Tokens: the three alternatives of the line expression

  /**
   * One match of the line expression: a bare run, a bracketed group (inner
   * holds the "brackets" group) or a quoted group (inner holds "text").
   */
  datatype Token = Bare(text: string) | Bracketed(inner: string) | Quoted(inner: string)

  /** Matcher.group(): the whole match, delimiters included. */
  function Group(t: Token): string {
    match t
    case Bare(text) => text
    case Bracketed(inner) => "[" + inner + "]"
    case Quoted(inner) => "\"" + inner + "\""
  }

  /** The characters [^ "\[] of the first alternative. */
  predicate IsBareChar(c: char) {
    c != ' ' && c != '"' && c != '['
  }

  /** What each alternative can match. */
  predicate WellFormed(t: Token) {
    match t
    case Bare(text) => |text| > 0 && forall i :: 0 <= i < |text| ==> IsBareChar(text[i])
    case Bracketed(inner) => ']' !in inner
    case Quoted(inner) => '"' !in inner
  }

  /** A match found by Matcher.find(): the token and the span row[start..end] it covers. */
  datatype Match = Match(token: Token, start: nat, end: nat)

  /** No alternative matches at p: a space, or a [ or " that is never closed. */
  predicate CannotStartToken(row: string, p: nat)
    requires p < |row|
  {
    || row[p] == ' '
    || (row[p] == '[' && ']' !in row[p + 1..])
    || (row[p] == '"' && '"' !in row[p + 1..])
  }

  /** The end of the longest run of bare characters starting at p. */
  function RunEnd(row: string, p: nat): (e: nat)
    requires p <= |row|
    decreases |row| - p
    ensures p <= e <= |row|
    ensures forall k :: p <= k < e ==> IsBareChar(row[k])
    ensures e == |row| || !IsBareChar(row[e])
  {
    if p == |row| || !IsBareChar(row[p]) then p else RunEnd(row, p + 1)
  }

  lemma NotInSlice(row: string, c: char, from: nat)
    requires from <= |row|
    ensures IndexOf(row, c, from).None? <==> c !in row[from..]
  {
    if c in row[from..] {
      var k :| 0 <= k < |row[from..]| && row[from..][k] == c;
      assert row[from + k] == c;
    }
  }

  /** The span of a group opened at p and closed by the first later `close`, if there is one. */
  function ClosedAt(row: string, p: nat, close: char): (r: Option<nat>)
    requires p < |row|
    ensures r.Some? ==> p < r.value < |row| && row[r.value] == close && close !in row[p + 1..r.value]
    ensures r.None? <==> close !in row[p + 1..]
  {
    NotInSlice(row, close, p + 1);
    match IndexOf(row, close, p + 1)
    case None => None
    case Some(j) => Some(j)
  }

  lemma DelimitedSlice(row: string, p: nat, j: nat)
    requires p < j < |row|
    ensures row[p..j + 1] == [row[p]] + row[p + 1..j] + [row[j]]
  {
  }

  /** The match the expression makes at exactly position p, trying its alternatives in order. */
  function MatchAt(row: string, p: nat): (r: Option<Match>)
    requires p < |row|
    ensures r.Some? ==> r.value.start == p < r.value.end <= |row| && WellFormed(r.value.token)
    ensures r.Some? ==> row[p..r.value.end] == Group(r.value.token)
    ensures r.Some? && r.value.token.Bare? ==> r.value.end == |row| || !IsBareChar(row[r.value.end])
    ensures r.None? <==> CannotStartToken(row, p)
  {
    if IsBareChar(row[p]) then
      var e := RunEnd(row, p);
      Some(Match(Bare(row[p..e]), p, e))
    else if row[p] == '[' then
      match ClosedAt(row, p, ']')
      case None => None
      case Some(j) =>
        DelimitedSlice(row, p, j);
        Some(Match(Bracketed(row[p + 1..j]), p, j + 1))
    else if row[p] == '"' then
      match ClosedAt(row, p, '"')
      case None => None
      case Some(j) =>
        DelimitedSlice(row, p, j);
        Some(Match(Quoted(row[p + 1..j]), p, j + 1))
    else
      None
  }

  /**
   * Matcher.find() from position pos: the leftmost match at or after pos.
   * A character where no alternative matches is skipped, not rejected.
   */
  function NextToken(row: string, pos: nat): (r: Option<Match>)
    requires pos <= |row|
    decreases |row| - pos
    ensures r.Some? ==> pos <= r.value.start < |row| && MatchAt(row, r.value.start) == r
    ensures r.Some? ==> forall p :: pos <= p < r.value.start ==> CannotStartToken(row, p)
    ensures r.None? ==> forall p :: pos <= p < |row| ==> CannotStartToken(row, p)
  {
    if pos == |row| then None
    else if MatchAt(row, pos).Some? then MatchAt(row, pos)
    else NextToken(row, pos + 1)
  }

  /** All tokens Matcher.find() returns from position pos on. */
  function TokensFrom(row: string, pos: nat): (r: seq<Token>)
    requires pos <= |row|
    decreases |row| - pos
    ensures |r| <= |row| - pos
    ensures forall i :: 0 <= i < |r| ==> WellFormed(r[i])
  {
    match NextToken(row, pos)
    case None => []
    case Some(m) => [m.token] + TokensFrom(row, m.end)
  }

  /** The tokens of a whole line, in order. */
  function Tokens(row: string): seq<Token> {
    TokensFrom(row, 0)
  }

  // ---------------------------------------------------------------------------
  // The request line

  /** The request text starts with the name of m followed by a space (String.indexOf(" ") > 0). */
  predicate HasVerb(text: string, m: HttpMethod) {
    match IndexOf(text, ' ', 0)
    case Some(i) => i > 0 && text[..i] == MethodName(m)
    case None => false
  }

  /** The index of the first of HttpMethods[k..] that the request text starts with. */
  function VerbFrom(text: string, k: nat): (r: Option<nat>)
    requires k <= |HttpMethods|
    decreases |HttpMethods| - k
    ensures r.Some? ==> k <= r.value < |HttpMethods| && HasVerb(text, HttpMethods[r.value])
    ensures r.None? <==> forall j :: k <= j < |HttpMethods| ==> !HasVerb(text, HttpMethods[j])
  {
    if k == |HttpMethods| then None
    else if HasVerb(text, HttpMethods[k]) then Some(k)
    else VerbFrom(text, k + 1)
  }

  /**
   * The method and path of a request text: a recognised verb before the
   * first space is split off and the path is what follows that space;
   * otherwise there is no method and the path is the whole text.
   */
  function RequestParts(text: string): (r: (Option<HttpMethod>, string))
    ensures r.0.Some? ==> HasVerb(text, r.0.value) && r.1 == text[IndexOf(text, ' ', 0).value + 1..]
    ensures r.0.None? <==> forall m :: !HasVerb(text, m)
    ensures r.0.None? ==> r.1 == text
  {
    match VerbFrom(text, 0)
    case Some(k) => (Some(HttpMethods[k]), text[IndexOf(text, ' ', 0).value + 1..])
    case None =>
      assert forall m :: !HasVerb(text, m) by {
        forall m ensures !HasVerb(text, m) {
          AllMethodsListed(m);
        }
      }
      (None, text)
  }

  /**
   * The constructor's inner loop over HttpMethod.values(): the first name
   * equal to the text before the first space wins and the loop breaks.
   */
  method SplitRequest(text: string) returns (verb: Option<HttpMethod>, path: string)
    ensures (verb, path) == RequestParts(text)
  {
    verb, path := None, text;
    for i := 0 to |HttpMethods|
      invariant verb.None? && path == text
      invariant VerbFrom(text, 0) == VerbFrom(text, i)
    {
      var meth := HttpMethods[i];
      var space := IndexOf(path, ' ', 0);
      if space.Some? && space.value > 0 && MethodName(meth) == path[..space.value] {
        verb := Some(meth);
        path := path[space.value + 1..];
        break;
      }
    }
  }

  // ---------------------------------------------------------------------------
  // Entries

  /**
   * The causes of LogEntryCreateException: a named group that is absent
   * (null, so a NullPointerException), DateTimeParseException and
   * NumberFormatException.
   */
  datatype CreateError = MissingGroup(position: nat) | BadTimestamp(text: string) | BadNumber(text: string)

  /** A parsed line. None stands for a field left null because its token is missing. */
  datatype LogEntry = LogEntry(
    ipAddr: Option<string>,
    time: Option<int>,
    httpMethod: Option<HttpMethod>,
    path: Option<string>,
    responseCode: int,
    responseSize: int,
    referer: Option<string>,
    userAgent: Option<UserAgent>)

  /** The fields of a LogEntry before any token is read. */
  const Blank: LogEntry := LogEntry(None, None, None, None, 0, 0, None, None)

  /** Position 4: the "brackets" group parsed as a timestamp. */
  function TimeField(t: Token): Result<Option<int>, CreateError> {
    if !t.Bracketed? then Failure(MissingGroup(4))
    else match ParseTimestamp(t.inner)
      case None => Failure(BadTimestamp(t.inner))
      case Some(v) => Success(Some(v))
  }

  /** Position 5: the "text" group split into method and path. */
  function RequestField(t: Token): Result<(Option<HttpMethod>, Option<string>), CreateError> {
    if !t.Quoted? then Failure(MissingGroup(5))
    else var parts := RequestParts(t.inner); Success((parts.0, Some(parts.1)))
  }

  /** Positions 6 and 7: the whole match read by Integer.parseInt. */
  function NumberField(t: Token): Result<int, CreateError> {
    match ParseInt(Group(t))
    case None => Failure(BadNumber(Group(t)))
    case Some(n) => Success(n)
  }

  /** Position 8: the "text" group, null when the token is not quoted. */
  function RefererField(t: Token): Option<string> {
    if t.Quoted? then Some(t.inner) else None
  }

  /** Position 9: the "text" group classified as a User-Agent. */
  function AgentField(t: Token): Result<Option<UserAgent>, CreateError> {
    if !t.Quoted? then Failure(MissingGroup(9)) else Success(Some(Classify(t.inner)))
  }

  /**
   * The entry a token list denotes, read as a fixed grammar of named fields:
   * each field comes from its own position, a missing position leaves the
   * field at its default, and the first failing conversion, in position
   * order, is the error.
   */
  function ParseTokens(toks: seq<Token>): Result<LogEntry, CreateError> {
    var ipAddr := if |toks| >= 1 then Some(Group(toks[0])) else None;
    var time :- if |toks| >= 4 then TimeField(toks[3]) else Success(None);
    var request :- if |toks| >= 5 then RequestField(toks[4]) else Success((None, None));
    var responseCode :- if |toks| >= 6 then NumberField(toks[5]) else Success(0);
    var responseSize :- if |toks| >= 7 then NumberField(toks[6]) else Success(0);
    var referer := if |toks| >= 8 then RefererField(toks[7]) else None;
    var userAgent :- if |toks| >= 9 then AgentField(toks[8]) else Success(None);
    Success(LogEntry(ipAddr, time, request.0, request.1, responseCode, responseSize, referer, userAgent))
  }

  /** What new LogEntry(row) yields: the entry, or the LogEntryCreateException it throws. */
  function Parse(row: string): Result<LogEntry, CreateError> {
    ParseTokens(Tokens(row))
  }

  /** One pass of the constructor's switch: the token at position count updates one field. */
  ghost function Assign(e: LogEntry, count: nat, t: Token): Result<LogEntry, CreateError> {
    if count == 1 then Success(e.(ipAddr := Some(Group(t))))
    else if count == 4 then var time :- TimeField(t); Success(e.(time := time))
    else if count == 5 then var request :- RequestField(t); Success(e.(httpMethod := request.0, path := request.1))
    else if count == 6 then var code :- NumberField(t); Success(e.(responseCode := code))
    else if count == 7 then var size :- NumberField(t); Success(e.(responseSize := size))
    else if count == 8 then Success(e.(referer := RefererField(t)))
    else if count == 9 then var agent :- AgentField(t); Success(e.(userAgent := agent))
    else Success(e)
  }

  /** Reading one more token is one pass of the switch on its position. */
  lemma ParseTokensStep(toks: seq<Token>, t: Token)
    requires ParseTokens(toks).Success?
    ensures ParseTokens(toks + [t]) == Assign(ParseTokens(toks).value, |toks| + 1, t)
  {
    var s := toks + [t];
    assert s[|toks|] == t;
    assert s[..|toks|] == toks;
    if |toks| < 4 {
      StepBeforeTime(toks, t);
    } else if |toks| < 6 {
      StepTimeOrRequest(toks, t);
    } else if |toks| < 8 {
      StepNumbers(toks, t);
    } else if |toks| == 8 {
      StepAgent(toks, t);
    } else {
      StepIgnored(toks, t);
    }
  }

  lemma StepBeforeTime(toks: seq<Token>, t: Token)
    requires ParseTokens(toks).Success? && |toks| < 4
    ensures ParseTokens(toks + [t]) == Assign(ParseTokens(toks).value, |toks| + 1, t)
  {
    var s := toks + [t];
    assert s[|toks|] == t;
    if |toks| >= 1 { assert s[0] == toks[0]; }
  }

  lemma StepTimeOrRequest(toks: seq<Token>, t: Token)
    requires ParseTokens(toks).Success? && 4 <= |toks| < 6
    ensures ParseTokens(toks + [t]) == Assign(ParseTokens(toks).value, |toks| + 1, t)
  {
    var s := toks + [t];
    assert s[|toks|] == t;
    assert s[0] == toks[0] && s[3] == toks[3];
    if |toks| == 5 { assert s[4] == toks[4]; }
  }

  lemma StepNumbers(toks: seq<Token>, t: Token)
    requires ParseTokens(toks).Success? && 6 <= |toks| < 8
    ensures ParseTokens(toks + [t]) == Assign(ParseTokens(toks).value, |toks| + 1, t)
  {
    var s := toks + [t];
    assert s[|toks|] == t;
    assert s[0] == toks[0] && s[3] == toks[3] && s[4] == toks[4] && s[5] == toks[5];
    if |toks| == 7 { assert s[6] == toks[6]; }
  }

  lemma StepAgent(toks: seq<Token>, t: Token)
    requires ParseTokens(toks).Success? && |toks| == 8
    ensures ParseTokens(toks + [t]) == Assign(ParseTokens(toks).value, |toks| + 1, t)
  {
    var s := toks + [t];
    assert s[8] == t;
    assert s[0] == toks[0] && s[3] == toks[3] && s[4] == toks[4] && s[5] == toks[5];
    assert s[6] == toks[6] && s[7] == toks[7];
  }

  lemma StepIgnored(toks: seq<Token>, t: Token)
    requires ParseTokens(toks).Success? && 9 <= |toks|
    ensures ParseTokens(toks + [t]) == Assign(ParseTokens(toks).value, |toks| + 1, t)
  {
    var s := toks + [t];
    assert s[0] == toks[0] && s[3] == toks[3] && s[4] == toks[4] && s[5] == toks[5];
    assert s[6] == toks[6] && s[7] == toks[7] && s[8] == toks[8];
  }

  /** Once a conversion has failed, later tokens cannot change the outcome. */
  lemma ParseTokensFailureSticks(toks: seq<Token>, more: seq<Token>)
    requires ParseTokens(toks).Failure?
    ensures ParseTokens(toks + more) == ParseTokens(toks)
  {
    var s := toks + more;
    assert forall i :: 0 <= i < |toks| ==> s[i] == toks[i];
  }

  /** Once the line is split, the rest of the tokens follow the one just found. */
  lemma TokensAfter(row: string, pos: nat, consumed: seq<Token>, m: Match)
    requires pos <= |row| && NextToken(row, pos) == Some(m)
    requires Tokens(row) == consumed + TokensFrom(row, pos)
    ensures Tokens(row) == (consumed + [m.token]) + TokensFrom(row, m.end)
  {
  }

  /**
   * The constructor new LogEntry(row): a find() loop with a position counter
   * and a switch on it. A failed conversion ends the loop with the error.
   */
  method NewLogEntry(row: string) returns (r: Result<LogEntry, CreateError>)
    ensures r == Parse(row)
  {
    var count := 1;
    var ipAddr: Option<string> := None;
    var time: Option<int> := None;
    var verb: Option<HttpMethod> := None;
    var path: Option<string> := None;
    var responseCode := 0;
    var responseSize := 0;
    var referer: Option<string> := None;
    var userAgent: Option<UserAgent> := None;
    var pos := 0;
    ghost var consumed: seq<Token> := [];
    var found := NextToken(row, pos);
    while found.Some?
      invariant pos <= |row| && found == NextToken(row, pos)
      invariant Tokens(row) == consumed + TokensFrom(row, pos)
      invariant count == |consumed| + 1
      invariant ParseTokens(consumed)
        == Success(LogEntry(ipAddr, time, verb, path, responseCode, responseSize, referer, userAgent))
      decreases |row| - pos
    {
      var m := found.value;
      var token := m.token;
      TokensAfter(row, pos, consumed, m);
      ParseTokensStep(consumed, token);
      var failure: Option<CreateError> := None;
      if count == 1 {
        ipAddr := Some(Group(token));
      } else if count == 4 {
        if !token.Bracketed? {
          failure := Some(MissingGroup(4));
        } else {
          var parsed := ParseTimestamp(token.inner);
          if parsed.None? {
            failure := Some(BadTimestamp(token.inner));
          } else {
            time := parsed;
          }
        }
      } else if count == 5 {
        if !token.Quoted? {
          failure := Some(MissingGroup(5));
        } else {
          var requestPath;
          verb, requestPath := SplitRequest(token.inner);
          path := Some(requestPath);
        }
      } else if count == 6 || count == 7 {
        var number := ParseInt(Group(token));
        if number.None? {
          failure := Some(BadNumber(Group(token)));
        } else if count == 6 {
          responseCode := number.value;
        } else {
          responseSize := number.value;
        }
      } else if count == 8 {
        referer := if token.Quoted? then Some(token.inner) else None;
      } else if count == 9 {
        if !token.Quoted? {
          failure := Some(MissingGroup(9));
        } else {
          var agent := NewUserAgent(token.inner);
          userAgent := Some(agent);
        }
      }
      if failure.Some? {
        ParseTokensFailureSticks(consumed + [token], TokensFrom(row, m.end));
        return Failure(failure.value);
      }
      consumed := consumed + [token];
      count := count + 1;
      pos := m.end;
      found := NextToken(row, pos);
    }
    assert TokensFrom(row, pos) == [];
    assert consumed + [] == consumed;
    r := Success(LogEntry(ipAddr, time, verb, path, responseCode, responseSize, referer, userAgent));
  }

  // ---------------------------------------------------------------------------
  // Properties of the entry grammar

  /** A line with fewer than four tokens never fails: only the address is set. */
  lemma ShortLineHasDefaults(toks: seq<Token>)
    requires |toks| < 4
    ensures ParseTokens(toks) == Success(Blank.(ipAddr := if |toks| >= 1 then Some(Group(toks[0])) else None))
  {
  }

  /** The address is the text of the line's first match, whatever kind of token it is. */
  lemma AddressIsFirstMatch(row: string)
    requires Parse(row).Success? && NextToken(row, 0).Some?
    ensures Parse(row).value.ipAddr == Some(row[NextToken(row, 0).value.start..NextToken(row, 0).value.end])
  {
    var m := NextToken(row, 0).value;
    var toks := Tokens(row);
    assert toks == [m.token] + TokensFrom(row, m.end);
    AddressIsFirstToken(toks);
  }

  /** The address is the whole first token. */
  lemma AddressIsFirstToken(toks: seq<Token>)
    requires ParseTokens(toks).Success? && |toks| >= 1
    ensures ParseTokens(toks).value.ipAddr == Some(Group(toks[0]))
  {
  }

  /** An entry's fields stay at their defaults for the positions the line does not reach. */
  lemma MissingFieldsKeepDefaults(toks: seq<Token>)
    requires ParseTokens(toks).Success?
    ensures var e := ParseTokens(toks).value;
      && (|toks| < 4 ==> e.time.None?)
      && (|toks| < 5 ==> e.httpMethod.None? && e.path.None?)
      && (|toks| < 6 ==> e.responseCode == 0)
      && (|toks| < 7 ==> e.responseSize == 0)
      && (|toks| < 8 ==> e.referer.None?)
      && (|toks| < 9 ==> e.userAgent.None?)
  {
  }

  /**
   * The referer never makes construction fail: an eighth token that is not
   * quoted leaves the referer null and the entry is still built.
   */
  lemma RefererNeverFails(toks: seq<Token>, t: Token)
    requires |toks| == 7 && ParseTokens(toks).Success?
    ensures ParseTokens(toks + [t]).Success?
    ensures ParseTokens(toks + [t]).value == ParseTokens(toks).value.(referer := RefererField(t))
    ensures !t.Quoted? ==> ParseTokens(toks + [t]).value.referer.None?
  {
    ParseTokensStep(toks, t);
  }

  /** Tokens past the ninth are read and ignored. */
  lemma ExtraTokensIgnored(toks: seq<Token>, t: Token)
    requires |toks| >= 9
    ensures ParseTokens(toks + [t]) == ParseTokens(toks)
  {
    if ParseTokens(toks).Success? {
      ParseTokensStep(toks, t);
    } else {
      ParseTokensFailureSticks(toks, [t]);
    }
  }

  /** A quoted or bracketed token in a numeric position always fails Integer.parseInt. */
  lemma DelimitedNumberFails(t: Token)
    requires !t.Bare?
    ensures NumberField(t) == Failure(BadNumber(Group(t)))
  {
    assert !IsDigit(Group(t)[0]);
  }

  /** A time, request or user-agent token of the wrong kind fails as a null group. */
  lemma WrongKindIsMissingGroup(t: Token)
    ensures !t.Bracketed? ==> TimeField(t) == Failure(MissingGroup(4))
    ensures !t.Quoted? ==> RequestField(t) == Failure(MissingGroup(5))
    ensures !t.Quoted? ==> AgentField(t) == Failure(MissingGroup(9))
  {
  }

  /** An unclosed bracket is skipped and the bare run after it is the next token. */
  lemma ExampleUnclosedBracket()
    ensures Tokens("[a") == [Bare("a")]
  {
    var row := "[a";
    assert ']' !in row[1..];
    assert MatchAt(row, 0).None?;
    assert RunEnd(row, 1) == 2;
    assert row[1..2] == "a";
    assert MatchAt(row, 1) == Some(Match(Bare("a"), 1, 2));
    assert NextToken(row, 0) == Some(Match(Bare("a"), 1, 2));
    assert TokensFrom(row, 2) == [];
  }

  /** A verb is split off only when a space follows it and nothing precedes it. */
  lemma ExampleRequests()
    ensures RequestParts("GET /a") == (Some(Get), "/a")
    ensures RequestParts("GET") == (None, "GET")
    ensures RequestParts("get /a") == (None, "get /a")
  {
    assert HasVerb("GET /a", Get);
    assert !HasVerb("GET", Get) && IndexOf("GET", ' ', 0).None?;
    assert IndexOf("get /a", ' ', 0) == Some(3);
  }

  /** A parsed time is a LocalDateTime, so it lies in LocalDateTime's range. */
  lemma ParsedTimeIsInRange(row: string)
    requires Parse(row).Success? && Parse(row).value.time.Some?
    ensures LocalDateTimeMin <= Parse(row).value.time.value <= LocalDateTimeMax
  {
    var toks := Tokens(row);
    assert |toks| >= 4 && toks[3].Bracketed?;
    ParsedTimeInRange(toks[3].inner);
  }
}
