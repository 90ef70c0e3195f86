/** ACP v1.0 wire text: a strict printer and a strict parser. */
module Acp {
  import opened Prelude
  import opened Text

  const PROTOCOL := "ACP/v1.0"

  const HEADER_FIELDS: seq<string> :=
    ["PROTOCOL", "TYPE", "FROM", "TO", "MISSION", "TIMESTAMP", "CORRELATION", "PAYLOAD-SHA256"]

  const MESSAGE_TYPES: seq<string> := [
    "ASSIGNMENT", "STATUS_UPDATE", "PROGRESS", "EVIDENCE", "QUESTION", "ESCALATION", "WARNING", "FAILURE", "RECOVERY",
    "VALIDATION", "APPROVAL", "COMPLETION", "CANCELLATION", "REVIEW", "DECISION", "KNOWLEDGE_UPDATE", "MISSION_UPDATE",
    "HEARTBEAT"
  ]

  datatype Message = Message(
    protocol: string, messageType: string, sender: string, recipient: string, mission: string,
    timestamp: string, correlation: string, payload: seq<(string, string)>, payloadSha256: string)

  datatype AcpError = ParseError | ValidationError

  /**
   The parts of validation that this model leaves open: the digest, which characters Python
   counts as digits, whether the digits name an instant, and the value domains of payload fields.
   */
  datatype Rules = Rules(
    sha256: string -> string,
    isDigit: char -> bool,
    calendarOk: string -> bool,
    semanticsOk: (string, seq<(string, string)>) -> bool)

  /** The only assumption on the rules: a line break is not a digit. */
  predicate Sound(rules: Rules) {
    !rules.isDigit('\n') && !rules.isDigit('\r')
  }

  /** `dddd-dd-ddTdd:dd:dd.dddZ`, then a calendar check. */
  predicate IsTimestamp(rules: Rules, s: string) {
    && |s| == 24
    && s[4] == '-' && s[7] == '-' && s[10] == 'T' && s[13] == ':' && s[16] == ':' && s[19] == '.' && s[23] == 'Z'
    && (forall i :: 0 <= i < 24 && i !in {4, 7, 10, 13, 16, 19, 23} ==> rules.isDigit(s[i]))
    && rules.calendarOk(s)
  }

  predicate SingleLine(s: string) {
    '\n' !in s && '\r' !in s
  }

  // ---------------------------------------------------------------- field tables

  function Required(t: string): seq<string> {
    if t == "ASSIGNMENT" then ["OBJECTIVE", "BOUNDARIES", "AUTHORITY", "DELIVERABLES", "PRIORITY", "VALUE"]
    else if t == "STATUS_UPDATE" then
      ["STEP", "PROGRESS-PERCENT", "BLOCKERS", "RESOURCE-USAGE", "NEXT-EXPECTED-OUTCOME"]
    else if t == "PROGRESS" then ["COMPLETED-STEP", "EVIDENCE-REF", "OUTCOME", "NEXT-STEP"]
    else if t == "EVIDENCE" then ["TYPE", "REFERENCE", "HASH", "CONTEXT"]
    else if t == "QUESTION" then ["WHAT-IS-NEEDED", "WHY-NEEDED", "CONTEXT-REFERENCE"]
    else if t == "ESCALATION" then
      ["ISSUE-TYPE", "DESCRIPTION", "EVIDENCE-REF", "IMPACT", "REQUESTED-ACTION", "TIME-BLOCKED"]
    else if t == "WARNING" then ["CONDITION", "POTENTIAL-IMPACT", "TIME-OBSERVED"]
    else if t == "FAILURE" then
      ["ERROR-CODE", "MESSAGE", "STACK-TRACE-or-LOG-REF", "ROOT-CAUSE-HYPOTHESIS", "RECOVERABLE",
       "SUGGECTED-NEXT-STEP"]
    else if t == "RECOVERY" then
      ["FAILURE-REF", "RECOVERY-POINT", "STATE-CORRECTIONS", "VALIDATION-REF", "READY-TO-RESUME"]
    else if t == "VALIDATION" then
      ["GATE", "RESULT", "FINDINGS", "EVIDENCE-REF", "REQUIRED-ACTIONS", "RETRY-ALLOWED"]
    else if t == "APPROVAL" then ["APPROVING-AGENT", "ITEM-APPROVED", "APPROVAL-TYPE", "CONDITIONS"]
    else if t == "COMPLETION" then ["ALL-GATES-PASSED", "DELIVERABLES-REF", "OUTCOME-VALUE", "HANDOFF-READY"]
    else if t == "CANCELLATION" then
      ["CANCELLING-AGENT", "REASON", "JUSTIFICATION", "PARTIAL-WORK-STATUS", "NOTIFICATION-REQ"]
    else if t == "REVIEW" then ["ITEM-UNDER-REVIEW", "REVIEW-TYPE", "FEEDBACK-REQUESTED", "CONTEXT"]
    else if t == "DECISION" then
      ["DECISION-ID", "CHOSEN-OPTION", "ALTERNATIVES-CONSIDERED", "EVIDENCE-BASIS",
       "EXPECTED-IMPACT", "REVERSIBLE", "REVERSIBILITY-CONDITIONS"]
    else if t == "KNOWLEDGE_UPDATE" then
      ["KNOWLEDGE-TYPE", "TITLE", "DESCRIPTION", "APPLICABLE-SCOPE", "EVIDENCE-REF", "ENTRY-TIME"]
    else if t == "MISSION_UPDATE" then
      ["FIELD-CHANGED", "OLD-VALUE", "NEW-VALUE", "CHANGE-REASON", "EFFECTIVE-IMMEDIATELY",
       "ACKNOWLEDGMENT-REQ"]
    else if t == "HEARTBEAT" then ["STATUS", "CURRENT-TASK", "RESOURCE-LOAD", "LAST-HEARTBEAT"]
    else []
  }

  function Optional(t: string): seq<string> {
    if t == "EVIDENCE" then ["TIME-RANGE"]
    else if t == "QUESTION" then ["RESPONSE-DEADLINE"]
    else if t == "WARNING" then ["SUGGESTED-MITIGATION"]
    else if t == "APPROVAL" then ["EFFECTIVE-UNTIL"]
    else if t == "COMPLETION" then ["POST-COMPLETION-NOTES"]
    else if t == "REVIEW" then ["DEADLINE"]
    else if t == "HEARTBEAT" then ["NOTES"]
    else []
  }

  /** Field order on the wire: optional fields last, except in two message types. */
  function FieldOrder(t: string): seq<string> {
    if t == "WARNING" then ["CONDITION", "POTENTIAL-IMPACT", "SUGGESTED-MITIGATION", "TIME-OBSERVED"]
    else if t == "REVIEW" then ["ITEM-UNDER-REVIEW", "REVIEW-TYPE", "FEEDBACK-REQUESTED", "DEADLINE", "CONTEXT"]
    else Required(t) + Optional(t)
  }

  // ---------------------------------------------------------------- validation

  predicate IsLowerHex(c: char) {
    '0' <= c <= '9' || 'a' <= c <= 'f'
  }

  /** A canonical version-4 UUID. */
  predicate IsUuid4(s: string) {
    |s| == 36 && s[14] == '4' && s[19] in "89ab"
    && forall i :: 0 <= i < 36 ==> if i in {8, 13, 18, 23} then s[i] == '-' else IsLowerHex(s[i])
  }

  predicate IsAgentType(s: string) {
    s != [] && 'a' <= s[0] <= 'z' && forall c <- s :: 'a' <= c <= 'z' || '0' <= c <= '9' || c == '-'
  }

  predicate IsAgentId(s: string) {
    var parts := Split(s, ':');
    |parts| == 3 && parts[0] == "AGENT" && IsAgentType(parts[1]) && IsUuid4(parts[2])
  }

  predicate IsSha256(s: string) {
    |s| == 64 && forall c <- s :: IsLowerHex(c)
  }

  predicate IsFieldName(s: string) {
    s != [] && s[0] != '-' && !('0' <= s[0] <= '9')
    && forall c <- s :: 'A' <= c <= 'Z' || 'a' <= c <= 'z' || '0' <= c <= '9' || c == '-'
  }

  function Fields(payload: seq<(string, string)>): (r: seq<string>)
    ensures |r| == |payload| && forall i :: 0 <= i < |r| ==> r[i] == payload[i].0
  {
    seq(|payload|, i requires 0 <= i < |payload| => payload[i].0)
  }

  /** `_validate_payload`, with the value domains left to `semantics`. */
  predicate ValidPayload(t: string, payload: seq<(string, string)>) {
    var fields := Fields(payload);
    var expected := FieldOrder(t);
    && payload != []
    && Distinct(fields)
    && (forall f <- fields :: IsFieldName(f))
    && (forall e <- payload :: e.1 != [] && SingleLine(e.1))
    && (forall f <- Required(t) :: f in fields)
    && (forall f <- fields :: f in expected)
    && (forall i, j :: 0 <= i < j < |fields| ==> IndexOf(expected, fields[i]) <= IndexOf(expected, fields[j]))
  }

  predicate Valid(rules: Rules, m: Message) {
    && m.protocol == PROTOCOL
    && m.messageType in MESSAGE_TYPES
    && IsAgentId(m.sender)
    && (m.recipient == "BROADCAST" || m.recipient == "NONE" || IsAgentId(m.recipient))
    && m.mission != [] && SingleLine(m.mission)
    && IsTimestamp(rules, m.timestamp)
    && IsUuid4(m.correlation)
    && IsSha256(m.payloadSha256)
    && ValidPayload(m.messageType, m.payload)
    && rules.semanticsOk(m.messageType, m.payload)
    && rules.sha256(PayloadText(m.payload)) == m.payloadSha256
  }

  // ---------------------------------------------------------------- printing

  function Entry(e: (string, string)): string {
    e.0 + ":" + e.1
  }

  function EntryLines(payload: seq<(string, string)>): (r: seq<string>)
    ensures |r| == |payload| && forall i :: 0 <= i < |r| ==> r[i] == Entry(payload[i])
  {
    if payload == [] then [] else [Entry(payload[0])] + EntryLines(payload[1..])
  }

  function PayloadText(payload: seq<(string, string)>): string {
    if payload == [] then [] else Join(EntryLines(payload), '\n')
  }

  function HeaderValues(m: Message): (r: seq<string>)
    ensures |r| == 8
  {
    [m.protocol, m.messageType, m.sender, m.recipient, m.mission, m.timestamp, m.correlation, m.payloadSha256]
  }

  function HeaderLine(name: string, value: string): string {
    name + ":" + value
  }

  function HeaderLines(names: seq<string>, values: seq<string>): (r: seq<string>)
    requires |names| == |values|
    ensures |r| == |names| && forall i :: 0 <= i < |r| ==> r[i] == HeaderLine(names[i], values[i])
  {
    if names == [] then [] else [HeaderLine(names[0], values[0])] + HeaderLines(names[1..], values[1..])
  }

  function WireText(m: Message): string {
    Join(HeaderLines(HEADER_FIELDS, HeaderValues(m)) + [PayloadText(m.payload)], '\n')
  }

  /** `serialize_message`. */
  function Serialize(rules: Rules, m: Message): Result<string, AcpError> {
    if Valid(rules, m) then Ok(WireText(m)) else Err(ValidationError)
  }

  // ---------------------------------------------------------------- parsing

  function HeaderValue(name: string, line: string): Option<string> {
    if name + ":" <= line && |line| > |name| + 1 then Some(line[|name| + 1..]) else None
  }

  function ParseHeaders(names: seq<string>, lines: seq<string>): (r: Option<seq<string>>)
    requires |names| == |lines|
    ensures r.Some? ==> |r.value| == |names|
  {
    if names == [] then Some([])
    else match HeaderValue(names[0], lines[0])
      case None => None
      case Some(v) =>
        match ParseHeaders(names[1..], lines[1..])
        case None => None
        case Some(vs) => Some([v] + vs)
  }

  /** `line.split(":", 1)`; an empty line or one without a colon is refused. */
  function ParseEntry(line: string): Option<(string, string)> {
    if ':' !in line then None
    else
      var i := IndexOf(line, ':');
      Some((line[..i], line[i + 1..]))
  }

  function ParsePayload(lines: seq<string>): (r: Option<seq<(string, string)>>)
    ensures r.Some? ==> |r.value| == |lines|
  {
    if lines == [] then Some([])
    else match ParseEntry(lines[0])
      case None => None
      case Some(e) =>
        match ParsePayload(lines[1..])
        case None => None
        case Some(es) => Some([e] + es)
  }

  function Assemble(values: seq<string>, payload: seq<(string, string)>): Message
    requires |values| == 8
  {
    Message(values[0], values[1], values[2], values[3], values[4], values[5], values[6], payload, values[7])
  }

  /** `parse_message` on text. */
  function Parse(rules: Rules, text: string): Result<Message, AcpError> {
    if text == [] || '\r' in text then Err(ParseError)
    else
      var lines := Split(text, '\n');
      if |lines| <= |HEADER_FIELDS| then Err(ParseError)
      else match ParseHeaders(HEADER_FIELDS, lines[..8])
        case None => Err(ParseError)
        case Some(values) =>
          match ParsePayload(lines[8..])
          case None => Err(ParseError)
          case Some(payload) =>
            if Valid(rules, Assemble(values, payload)) then Ok(Assemble(values, payload)) else Err(ParseError)
  }

  /** The headers read so far are a prefix of what the whole header block parses to. */
  ghost predicate HeadersRead(lines: seq<string>, i: nat, values: seq<string>)
    requires |lines| == 8 && i <= 8
  {
    |values| == i
    && match ParseHeaders(HEADER_FIELDS[i..], lines[i..])
       case None => ParseHeaders(HEADER_FIELDS, lines).None?
       case Some(vs) => ParseHeaders(HEADER_FIELDS, lines) == Some(values + vs)
  }

  lemma HeadersReadStart(lines: seq<string>)
    requires |lines| == 8
    ensures HeadersRead(lines, 0, [])
  {
    hide ParseHeaders;
    assert HEADER_FIELDS[0..] == HEADER_FIELDS && lines[0..] == lines;
    assert forall vs: seq<string> :: [] + vs == vs;
  }

  lemma HeadersReadStep(lines: seq<string>, i: nat, values: seq<string>)
    requires |lines| == 8 && i < 8 && HeadersRead(lines, i, values)
    ensures match HeaderValue(HEADER_FIELDS[i], lines[i])
            case None => ParseHeaders(HEADER_FIELDS, lines).None?
            case Some(v) => HeadersRead(lines, i + 1, values + [v])
  {
    hide HeaderValue, HEADER_FIELDS;
    assert |HEADER_FIELDS| == 8 by { NamesClean(); }
    assert HEADER_FIELDS[i..][1..] == HEADER_FIELDS[i + 1..] && lines[i..][1..] == lines[i + 1..];
    assert forall v: string, vs: seq<string> :: (values + [v]) + vs == values + ([v] + vs);
  }

  lemma HeadersReadEnd(lines: seq<string>, values: seq<string>)
    requires |lines| == 8 && HeadersRead(lines, 8, values)
    ensures ParseHeaders(HEADER_FIELDS, lines) == Some(values)
  {
    assert values + [] == values;
  }

  ghost predicate PayloadRead(lines: seq<string>, i: nat, payload: seq<(string, string)>)
    requires i <= |lines|
  {
    match ParsePayload(lines[i..])
    case None => ParsePayload(lines).None?
    case Some(es) => ParsePayload(lines) == Some(payload + es)
  }

  lemma PayloadReadStart(lines: seq<string>)
    ensures PayloadRead(lines, 0, [])
  {
    hide ParsePayload;
    assert lines[0..] == lines;
    assert forall es: seq<(string, string)> :: [] + es == es;
  }

  lemma PayloadReadStep(lines: seq<string>, i: nat, payload: seq<(string, string)>)
    requires i < |lines| && PayloadRead(lines, i, payload)
    ensures match ParseEntry(lines[i])
            case None => ParsePayload(lines).None?
            case Some(e) => PayloadRead(lines, i + 1, payload + [e])
  {
    hide ParseEntry;
    assert lines[i..][1..] == lines[i + 1..] && lines[i..][0] == lines[i];
    if ParseEntry(lines[i]).Some? && ParsePayload(lines[i + 1..]).Some? {
      var e, es := ParseEntry(lines[i]).value, ParsePayload(lines[i + 1..]).value;
      hide ParsePayload;
      assert (payload + [e]) + es == payload + ([e] + es);
    }
  }

  lemma PayloadReadEnd(lines: seq<string>, payload: seq<(string, string)>)
    requires PayloadRead(lines, |lines|, payload)
    ensures ParsePayload(lines) == Some(payload)
  {
    assert payload + [] == payload;
  }

  /** `parse_message` as it reads: headers in their fixed positions, then payload lines into a list. */
  method ParseMessage(rules: Rules, text: string) returns (r: Result<Message, AcpError>)
    ensures r == Parse(rules, text)
  {
    hide Valid, HeaderValue, ParseEntry, ParseHeaders, ParsePayload, HeadersRead, PayloadRead, Split;
    if text == [] || '\r' in text {
      return Err(ParseError);
    }
    var lines := Split(text, '\n');
    if |lines| <= |HEADER_FIELDS| {
      return Err(ParseError);
    }
    var headerLines, payloadLines := lines[..8], lines[8..];
    var values: seq<string> := [];
    HeadersReadStart(headerLines);
    for i := 0 to 8
      invariant |values| == i
      invariant HeadersRead(headerLines, i, values)
    {
      HeadersReadStep(headerLines, i, values);
      var value := HeaderValue(HEADER_FIELDS[i], headerLines[i]);
      if value.None? {
        return Err(ParseError);
      }
      values := values + [value.value];
    }
    HeadersReadEnd(headerLines, values);
    var payload: seq<(string, string)> := [];
    PayloadReadStart(payloadLines);
    for i := 0 to |payloadLines|
      invariant PayloadRead(payloadLines, i, payload)
    {
      PayloadReadStep(payloadLines, i, payload);
      var entry := ParseEntry(payloadLines[i]);
      if entry.None? {
        return Err(ParseError);
      }
      payload := payload + [entry.value];
    }
    PayloadReadEnd(payloadLines, payload);
    var message := Assemble(values, payload);
    r := if Valid(rules, message) then Ok(message) else Err(ParseError);
  }

  // ---------------------------------------------------------------- proofs

  /** Every header value of a valid message is a non-empty single line. */
  lemma HeaderValuesClean(rules: Rules, m: Message)
    requires Sound(rules) && Valid(rules, m)
    ensures forall v <- HeaderValues(m) :: v != [] && SingleLine(v)
  {
    hide ValidPayload, IsAgentId, IsUuid4, IsSha256, IsTimestamp, SingleLine, MESSAGE_TYPES, PayloadText;
    TypesClean(m.messageType);
    assert SingleLine(PROTOCOL) && SingleLine("BROADCAST") && SingleLine("NONE") by { SentinelsClean(); }
    Sha256Clean(m.payloadSha256);
    TimestampClean(rules, m.timestamp);
    AgentIdClean(m.sender);
    if m.recipient != "BROADCAST" && m.recipient != "NONE" {
      AgentIdClean(m.recipient);
    }
    UuidClean(m.correlation);
  }

  lemma TypesClean(t: string)
    requires t in MESSAGE_TYPES
    ensures SingleLine(t) && t != []
  {
    hide SingleLine, MESSAGE_TYPES;
    var i :| 0 <= i < |MESSAGE_TYPES| && MESSAGE_TYPES[i] == t;
    TypesCleanFirst();
    TypesCleanMiddle();
    TypesCleanLast();
  }

  lemma TypesCleanFirst()
    ensures |MESSAGE_TYPES| == 18
    ensures forall i :: 0 <= i < 6 ==> SingleLine(MESSAGE_TYPES[i]) && MESSAGE_TYPES[i] != []
  {
  }

  lemma TypesCleanMiddle()
    ensures |MESSAGE_TYPES| == 18
    ensures forall i :: 6 <= i < 12 ==> SingleLine(MESSAGE_TYPES[i]) && MESSAGE_TYPES[i] != []
  {
  }

  lemma TypesCleanLast()
    ensures |MESSAGE_TYPES| == 18
    ensures forall i :: 12 <= i < 18 ==> SingleLine(MESSAGE_TYPES[i]) && MESSAGE_TYPES[i] != []
  {
  }

  lemma SentinelsClean()
    ensures SingleLine(PROTOCOL) && SingleLine("BROADCAST") && SingleLine("NONE")
  {
  }

  lemma TimestampClean(rules: Rules, s: string)
    requires Sound(rules) && IsTimestamp(rules, s)
    ensures s != [] && SingleLine(s)
  {
    forall i | 0 <= i < 24 ensures s[i] != '\n' && s[i] != '\r' {
      if i !in {4, 7, 10, 13, 16, 19, 23} {
        assert rules.isDigit(s[i]);
      }
    }
  }

  lemma Sha256Clean(s: string)
    requires IsSha256(s)
    ensures s != [] && SingleLine(s)
  {
  }

  lemma UuidClean(s: string)
    requires IsUuid4(s)
    ensures s != [] && SingleLine(s)
  {
  }

  lemma AgentIdClean(s: string)
    requires IsAgentId(s)
    ensures s != [] && SingleLine(s)
  {
    var parts := Split(s, ':');
    JoinSplit(s, ':');
    UuidClean(parts[2]);
    forall p <- parts ensures SingleLine(p) {
      assert p == parts[0] || p == parts[1] || p == parts[2];
    }
    JoinChars(parts, ':', '\n');
    JoinChars(parts, ':', '\r');
  }

  lemma {:induction false} JoinAppend(a: seq<string>, b: seq<string>, sep: char)
    requires b != []
    ensures Join(a + [Join(b, sep)], sep) == Join(a + b, sep)
  {
    if a == [] {
      assert a + [Join(b, sep)] == [Join(b, sep)] && a + b == b;
    } else {
      assert (a + [Join(b, sep)])[1..] == a[1..] + [Join(b, sep)];
      assert (a + b)[1..] == a[1..] + b;
      JoinAppend(a[1..], b, sep);
    }
  }

  /** The lines of a message, headers first. */
  function Lines(m: Message): seq<string> {
    HeaderLines(HEADER_FIELDS, HeaderValues(m)) + EntryLines(m.payload)
  }

  lemma WireTextLines(m: Message)
    requires m.payload != []
    ensures WireText(m) == Join(Lines(m), '\n')
  {
    JoinAppend(HeaderLines(HEADER_FIELDS, HeaderValues(m)), EntryLines(m.payload), '\n');
  }

  lemma HeaderLineReads(name: string, value: string)
    requires value != []
    ensures HeaderValue(name, HeaderLine(name, value)) == Some(value)
  {
  }

  lemma HeaderLineWrites(name: string, line: string)
    requires HeaderValue(name, line).Some?
    ensures HeaderLine(name, HeaderValue(name, line).value) == line
  {
  }

  lemma {:induction false} ParseHeadersPrinted(names: seq<string>, values: seq<string>)
    requires |names| == |values| && forall v <- values :: v != []
    ensures ParseHeaders(names, HeaderLines(names, values)) == Some(values)
  {
    if names != [] {
      assert values[0] in values;
      HeaderLineReads(names[0], values[0]);
      assert forall v <- values[1..] :: v in values;
      ParseHeadersPrinted(names[1..], values[1..]);
      assert HeaderLines(names, values)[1..] == HeaderLines(names[1..], values[1..]);
      assert values == [values[0]] + values[1..];
    }
  }

  lemma {:induction false} PrintHeadersParsed(names: seq<string>, lines: seq<string>)
    requires |names| == |lines| && ParseHeaders(names, lines).Some?
    ensures HeaderLines(names, ParseHeaders(names, lines).value) == lines
  {
    if names != [] {
      HeaderLineWrites(names[0], lines[0]);
      PrintHeadersParsed(names[1..], lines[1..]);
    }
  }

  lemma EntryReads(e: (string, string))
    requires IsFieldName(e.0)
    ensures ParseEntry(Entry(e)) == Some(e)
  {
    var line := Entry(e);
    assert line[|e.0|] == ':';
    assert forall j :: 0 <= j < |e.0| ==> line[j] == e.0[j] && e.0[j] in e.0;
    var i := IndexOf(line, ':');
    assert i == |e.0|;
    assert line[..i] == e.0 && line[i + 1..] == e.1;
  }

  lemma {:induction false} ParsePayloadPrinted(payload: seq<(string, string)>)
    requires forall e <- payload :: IsFieldName(e.0)
    ensures ParsePayload(EntryLines(payload)) == Some(payload)
  {
    if payload != [] {
      hide IsFieldName, ParseEntry, Entry;
      EntryReads(payload[0]);
      ghost var first, rest := Entry(payload[0]), EntryLines(payload[1..]);
      assert EntryLines(payload) == [first] + rest;
      assert forall i :: 0 <= i < |payload| - 1 ==> payload[1..][i] == payload[i + 1];
      ParsePayloadPrinted(payload[1..]);
      hide EntryLines;
      assert ([first] + rest)[1..] == rest;
      assert payload == [payload[0]] + payload[1..];
    }
  }

  lemma {:induction false} PrintPayloadParsed(lines: seq<string>)
    requires ParsePayload(lines).Some?
    ensures EntryLines(ParsePayload(lines).value) == lines
  {
    if lines != [] {
      PrintPayloadParsed(lines[1..]);
      var i := IndexOf(lines[0], ':');
      assert lines[0] == lines[0][..i] + ":" + lines[0][i + 1..];
    }
  }

  lemma PayloadClean(rules: Rules, m: Message)
    requires Valid(rules, m)
    ensures m.payload != [] && forall e <- m.payload :: IsFieldName(e.0) && SingleLine(e.1)
  {
    hide IsFieldName, FieldOrder, Required, IsAgentId, IsUuid4;
    forall e <- m.payload ensures IsFieldName(e.0) {
      var i :| 0 <= i < |m.payload| && m.payload[i] == e;
      assert Fields(m.payload)[i] == e.0;
    }
  }

  lemma LineClean(a: string, b: string)
    requires SingleLine(a) && SingleLine(b)
    ensures SingleLine(a + ":" + b)
  {
  }

  lemma LinesClean(rules: Rules, m: Message)
    requires Sound(rules) && Valid(rules, m)
    ensures forall l <- Lines(m) :: SingleLine(l)
  {
    hide Valid, Sound, HeaderLines, EntryLines, HEADER_FIELDS;
    HeaderValuesClean(rules, m);
    PayloadClean(rules, m);
    var values := HeaderValues(m);
    NamesClean();
    forall i | 0 <= i < 8 ensures SingleLine(HeaderLine(HEADER_FIELDS[i], values[i])) {
      LineClean(HEADER_FIELDS[i], values[i]);
    }
    forall e <- m.payload ensures SingleLine(Entry(e)) {
      FieldNameClean(e.0);
      LineClean(e.0, e.1);
    }
  }

  lemma FieldNameClean(s: string)
    requires IsFieldName(s)
    ensures SingleLine(s)
  {
  }

  lemma NamesClean()
    ensures |HEADER_FIELDS| == 8 && forall i :: 0 <= i < 8 ==> SingleLine(HEADER_FIELDS[i])
  {
  }

  /** Printing then parsing. */
  lemma ParseSerialized(rules: Rules, m: Message)
    requires Sound(rules) && Valid(rules, m)
    ensures Parse(rules, WireText(m)) == Ok(m)
  {
    hide Valid, Sound, HeaderLines, EntryLines, ParseHeaders, ParsePayload, WireText;
    var t, lines := WireText(m), Lines(m);
    PayloadClean(rules, m);
    HeaderValuesClean(rules, m);
    LinesClean(rules, m);
    WireTextLines(m);
    SplitJoin(lines, '\n');
    JoinChars(lines, '\n', '\r');
    assert lines[..8] == HeaderLines(HEADER_FIELDS, HeaderValues(m)) && lines[8..] == EntryLines(m.payload);
    ParseHeadersPrinted(HEADER_FIELDS, HeaderValues(m));
    ParsePayloadPrinted(m.payload);
    assert t == [] ==> |Split(t, '\n')| == 1;
  }

  /** Parsing then printing. */
  lemma SerializeParsed(rules: Rules, t: string, m: Message)
    requires Parse(rules, t) == Ok(m)
    ensures Valid(rules, m) && WireText(m) == t
  {
    hide Valid, HeaderLines, EntryLines, ParseHeaders, ParsePayload, WireText;
    var lines := Split(t, '\n');
    JoinSplit(t, '\n');
    PrintHeadersParsed(HEADER_FIELDS, lines[..8]);
    PrintPayloadParsed(lines[8..]);
    var values := ParseHeaders(HEADER_FIELDS, lines[..8]).value;
    assert HeaderValues(m) == values;
    assert Lines(m) == lines[..8] + lines[8..] == lines;
    WireTextLines(m);
  }

  /** Accepted texts and valid messages are in bijection: each determines the other. */
  lemma WireBijection(rules: Rules, m: Message, t: string)
    requires Sound(rules)
    ensures Serialize(rules, m) == Ok(t) <==> Parse(rules, t) == Ok(m)
  {
    hide Valid, Sound, WireText, Parse;
    if Valid(rules, m) {
      ParseSerialized(rules, m);
    }
    if Parse(rules, t) == Ok(m) {
      SerializeParsed(rules, t, m);
    }
  }

  // ---------------------------------------------------------------- forced field order

  /** Positions in the field order climb strictly along a valid payload. */
  ghost predicate Climbs(order: seq<string>, payload: seq<(string, string)>) {
    && (forall e <- payload :: e.0 in order)
    && (forall i, j :: 0 <= i < j < |payload| ==>
          payload[i].0 in order && payload[j].0 in order
          && IndexOf(order, payload[i].0) < IndexOf(order, payload[j].0))
  }

  lemma ValidClimbs(t: string, payload: seq<(string, string)>)
    requires ValidPayload(t, payload)
    ensures Climbs(FieldOrder(t), payload)
  {
    hide FieldOrder, Required, Optional, IsFieldName, IndexOf;
    var fields, order := Fields(payload), FieldOrder(t);
    forall e <- payload ensures e.0 in order {
      var i :| 0 <= i < |payload| && payload[i] == e;
      assert fields[i] in fields;
    }
    forall i, j | 0 <= i < j < |payload|
      ensures payload[i].0 in order && payload[j].0 in order
              && IndexOf(order, payload[i].0) < IndexOf(order, payload[j].0)
    {
      assert fields[i] in fields && fields[j] in fields && fields[i] != fields[j];
      assert order[IndexOf(order, fields[i])] == fields[i];
      assert order[IndexOf(order, fields[j])] == fields[j];
    }
  }

  lemma ClimbsTail(order: seq<string>, payload: seq<(string, string)>)
    requires Climbs(order, payload) && payload != []
    ensures Climbs(order, payload[1..])
    ensures Elements(payload[1..]) == Elements(payload) - {payload[0]}
  {
    hide IndexOf;
    var tail := payload[1..];
    assert payload == [payload[0]] + tail;
    forall j | 0 <= j < |tail| ensures tail[j] != payload[0] {
      assert tail[j] == payload[j + 1];
    }
    assert forall e <- tail :: e in payload;
  }

  /** The first entry is the only one with no entry before it in the field order. */
  lemma SameFirst(order: seq<string>, a: seq<(string, string)>, b: seq<(string, string)>)
    requires Climbs(order, a) && Climbs(order, b) && a != [] && b != [] && Elements(a) == Elements(b)
    ensures a[0] == b[0]
  {
    hide IndexOf;
    assert a[0] in Elements(a) && b[0] in Elements(b);
    var i :| 0 <= i < |b| && b[i] == a[0];
    var j :| 0 <= j < |a| && a[j] == b[0];
  }

  lemma {:induction false} ClimbsUnique(order: seq<string>, a: seq<(string, string)>, b: seq<(string, string)>)
    requires Climbs(order, a) && Climbs(order, b) && Elements(a) == Elements(b)
    ensures a == b
  {
    hide Climbs;
    assert |a| > 0 ==> a[0] in Elements(b);
    assert |b| > 0 ==> b[0] in Elements(a);
    if a != [] && b != [] {
      SameFirst(order, a, b);
      ClimbsTail(order, a);
      ClimbsTail(order, b);
      ClimbsUnique(order, a[1..], b[1..]);
      assert a == [a[0]] + a[1..] && b == [b[0]] + b[1..];
    }
  }

  /** A valid payload is determined by its type and the set of its field-value pairs. */
  lemma PayloadDetermined(t: string, a: seq<(string, string)>, b: seq<(string, string)>)
    requires ValidPayload(t, a) && ValidPayload(t, b)
    ensures a == b <==> Elements(a) == Elements(b)
  {
    hide ValidPayload, Climbs, FieldOrder;
    ValidClimbs(t, a);
    ValidClimbs(t, b);
    if Elements(a) == Elements(b) {
      ClimbsUnique(FieldOrder(t), a, b);
    }
  }
}
