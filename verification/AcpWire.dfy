/** Which texts ACP accepts, said on the text itself. */
module AcpWire {
  import opened Prelude
  import opened Text
  import opened Acp

  // ---------------------------------------------------------------- patterns

  const HEX := "0123456789abcdef"

  const LOWER := "abcdefghijklmnopqrstuvwxyz"

  /** In a pattern `h` stands for a hexadecimal digit, `v` for the variant digit, `d` for a digit. */
  predicate Fits(rules: Rules, c: char, p: char) {
    match p
    case 'h' => c in HEX
    case 'v' => c in "89ab"
    case 'd' => rules.isDigit(c)
    case _ => c == p
  }

  predicate Matches(rules: Rules, s: string, pattern: string) {
    |s| == |pattern| && forall i :: 0 <= i < |s| ==> Fits(rules, s[i], pattern[i])
  }

  const UUID4 := "hhhhhhhh-hhhh-4hhh-vhhh-hhhhhhhhhhhh"

  const INSTANT := "dddd-dd-ddTdd:dd:dd.dddZ"

  lemma HexDigits(c: char)
    ensures IsLowerHex(c) <==> c in HEX
  {
  }

  lemma UuidPattern(rules: Rules, s: string)
    ensures IsUuid4(s) <==> Matches(rules, s, UUID4)
  {
    hide IsLowerHex;
    if |s| == 36 {
      forall i | 0 <= i < 36 ensures IsLowerHex(s[i]) <==> s[i] in HEX {
        HexDigits(s[i]);
      }
      UuidSpots();
      if IsUuid4(s) {
        forall i | 0 <= i < 36 ensures Fits(rules, s[i], UUID4[i]) {
          assert if i in {8, 13, 18, 23} then s[i] == '-' else IsLowerHex(s[i]);
        }
      }
      if Matches(rules, s, UUID4) {
        assert Fits(rules, s[14], UUID4[14]) && Fits(rules, s[19], UUID4[19]);
        forall i | 0 <= i < 36 ensures if i in {8, 13, 18, 23} then s[i] == '-' else IsLowerHex(s[i]) {
          assert Fits(rules, s[i], UUID4[i]);
        }
      }
    }
  }

  lemma UuidSpots()
    ensures |UUID4| == 36 && UUID4[14] == '4' && UUID4[19] == 'v'
    ensures forall i :: 0 <= i < 36 && i != 14 && i != 19 ==> UUID4[i] == if i in {8, 13, 18, 23} then '-' else 'h'
  {
  }

  lemma InstantPattern(rules: Rules, s: string)
    ensures IsTimestamp(rules, s) <==> Matches(rules, s, INSTANT) && rules.calendarOk(s)
  {
    InstantSpots();
    if |s| == 24 && Matches(rules, s, INSTANT) {
      assert forall i :: 0 <= i < 24 ==> Fits(rules, s[i], INSTANT[i]);
      assert Fits(rules, s[4], '-') && Fits(rules, s[7], '-') && Fits(rules, s[10], 'T') && Fits(rules, s[13], ':');
      assert Fits(rules, s[16], ':') && Fits(rules, s[19], '.') && Fits(rules, s[23], 'Z');
    }
  }

  lemma InstantSpots()
    ensures |INSTANT| == 24
    ensures INSTANT[4] == INSTANT[7] == '-' && INSTANT[10] == 'T' && INSTANT[13] == INSTANT[16] == ':'
    ensures INSTANT[19] == '.' && INSTANT[23] == 'Z'
    ensures forall i :: 0 <= i < 24 && i !in {4, 7, 10, 13, 16, 19, 23} ==> INSTANT[i] == 'd'
  {
  }

  predicate Digest(s: string) {
    |s| == 64 && forall c <- s :: c in HEX
  }

  lemma DigestPattern(s: string)
    ensures IsSha256(s) <==> Digest(s)
  {
    hide IsLowerHex;
    forall c | c in s ensures IsLowerHex(c) <==> c in HEX {
      HexDigits(c);
    }
  }

  /** `AGENT:`, a kind in lower case that starts with a letter, a colon, and a version-4 UUID. */
  ghost predicate Agent(rules: Rules, s: string) {
    exists kind, id :: s == "AGENT:" + kind + ":" + id && Kind(kind) && Matches(rules, id, UUID4)
  }

  predicate Kind(s: string) {
    s != [] && s[0] in LOWER && forall c <- s :: c in LOWER || c in "0123456789-"
  }

  lemma KindPattern(s: string)
    ensures IsAgentType(s) <==> Kind(s)
  {
    forall c | c in s ensures 'a' <= c <= 'z' <==> c in LOWER {
      LowerLetters(c);
    }
    forall c | c in s ensures ('0' <= c <= '9' || c == '-') <==> c in "0123456789-" {
      TailCharacters(c);
    }
    assert s != [] ==> s[0] in s;
    hide *;
  }

  lemma LowerLetters(c: char)
    ensures 'a' <= c <= 'z' <==> c in LOWER
  {
  }

  lemma TailCharacters(c: char)
    ensures '0' <= c <= '9' || c == '-' <==> c in "0123456789-"
  {
  }

  lemma AgentPattern(rules: Rules, s: string)
    ensures IsAgentId(s) <==> Agent(rules, s)
  {
    hide Kind, IsAgentType, Matches, IsUuid4, UUID4;
    if IsAgentId(s) {
      var parts := Split(s, ':');
      JoinSplit(s, ':');
      KindPattern(parts[1]);
      UuidPattern(rules, parts[2]);
      assert parts == ["AGENT", parts[1], parts[2]];
      JoinThree("AGENT", parts[1], parts[2]);
      assert s == "AGENT:" + parts[1] + ":" + parts[2];
    }
    if Agent(rules, s) {
      var kind, id :| s == "AGENT:" + kind + ":" + id && Kind(kind) && Matches(rules, id, UUID4);
      KindPattern(kind);
      UuidPattern(rules, id);
      NoColon(kind, id);
      JoinThree("AGENT", kind, id);
      assert s == Join(["AGENT", kind, id], ':');
      SplitJoin(["AGENT", kind, id], ':');
    }
  }

  lemma JoinThree(a: string, b: string, c: string)
    ensures Join([a, b, c], ':') == a + ":" + b + ":" + c
  {
    assert [a, b, c][1..] == [b, c] && [b, c][1..] == [c];
    assert Join([b, c], ':') == b + [':'] + Join([c], ':');
    assert Join([c], ':') == c;
  }

  lemma NoColon(kind: string, id: string)
    requires IsAgentType(kind) && IsUuid4(id)
    ensures ':' !in "AGENT" && ':' !in kind && ':' !in id
  {
  }

  // ---------------------------------------------------------------- the fields of every message type

  /** The field lists that a message of this type may carry, in this order; none for an unknown type. */
  function Shapes(t: string): seq<seq<string>> {
    match t
    case "ASSIGNMENT" => [["OBJECTIVE", "BOUNDARIES", "AUTHORITY", "DELIVERABLES", "PRIORITY", "VALUE"]]
    case "STATUS_UPDATE" => [["STEP", "PROGRESS-PERCENT", "BLOCKERS", "RESOURCE-USAGE", "NEXT-EXPECTED-OUTCOME"]]
    case "PROGRESS" => [["COMPLETED-STEP", "EVIDENCE-REF", "OUTCOME", "NEXT-STEP"]]
    case "EVIDENCE" =>
      [["TYPE", "REFERENCE", "HASH", "CONTEXT"], ["TYPE", "REFERENCE", "HASH", "CONTEXT", "TIME-RANGE"]]
    case "QUESTION" =>
      [["WHAT-IS-NEEDED", "WHY-NEEDED", "CONTEXT-REFERENCE"],
       ["WHAT-IS-NEEDED", "WHY-NEEDED", "CONTEXT-REFERENCE", "RESPONSE-DEADLINE"]]
    case "ESCALATION" =>
      [["ISSUE-TYPE", "DESCRIPTION", "EVIDENCE-REF", "IMPACT", "REQUESTED-ACTION", "TIME-BLOCKED"]]
    case "WARNING" =>
      [["CONDITION", "POTENTIAL-IMPACT", "TIME-OBSERVED"],
       ["CONDITION", "POTENTIAL-IMPACT", "SUGGESTED-MITIGATION", "TIME-OBSERVED"]]
    case "FAILURE" =>
      [["ERROR-CODE", "MESSAGE", "STACK-TRACE-or-LOG-REF", "ROOT-CAUSE-HYPOTHESIS", "RECOVERABLE",
        "SUGGECTED-NEXT-STEP"]]
    case "RECOVERY" =>
      [["FAILURE-REF", "RECOVERY-POINT", "STATE-CORRECTIONS", "VALIDATION-REF", "READY-TO-RESUME"]]
    case "VALIDATION" => [["GATE", "RESULT", "FINDINGS", "EVIDENCE-REF", "REQUIRED-ACTIONS", "RETRY-ALLOWED"]]
    case "APPROVAL" =>
      [["APPROVING-AGENT", "ITEM-APPROVED", "APPROVAL-TYPE", "CONDITIONS"],
       ["APPROVING-AGENT", "ITEM-APPROVED", "APPROVAL-TYPE", "CONDITIONS", "EFFECTIVE-UNTIL"]]
    case "COMPLETION" =>
      [["ALL-GATES-PASSED", "DELIVERABLES-REF", "OUTCOME-VALUE", "HANDOFF-READY"],
       ["ALL-GATES-PASSED", "DELIVERABLES-REF", "OUTCOME-VALUE", "HANDOFF-READY", "POST-COMPLETION-NOTES"]]
    case "CANCELLATION" =>
      [["CANCELLING-AGENT", "REASON", "JUSTIFICATION", "PARTIAL-WORK-STATUS", "NOTIFICATION-REQ"]]
    case "REVIEW" =>
      [["ITEM-UNDER-REVIEW", "REVIEW-TYPE", "FEEDBACK-REQUESTED", "CONTEXT"],
       ["ITEM-UNDER-REVIEW", "REVIEW-TYPE", "FEEDBACK-REQUESTED", "DEADLINE", "CONTEXT"]]
    case "DECISION" =>
      [["DECISION-ID", "CHOSEN-OPTION", "ALTERNATIVES-CONSIDERED", "EVIDENCE-BASIS", "EXPECTED-IMPACT",
        "REVERSIBLE", "REVERSIBILITY-CONDITIONS"]]
    case "KNOWLEDGE_UPDATE" =>
      [["KNOWLEDGE-TYPE", "TITLE", "DESCRIPTION", "APPLICABLE-SCOPE", "EVIDENCE-REF", "ENTRY-TIME"]]
    case "MISSION_UPDATE" =>
      [["FIELD-CHANGED", "OLD-VALUE", "NEW-VALUE", "CHANGE-REASON", "EFFECTIVE-IMMEDIATELY",
        "ACKNOWLEDGMENT-REQ"]]
    case "HEARTBEAT" =>
      [["STATUS", "CURRENT-TASK", "RESOURCE-LOAD", "LAST-HEARTBEAT"],
       ["STATUS", "CURRENT-TASK", "RESOURCE-LOAD", "LAST-HEARTBEAT", "NOTES"]]
    case _ => []
  }

  lemma TypeTable(t: string)
    ensures t in MESSAGE_TYPES <==> Shapes(t) != []
  {
    hide Shapes;
    TypesKnown();
    if Shapes(t) != [] {
      ShapesKnown(t);
    }
  }

  lemma TypesKnown()
    ensures forall t <- MESSAGE_TYPES :: Shapes(t) != []
  {
  }

  lemma ShapesKnown(t: string)
    requires Shapes(t) != []
    ensures t in MESSAGE_TYPES
  {
    var types := MESSAGE_TYPES;
    assert types[0] == "ASSIGNMENT" && types[1] == "STATUS_UPDATE" && types[2] == "PROGRESS" && types[3] == "EVIDENCE";
    assert types[4] == "QUESTION" && types[5] == "ESCALATION" && types[6] == "WARNING" && types[7] == "FAILURE";
    assert types[8] == "RECOVERY" && types[9] == "VALIDATION" && types[10] == "APPROVAL";
    assert types[11] == "COMPLETION" && types[12] == "CANCELLATION" && types[13] == "REVIEW";
    assert types[14] == "DECISION" && types[15] == "KNOWLEDGE_UPDATE" && types[16] == "MISSION_UPDATE";
    assert types[17] == "HEARTBEAT";
  }

  /** The three tables of the source agree with the list above, and no field is listed twice. */
  ghost predicate Tabled(t: string) {
    && Shapes(t) == (if Optional(t) == [] then [Required(t)] else [Required(t), FieldOrder(t)])
    && Distinct(FieldOrder(t))
    && Arranged(Required(t), Optional(t), FieldOrder(t))
  }

  /** The order is the required fields with at most one optional field put in somewhere. */
  ghost predicate Arranged(required: seq<string>, optional: seq<string>, order: seq<string>) {
    if optional == [] then order == required
    else
      |optional| == 1
      && exists k: nat :: k < |order| && order[k] == optional[0] && required == order[..k] + order[k + 1..]
  }

  lemma Tables0()
    ensures Tabled("ASSIGNMENT")
  {
  }

  lemma Tables1()
    ensures Tabled("STATUS_UPDATE")
  {
  }

  lemma Tables2()
    ensures Tabled("PROGRESS")
  {
  }

  lemma Tables3()
    ensures Tabled("EVIDENCE")
  {
    var order := FieldOrder("EVIDENCE");
    assert order == Shapes("EVIDENCE")[1];
    assert Required("EVIDENCE") == order[..4] + order[4 + 1..];
  }

  lemma Tables4()
    ensures Tabled("QUESTION")
  {
    var order := FieldOrder("QUESTION");
    assert order == Shapes("QUESTION")[1];
    assert Required("QUESTION") == order[..3] + order[3 + 1..];
  }

  lemma Tables5()
    ensures Tabled("ESCALATION")
  {
  }

  lemma Tables6()
    ensures Tabled("WARNING")
  {
    var order := FieldOrder("WARNING");
    assert order == Shapes("WARNING")[1];
    assert Required("WARNING") == order[..2] + order[2 + 1..];
  }

  lemma Tables7()
    ensures Tabled("FAILURE")
  {
  }

  lemma Tables8()
    ensures Tabled("RECOVERY")
  {
  }

  lemma Tables9()
    ensures Tabled("VALIDATION")
  {
  }

  lemma Tables10()
    ensures Tabled("APPROVAL")
  {
    var order := FieldOrder("APPROVAL");
    assert order == Shapes("APPROVAL")[1];
    assert Required("APPROVAL") == order[..4] + order[4 + 1..];
  }

  lemma Tables11()
    ensures Tabled("COMPLETION")
  {
    var order := FieldOrder("COMPLETION");
    assert order == Shapes("COMPLETION")[1];
    assert Required("COMPLETION") == order[..4] + order[4 + 1..];
  }

  lemma Tables12()
    ensures Tabled("CANCELLATION")
  {
  }

  lemma Tables13()
    ensures Tabled("REVIEW")
  {
    var order := FieldOrder("REVIEW");
    assert order == Shapes("REVIEW")[1];
    assert Required("REVIEW") == order[..3] + order[3 + 1..];
  }

  lemma Tables14()
    ensures Tabled("DECISION")
  {
  }

  lemma Tables15()
    ensures Tabled("KNOWLEDGE_UPDATE")
  {
  }

  lemma Tables16()
    ensures Tabled("MISSION_UPDATE")
  {
  }

  lemma Tables17()
    ensures Tabled("HEARTBEAT")
  {
    var order := FieldOrder("HEARTBEAT");
    assert order == Shapes("HEARTBEAT")[1];
    assert Required("HEARTBEAT") == order[..4] + order[4 + 1..];
  }

  lemma TableAll(t: string)
    requires t in MESSAGE_TYPES
    ensures Tabled(t)
  {
    hide Tabled;
    Tables0();
    Tables1();
    Tables2();
    Tables3();
    Tables4();
    Tables5();
    Tables6();
    Tables7();
    Tables8();
    Tables9();
    Tables10();
    Tables11();
    Tables12();
    Tables13();
    Tables14();
    Tables15();
    Tables16();
    Tables17();
    TypeNames();
  }

  lemma TypeNames()
    ensures MESSAGE_TYPES[0..9] == ["ASSIGNMENT", "STATUS_UPDATE", "PROGRESS", "EVIDENCE", "QUESTION", "ESCALATION",
                                    "WARNING", "FAILURE", "RECOVERY"]
    ensures MESSAGE_TYPES[9..] == ["VALIDATION", "APPROVAL", "COMPLETION", "CANCELLATION", "REVIEW", "DECISION",
                                   "KNOWLEDGE_UPDATE", "MISSION_UPDATE", "HEARTBEAT"]
    ensures MESSAGE_TYPES == MESSAGE_TYPES[0..9] + MESSAGE_TYPES[9..]
  {
  }

  // ---------------------------------------------------------------- exactly these field lists

  /** The fields climb in the order, hold all required ones and nothing unknown. */
  ghost predicate Climbing(required: seq<string>, order: seq<string>, fields: seq<string>) {
    && Distinct(fields)
    && (forall f <- required :: f in fields)
    && (forall f <- fields :: f in order)
    && (forall i, j :: 0 <= i < j < |fields| ==> IndexOf(order, fields[i]) <= IndexOf(order, fields[j]))
  }

  lemma PlaceOf(order: seq<string>, i: nat)
    requires Distinct(order) && i < |order|
    ensures IndexOf(order, order[i]) == i
  {
  }

  /** Two climbing lists of the same fields are the same list. */
  lemma ClimbsSame(order: seq<string>, a: seq<string>, b: seq<string>)
    requires Climbing([], order, a) && Climbing([], order, b) && forall f :: f in a <==> f in b
    ensures a == b
  {
    hide Climbing;
    ClimbsBare(order, a);
    ClimbsBare(order, b);
    forall e ensures e in Elements(Bare(a)) <==> e in Elements(Bare(b)) {
      BareHas(a, e);
      BareHas(b, e);
    }
    ClimbsUnique(order, Bare(a), Bare(b));
    assert forall i :: 0 <= i < |a| ==> Bare(a)[i].0 == a[i];
    assert forall i :: 0 <= i < |b| ==> Bare(b)[i].0 == b[i];
    assert |Bare(a)| == |a| && |Bare(b)| == |b|;
  }

  function Bare(fields: seq<string>): (r: seq<(string, string)>)
    ensures |r| == |fields| && forall i :: 0 <= i < |r| ==> r[i] == (fields[i], "")
  {
    seq(|fields|, i requires 0 <= i < |fields| => (fields[i], ""))
  }

  lemma BareHas(fields: seq<string>, e: (string, string))
    ensures e in Elements(Bare(fields)) <==> e.0 in fields && e.1 == ""
  {
    if e.0 in fields && e.1 == "" {
      var i :| 0 <= i < |fields| && fields[i] == e.0;
      assert Bare(fields)[i] == e;
    }
  }

  lemma ClimbsBare(order: seq<string>, fields: seq<string>)
    requires Climbing([], order, fields)
    ensures Climbs(order, Bare(fields))
  {
    hide IndexOf;
    forall e <- Bare(fields) ensures e.0 in order {
      BareHas(fields, e);
    }
    forall i, j | 0 <= i < j < |fields|
      ensures fields[i] in order && fields[j] in order && IndexOf(order, fields[i]) < IndexOf(order, fields[j])
    {
      assert fields[i] in fields && fields[j] in fields && fields[i] != fields[j];
      assert order[IndexOf(order, fields[i])] == fields[i] && order[IndexOf(order, fields[j])] == fields[j];
    }
  }

  /** A distinct order climbs in itself, also with one field left out. */
  lemma PartsClimb(order: seq<string>, part: seq<string>, k: nat)
    requires Distinct(order) && (part == order || (k < |order| && part == order[..k] + order[k + 1..]))
    ensures Climbing([], order, part)
  {
    hide IndexOf;
    forall i | 0 <= i < |order| ensures IndexOf(order, order[i]) == i {
      PlaceOf(order, i);
    }
    if part != order {
      assert forall i :: 0 <= i < |part| ==> part[i] == order[if i < k then i else i + 1];
    }
  }

  lemma ArrangedFields(required: seq<string>, optional: seq<string>, order: seq<string>, fields: seq<string>)
    requires Distinct(order) && Arranged(required, optional, order)
    ensures Climbing(required, order, fields) <==> fields == required || fields == order
  {
    hide IndexOf, Climbing;
    var k: nat := 0;
    if optional != [] {
      k :| k < |order| && order[k] == optional[0] && required == order[..k] + order[k + 1..];
    }
    PartsClimb(order, order, 0);
    PartsClimb(order, required, k);
    RequiredIn(required, optional, order, k);
    if Climbing(required, order, fields) {
      ClimbingParts(required, order, fields);
      if optional != [] && order[k] !in fields {
        ClimbsSame(order, fields, required);
      } else {
        ClimbsSame(order, fields, order);
      }
    }
    if fields == required || fields == order {
      ClimbingWhole(required, order, fields);
    }
  }

  lemma ClimbingParts(required: seq<string>, order: seq<string>, fields: seq<string>)
    requires Climbing(required, order, fields)
    ensures Climbing([], order, fields)
    ensures (forall f <- required :: f in fields) && forall f <- fields :: f in order
  {
  }

  lemma ClimbingWhole(required: seq<string>, order: seq<string>, fields: seq<string>)
    requires Climbing([], order, fields) && forall f <- required :: f in fields
    ensures Climbing(required, order, fields)
  {
  }

  lemma RequiredIn(required: seq<string>, optional: seq<string>, order: seq<string>, k: nat)
    requires Arranged(required, optional, order)
    requires optional == [] || (k < |order| && required == order[..k] + order[k + 1..])
    ensures forall f <- required :: f in order
    ensures forall f <- order :: f in required || (optional != [] && f == order[k])
  {
    if optional != [] {
      forall f <- order | f != order[k] ensures f in required {
        var i :| 0 <= i < |order| && order[i] == f;
        assert required[if i < k then i else i - 1] == f;
      }
    }
  }

  const UPPER := "ABCDEFGHIJKLMNOPQRSTUVWXYZ"

  /** A letter, then letters, digits and hyphens. */
  predicate FieldName(s: string) {
    s != "" && (s[0] in UPPER || s[0] in LOWER)
    && forall c <- s :: c in UPPER || c in LOWER || c in "0123456789-"
  }

  lemma FieldNamePattern(s: string)
    ensures IsFieldName(s) <==> FieldName(s)
  {
    forall c | c in s ensures ('A' <= c <= 'Z' <==> c in UPPER) && ('a' <= c <= 'z' <==> c in LOWER) {
      UpperLetters(c);
      LowerLetters(c);
    }
    forall c | c in s ensures ('0' <= c <= '9' || c == '-') <==> c in "0123456789-" {
      TailCharacters(c);
    }
    assert s != "" ==> s[0] in s;
    hide *;
  }

  lemma UpperLetters(c: char)
    ensures 'A' <= c <= 'Z' <==> c in UPPER
  {
  }

  predicate Filled(payload: seq<(string, string)>) {
    forall e <- payload :: FieldName(e.0) && e.1 != "" && '\n' !in e.1 && '\r' !in e.1
  }

  /** A payload is valid exactly when its field list is one of the two or one that its type may carry. */
  lemma PayloadShape(t: string, payload: seq<(string, string)>)
    requires t in MESSAGE_TYPES
    ensures ValidPayload(t, payload) <==> Fields(payload) in Shapes(t) && Filled(payload)
  {
    hide Required, Optional, FieldOrder, Shapes, IsFieldName, FieldName, IndexOf, Arranged, MESSAGE_TYPES;
    hide ValidPayload, Climbing;
    TableAll(t);
    ArrangedFields(Required(t), Optional(t), FieldOrder(t), Fields(payload));
    SomeRequired(t);
    NoOptional(t);
    FieldNames(payload);
    assert Fields(payload) in Shapes(t) <==> Fields(payload) == Required(t) || Fields(payload) == FieldOrder(t);
    ValidIsClimbing(t, payload);
  }

  lemma ValidIsClimbing(t: string, payload: seq<(string, string)>)
    ensures ValidPayload(t, payload) <==>
            payload != [] && Climbing(Required(t), FieldOrder(t), Fields(payload))
            && (forall f <- Fields(payload) :: IsFieldName(f)) && (forall e <- payload :: e.1 != [] && SingleLine(e.1))
  {
    hide Required, FieldOrder, IsFieldName, IndexOf;
  }

  lemma NoOptional(t: string)
    requires Tabled(t)
    ensures Optional(t) == [] ==> FieldOrder(t) == Required(t)
    ensures Required(t) != [] ==> FieldOrder(t) != []
  {
    hide Required, FieldOrder, Shapes;
  }

  lemma SomeRequired(t: string)
    requires t in MESSAGE_TYPES
    ensures Required(t) != []
  {
  }

  lemma FieldNames(payload: seq<(string, string)>)
    ensures (forall f <- Fields(payload) :: IsFieldName(f)) <==> forall e <- payload :: FieldName(e.0)
  {
    hide IsFieldName, FieldName;
    forall e | e in payload ensures IsFieldName(e.0) <==> FieldName(e.0) {
      FieldNamePattern(e.0);
    }
    forall e <- payload ensures e.0 in Fields(payload) {
      var i :| 0 <= i < |payload| && payload[i] == e;
      assert Fields(payload)[i] == e.0;
    }
    forall f <- Fields(payload) ensures exists e :: e in payload && e.0 == f {
      var i :| 0 <= i < |payload| && Fields(payload)[i] == f;
      assert payload[i] in payload;
    }
  }

  // ---------------------------------------------------------------- exactly these texts

  /** The text of a message: eight header lines in their fixed places, then the payload. */
  function Spelled(m: Message): string {
    Join(FirstSeven(m) + ["PAYLOAD-SHA256:" + m.payloadSha256, Body(m.payload)], '\n')
  }

  function FirstSeven(m: Message): seq<string> {
    ["PROTOCOL:" + m.protocol, "TYPE:" + m.messageType, "FROM:" + m.sender, "TO:" + m.recipient,
     "MISSION:" + m.mission, "TIMESTAMP:" + m.timestamp, "CORRELATION:" + m.correlation]
  }

  /** One line for every field, its name and value around the first colon. */
  function Body(payload: seq<(string, string)>): string {
    if payload == [] then ""
    else if |payload| == 1 then payload[0].0 + ":" + payload[0].1
    else payload[0].0 + ":" + payload[0].1 + "\n" + Body(payload[1..])
  }

  /** What a message has to satisfy, in the terms of the wire. */
  ghost predicate Admissible(rules: Rules, m: Message) {
    && m.protocol == "ACP/v1.0"
    && Agent(rules, m.sender)
    && (m.recipient == "BROADCAST" || m.recipient == "NONE" || Agent(rules, m.recipient))
    && m.mission != "" && '\n' !in m.mission && '\r' !in m.mission
    && Matches(rules, m.timestamp, INSTANT) && rules.calendarOk(m.timestamp)
    && Matches(rules, m.correlation, UUID4)
    && Fields(m.payload) in Shapes(m.messageType) && Filled(m.payload)
    && rules.semanticsOk(m.messageType, m.payload)
    && Digest(m.payloadSha256) && m.payloadSha256 == rules.sha256(Body(m.payload))
  }

  lemma {:induction false} BodyText(payload: seq<(string, string)>)
    ensures Body(payload) == PayloadText(payload)
  {
    if payload != [] {
      var lines := EntryLines(payload);
      if |payload| == 1 {
        assert lines == [Entry(payload[0])];
      } else {
        BodyText(payload[1..]);
        assert lines[0] == Entry(payload[0]) && lines[1..] == EntryLines(payload[1..]);
        assert Join(lines, '\n') == lines[0] + ['\n'] + Join(lines[1..], '\n');
        assert "\n" == ['\n'];
      }
    }
  }

  lemma ValidAdmissible(rules: Rules, m: Message)
    ensures Valid(rules, m) <==> Admissible(rules, m)
  {
    hide ValidPayload, Shapes, IsUuid4, IsTimestamp, IsSha256, IsAgentId, Agent, Matches, Digest, Filled;
    hide MESSAGE_TYPES, PayloadText, Body, UUID4, INSTANT;
    AgentPattern(rules, m.sender);
    AgentPattern(rules, m.recipient);
    InstantPattern(rules, m.timestamp);
    UuidPattern(rules, m.correlation);
    DigestPattern(m.payloadSha256);
    BodyText(m.payload);
    TypeTable(m.messageType);
    if m.messageType in MESSAGE_TYPES {
      PayloadShape(m.messageType, m.payload);
    }
  }

  lemma WireSpelled(m: Message)
    ensures WireText(m) == Spelled(m)
  {
    hide PayloadText, Body, Join;
    BodyText(m.payload);
    NamesClean();
    var l := HeaderLines(HEADER_FIELDS, HeaderValues(m));
    HeaderSpelling(HeaderValues(m), l);
    assert l + [PayloadText(m.payload)] == FirstSeven(m) + ["PAYLOAD-SHA256:" + m.payloadSha256, Body(m.payload)];
  }

  lemma HeaderSpelling(v: seq<string>, l: seq<string>)
    requires |v| == 8 && |HEADER_FIELDS| == 8 && l == HeaderLines(HEADER_FIELDS, v)
    ensures |l| == 8 && l[0] == "PROTOCOL:" + v[0] && l[1] == "TYPE:" + v[1] && l[2] == "FROM:" + v[2]
    ensures l[3] == "TO:" + v[3] && l[4] == "MISSION:" + v[4] && l[5] == "TIMESTAMP:" + v[5]
    ensures l[6] == "CORRELATION:" + v[6] && l[7] == "PAYLOAD-SHA256:" + v[7]
  {
    hide HeaderLines, HEADER_FIELDS;
    FirstColons();
    LastColons();
    HeaderSpelled("PROTOCOL", "PROTOCOL:", v[0]);
    HeaderSpelled("TYPE", "TYPE:", v[1]);
    HeaderSpelled("FROM", "FROM:", v[2]);
    HeaderSpelled("TO", "TO:", v[3]);
    HeaderSpelled("MISSION", "MISSION:", v[4]);
    HeaderSpelled("TIMESTAMP", "TIMESTAMP:", v[5]);
    HeaderSpelled("CORRELATION", "CORRELATION:", v[6]);
    HeaderSpelled("PAYLOAD-SHA256", "PAYLOAD-SHA256:", v[7]);
    hide HeaderLine;
    HeaderNames();
  }

  lemma FirstColons()
    ensures "PROTOCOL" + ":" == "PROTOCOL:" && "TYPE" + ":" == "TYPE:" && "FROM" + ":" == "FROM:" && "TO" + ":" == "TO:"
  {
  }

  lemma LastColons()
    ensures "MISSION" + ":" == "MISSION:" && "TIMESTAMP" + ":" == "TIMESTAMP:"
    ensures "CORRELATION" + ":" == "CORRELATION:" && "PAYLOAD-SHA256" + ":" == "PAYLOAD-SHA256:"
  {
  }

  lemma HeaderNames()
    ensures |HEADER_FIELDS| == 8
    ensures HEADER_FIELDS[0] == "PROTOCOL" && HEADER_FIELDS[1] == "TYPE" && HEADER_FIELDS[2] == "FROM"
    ensures HEADER_FIELDS[3] == "TO" && HEADER_FIELDS[4] == "MISSION" && HEADER_FIELDS[5] == "TIMESTAMP"
    ensures HEADER_FIELDS[6] == "CORRELATION" && HEADER_FIELDS[7] == "PAYLOAD-SHA256"
  {
  }

  lemma HeaderSpelled(name: string, head: string, value: string)
    requires name + ":" == head
    ensures HeaderLine(name, value) == head + value
  {
  }

  /** A text is accepted, as this message, exactly when it spells the message and the message is admissible. */
  lemma AcceptedExactly(rules: Rules, t: string, m: Message)
    requires Sound(rules)
    ensures Parse(rules, t) == Ok(m) <==> t == Spelled(m) && Admissible(rules, m)
    ensures Serialize(rules, m) == Ok(t) <==> t == Spelled(m) && Admissible(rules, m)
    ensures Parse(rules, t).Err? ==> Parse(rules, t).error == ParseError
    ensures Serialize(rules, m).Err? ==> Serialize(rules, m).error == ValidationError
  {
    hide *;
    WireBijection(rules, m, t);
    WireSpelled(m);
    ValidAdmissible(rules, m);
    SerializeMeans(rules, m, t);
  }

  lemma SerializeMeans(rules: Rules, m: Message, t: string)
    ensures Serialize(rules, m) == Ok(t) <==> Valid(rules, m) && t == WireText(m)
    ensures Serialize(rules, m).Err? ==> Serialize(rules, m).error == ValidationError
    ensures Parse(rules, t).Err? ==> Parse(rules, t).error == ParseError
  {
    hide Valid, WireText, ParseHeaders, ParsePayload, Split;
  }

  /**
   The digest on the text: everything behind the eighth line break is what the PAYLOAD-SHA256 header
   digests, and the same text with any other single-line value in that header is refused.
   */
  lemma DigestDecides(rules: Rules, t: string, m: Message, other: string)
    requires Sound(rules) && Parse(rules, t) == Ok(m)
    ensures t == HeadOf(m) + "\nPAYLOAD-SHA256:" + rules.sha256(Body(m.payload)) + "\n" + Body(m.payload)
    ensures other != m.payloadSha256 && SingleLine(other) ==>
              Parse(rules, HeadOf(m) + "\nPAYLOAD-SHA256:" + other + "\n" + Body(m.payload)).Err?
  {
    hide Spelled, Admissible, Body, Parse;
    AcceptedExactly(rules, t, m);
    SpelledHead(m);
    AdmissibleDigest(rules, m);
    if other != m.payloadSha256 && SingleLine(other) {
      var n := m.(payloadSha256 := other);
      SpelledHead(n);
      assert HeadOf(n) == HeadOf(m);
      if Parse(rules, Spelled(n)).Ok? {
        var r := Parse(rules, Spelled(n)).value;
        AcceptedExactly(rules, Spelled(n), r);
        AdmissibleDigest(rules, r);
        SpelledLines(rules, m, n, r);
        assert false;
      }
    }
  }

  function HeadOf(m: Message): string {
    Join(FirstSeven(m), '\n')
  }

  lemma {:induction false} JoinSnoc(lines: seq<string>, last: string)
    requires lines != []
    ensures Join(lines + [last], '\n') == Join(lines, '\n') + "\n" + last
  {
    if |lines| == 1 {
      assert (lines + [last])[1..] == [last];
      assert Join([last], '\n') == last;
    } else {
      assert (lines + [last])[1..] == lines[1..] + [last];
      JoinSnoc(lines[1..], last);
    }
  }

  lemma SpelledHead(m: Message)
    ensures Spelled(m) == HeadOf(m) + "\nPAYLOAD-SHA256:" + m.payloadSha256 + "\n" + Body(m.payload)
  {
    hide Body, Join;
    var digest := "PAYLOAD-SHA256:" + m.payloadSha256;
    JoinSnoc(FirstSeven(m), digest);
    JoinSnoc(FirstSeven(m) + [digest], Body(m.payload));
    assert FirstSeven(m) + [digest] + [Body(m.payload)] == FirstSeven(m) + [digest, Body(m.payload)];
    assert "\n" + digest == "\nPAYLOAD-SHA256:" + m.payloadSha256;
  }

  lemma AdmissibleDigest(rules: Rules, m: Message)
    requires Admissible(rules, m)
    ensures m.payloadSha256 == rules.sha256(Body(m.payload))
  {
  }

  /** A clean text determines its digest header and its payload. */
  lemma SpelledLines(rules: Rules, m: Message, n: Message, r: Message)
    requires Sound(rules) && Admissible(rules, m) && Admissible(rules, r)
    requires n == m.(payloadSha256 := n.payloadSha256) && SingleLine(n.payloadSha256) && Spelled(n) == Spelled(r)
    ensures r.payloadSha256 == n.payloadSha256 && r.payload == n.payload
  {
    hide Admissible, Spelled, Valid, Lines, WireText;
    WireSpelled(n);
    WireSpelled(r);
    ValidAdmissible(rules, m);
    ValidAdmissible(rules, r);
    LinesClean(rules, m);
    LinesClean(rules, r);
    PayloadClean(rules, m);
    PayloadClean(rules, r);
    WireTextLines(n);
    WireTextLines(r);
    DigestLine(m, n);
    CleanLines(r);
    SplitJoin(Lines(n), '\n');
    SplitJoin(Lines(r), '\n');
    LinesTell(n, r);
  }

  lemma DigestLine(m: Message, n: Message)
    requires n == m.(payloadSha256 := n.payloadSha256) && SingleLine(n.payloadSha256)
    requires forall l <- Lines(m) :: SingleLine(l)
    ensures forall l <- Lines(n) :: '\n' !in l
    ensures Lines(n) != []
  {
    NamesClean();
    var a, b := Lines(m), Lines(n);
    assert forall i | 0 <= i < |a| && i != 7 :: a[i] == b[i];
    assert b[7] == HEADER_FIELDS[7] + ":" + n.payloadSha256;
    LineClean(HEADER_FIELDS[7], n.payloadSha256);
    forall l <- b ensures '\n' !in l {
      var i :| 0 <= i < |b| && b[i] == l;
      assert i != 7 ==> a[i] in a;
    }
  }

  lemma CleanLines(m: Message)
    requires forall l <- Lines(m) :: SingleLine(l)
    ensures Lines(m) != [] && forall l <- Lines(m) :: '\n' !in l
  {
    NamesClean();
  }

  lemma LinesTell(n: Message, r: Message)
    requires Lines(n) == Lines(r) && forall e <- n.payload :: IsFieldName(e.0)
    requires forall e <- r.payload :: IsFieldName(e.0)
    ensures r.payloadSha256 == n.payloadSha256 && r.payload == n.payload
  {
    hide IsFieldName;
    NamesClean();
    var head := HEADER_FIELDS[7] + ":";
    assert Lines(n)[7] == head + n.payloadSha256 && Lines(r)[7] == head + r.payloadSha256;
    assert (head + n.payloadSha256)[|head|..] == n.payloadSha256;
    assert (head + r.payloadSha256)[|head|..] == r.payloadSha256;
    assert Lines(n)[8..] == EntryLines(n.payload) && Lines(r)[8..] == EntryLines(r.payload);
    ParsePayloadPrinted(n.payload);
    ParsePayloadPrinted(r.payload);
  }
}
