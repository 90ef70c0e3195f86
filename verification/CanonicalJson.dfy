/**
 `canonical_json`: the sorted-key text that every hash and the AEAD header rest on.

 `Doc` is a JSON document as Python holds it, dictionaries in insertion order;
 `Json` is what a document means, where dictionaries are maps. The encoder works
 on documents, the decoder yields meanings.
 */
module CanonicalJson {
  import opened Prelude
  import opened Integers
  import opened Order
  import Text
  import Utf8

  datatype Json =
    | Null
    | Bool(b: bool)
    | Int(n: int)
    | Str(s: string)
    | Arr(items: seq<Json>)
    | Obj(fields: map<string, Json>)

  datatype Doc =
    | DNull
    | DBool(b: bool)
    | DInt(n: int)
    | DStr(s: string)
    | DArr(items: seq<Doc>)
    | DObj(entries: seq<(string, Doc)>)
  {
    /** A Python dictionary has no repeated key. */
    predicate Valid() {
      match this
      case DArr(items) => forall d <- items :: d.Valid()
      case DObj(entries) => Distinct(Keys(entries)) && forall e <- entries :: e.1.Valid()
      case _ => true
    }
  }

  function Keys<T>(entries: seq<(string, T)>): (r: seq<string>)
    ensures |r| == |entries| && forall i :: 0 <= i < |r| ==> r[i] == entries[i].0
  {
    if entries == [] then [] else [entries[0].0] + Keys(entries[1..])
  }

  // ---------------------------------------------------------------- meaning

  ghost function Meaning(d: Doc): Json
    decreases d, 1
  {
    match d
    case DNull => Null
    case DBool(b) => Bool(b)
    case DInt(n) => Int(n)
    case DStr(s) => Str(s)
    case DArr(items) => Arr(Meanings(items))
    case DObj(entries) => Obj(map k <- Keys(entries) :: Meaning(Lookup(entries, k)))
  }

  ghost function Meanings(items: seq<Doc>): seq<Json>
    decreases items, 0
  {
    if items == [] then [] else [Meaning(items[0])] + Meanings(items[1..])
  }

  // ---------------------------------------------------------------- encoder

  function Digit(d: nat): char
    requires d < 10
  {
    ('0' as int + d) as char
  }

  function Decimal(n: nat): (r: string)
    ensures r != []
  {
    if n < 10 then [Digit(n)] else Decimal(n / 10) + [Digit(n % 10)]
  }

  function EncodeInt(n: int): string {
    if n < 0 then "-" + Decimal(-n) else Decimal(n)
  }

  function HexDigit(d: nat): char
    requires d < 16
  {
    if d < 10 then Digit(d) else ('a' as int + (d - 10)) as char
  }

  /** One character of a string literal, escaped as `encode_basestring` does. */
  function EscapeChar(c: char): string {
    if c == '\\' then "\\\\"
    else if c == '\"' then "\\\""
    else if c == '\U{0008}' then "\\b"
    else if c == '\U{000C}' then "\\f"
    else if c == '\n' then "\\n"
    else if c == '\r' then "\\r"
    else if c == '\t' then "\\t"
    else if c < ' ' then "\\u00" + [HexDigit(c as int / 16), HexDigit(c as int % 16)]
    else [c]
  }

  function Escape(s: string): string {
    if s == [] then [] else EscapeChar(s[0]) + Escape(s[1..])
  }

  function EncodeString(s: string): string {
    "\"" + Escape(s) + "\""
  }

  function Lookup(entries: seq<(string, Doc)>, key: string): (d: Doc)
    requires key in Keys(entries)
    ensures (key, d) in entries
  {
    if entries[0].0 == key then entries[0].1 else
      assert Keys(entries) == [entries[0].0] + Keys(entries[1..]);
      Lookup(entries[1..], key)
  }

  /** `canonical_json`: object members in sorted key order, no white space. */
  function Encode(d: Doc): string
    decreases d, 1
  {
    match d
    case DNull => "null"
    case DBool(b) => if b then "true" else "false"
    case DInt(n) => EncodeInt(n)
    case DStr(s) => EncodeString(s)
    case DArr(items) => "[" + EncodeItems(items) + "]"
    case DObj(entries) => "{" + EncodeMembers(d, SortEntryKeys(entries)) + "}"
  }

  function EncodeItems(items: seq<Doc>): string
    decreases items, 0
  {
    if items == [] then ""
    else if |items| == 1 then Encode(items[0])
    else Encode(items[0]) + "," + EncodeItems(items[1..])
  }

  function EncodeMembers(d: Doc, keys: seq<string>): string
    requires d.DObj? && forall k <- keys :: k in Keys(d.entries)
    decreases d, 0, |keys|
  {
    if keys == [] then ""
    else
      var member := EncodeString(keys[0]) + ":" + Encode(Lookup(d.entries, keys[0]));
      if |keys| == 1 then member else member + "," + EncodeMembers(d, keys[1..])
  }

  function SortEntryKeys(entries: seq<(string, Doc)>): (r: seq<string>)
    ensures forall k <- r :: k in Keys(entries)
  {
    SortElements(Keys(entries));
    Sort(Keys(entries))
  }

  lemma {:induction false} SortElements(s: seq<string>)
    ensures Elements(Sort(s)) == Elements(s)
    ensures forall k <- Sort(s) :: k in s
  {
    if s != [] {
      SortElements(s[1..]);
      InsertElements(s[0], Sort(s[1..]));
      assert s == [s[0]] + s[1..];
      assert forall k :: k in Sort(s) ==> k in Elements(Sort(s));
      assert forall k :: k in Elements(s) ==> k in s;
    }
  }

  lemma {:induction false} InsertElements(x: string, s: seq<string>)
    ensures Elements(Insert(x, s)) == Elements(s) + {x}
  {
    if s == [] || Less(x, s[0]) {
      assert Insert(x, s) == [x] + s;
    } else {
      assert s == [s[0]] + s[1..];
      var t := Insert(x, s[1..]);
      InsertElements(x, s[1..]);
      assert Insert(x, s) == [s[0]] + t;
      assert Elements([s[0]] + t) == {s[0]} + Elements(t);
    }
  }

  // ---------------------------------------------------------------- decoder

  predicate IsDigit(c: char) {
    '0' <= c <= '9'
  }

  function DigitPrefix(s: string): (n: nat)
    ensures n <= |s|
  {
    if s != [] && IsDigit(s[0]) then 1 + DigitPrefix(s[1..]) else 0
  }

  function DecimalValue(s: string): nat
    requires forall c <- s :: IsDigit(c)
  {
    if s == [] then 0
    else
      assert IsDigit(s[|s| - 1]);
      10 * DecimalValue(s[..|s| - 1]) + (s[|s| - 1] as int - '0' as int)
  }

  function ParseNat(s: string): (r: Option<(nat, string)>)
    ensures r.Some? ==> |r.value.1| < |s|
  {
    var n := DigitPrefix(s);
    if n == 0 then None
    else
      DigitPrefixDigits(s);
      Some((DecimalValue(s[..n]), s[n..]))
  }

  lemma {:induction false} DigitPrefixDigits(s: string)
    ensures forall c <- s[..DigitPrefix(s)] :: IsDigit(c)
  {
    if s != [] && IsDigit(s[0]) {
      DigitPrefixDigits(s[1..]);
      assert s[..DigitPrefix(s)] == [s[0]] + s[1..][..DigitPrefix(s[1..])];
    }
  }

  function HexValue(c: char): (r: Option<nat>)
    ensures r.Some? ==> r.value < 16
  {
    if IsDigit(c) then Some(c as int - '0' as int)
    else if 'a' <= c <= 'f' then Some(c as int - 'a' as int + 10)
    else None
  }

  /** One possibly escaped character and the number of characters it took. */
  function ParseChar(s: string): (r: Option<(char, nat)>)
    requires s != []
    ensures r.Some? ==> 1 <= r.value.1 <= |s|
  {
    if s[0] != '\\' then (if s[0] < ' ' || s[0] == '\"' then None else Some((s[0], 1)))
    else if |s| < 2 then None
    else if s[1] == '\\' || s[1] == '\"' then Some((s[1], 2))
    else if s[1] == 'b' then Some(('\U{0008}', 2))
    else if s[1] == 'f' then Some(('\U{000C}', 2))
    else if s[1] == 'n' then Some(('\n', 2))
    else if s[1] == 'r' then Some(('\r', 2))
    else if s[1] == 't' then Some(('\t', 2))
    else if s[1] == 'u' && |s| >= 6 && s[2..4] == "00" then
      var hi, lo := HexValue(s[4]), HexValue(s[5]);
      if hi.Some? && lo.Some? then Some(((16 * hi.value + lo.value) as char, 6)) else None
    else None
  }

  /** The characters up to the closing quote, and the text behind it. */
  function ParseChars(s: string): (r: Option<(string, string)>)
    ensures r.Some? ==> |r.value.1| < |s|
  {
    if s == [] then None
    else if s[0] == '\"' then Some(([], s[1..]))
    else match ParseChar(s)
      case None => None
      case Some((c, n)) =>
        match ParseChars(s[n..])
        case None => None
        case Some((cs, rest)) => Some(([c] + cs, rest))
  }

  /** Reads a literal, number or string from the front of a text. */
  function ParseAtom(s: string): (r: Option<(Json, string)>)
    ensures r.Some? ==> |r.value.1| < |s|
  {
    if "null" <= s then Some((Null, s[4..]))
    else if "true" <= s then Some((Bool(true), s[4..]))
    else if "false" <= s then Some((Bool(false), s[5..]))
    else if "\"" <= s then
      (match ParseChars(s[1..])
       case None => None
       case Some((cs, rest)) => Some((Str(cs), rest)))
    else if "-" <= s then
      (match ParseNat(s[1..])
       case None => None
       case Some((n, rest)) => Some((Int(0 - n), rest)))
    else
      (match ParseNat(s)
       case None => None
       case Some((n, rest)) => Some((Int(n), rest)))
  }

  /** Reads one value from the front of a text; objects refuse a repeated key. */
  function Parse(s: string): (r: Option<(Json, string)>)
    ensures r.Some? ==> |r.value.1| < |s|
    decreases |s|, 0
  {
    if s == [] then None
    else if s[0] == '[' then
      if |s| >= 2 && s[1] == ']' then Some((Arr([]), s[2..]))
      else
        (match ParseItems(s[1..])
         case None => None
         case Some((items, rest)) => Some((Arr(items), rest)))
    else if s[0] == '{' then
      if |s| >= 2 && s[1] == '}' then Some((Obj(map[]), s[2..]))
      else
        (match ParseMembers(s[1..])
         case None => None
         case Some((fields, rest)) => Some((Obj(fields), rest)))
    else ParseAtom(s)
  }

  function ParseItems(s: string): (r: Option<(seq<Json>, string)>)
    ensures r.Some? ==> |r.value.1| < |s|
    decreases |s|, 1
  {
    match Parse(s)
    case None => None
    case Some((j, t)) =>
      if t == [] then None
      else if t[0] == ']' then Some(([j], t[1..]))
      else if t[0] != ',' then None
      else match ParseItems(t[1..])
        case None => None
        case Some((js, rest)) => Some(([j] + js, rest))
  }

  function ParseMembers(s: string): (r: Option<(map<string, Json>, string)>)
    ensures r.Some? ==> |r.value.1| < |s|
    decreases |s|, 1
  {
    if s == [] || s[0] != '\"' then None
    else match ParseChars(s[1..])
      case None => None
      case Some((k, t)) =>
        if t == [] || t[0] != ':' then None
        else match Parse(t[1..])
          case None => None
          case Some((j, u)) =>
            if u == [] then None
            else if u[0] == '}' then Some((map[k := j], u[1..]))
            else if u[0] != ',' then None
            else match ParseMembers(u[1..])
              case None => None
              case Some((fields, rest)) =>
                if k in fields then None else Some((fields[k := j], rest))
  }

  function Decode(s: string): Option<Json> {
    match Parse(s)
    case None => None
    case Some((j, rest)) => if rest == [] then Some(j) else None
  }

  // ---------------------------------------------------------------- proofs

  /** A value's text is followed by nothing or by one of the delimiters. */
  predicate Delimited(rest: string) {
    rest == [] || !IsDigit(rest[0])
  }

  lemma {:induction false} DecimalRoundTrip(n: nat, rest: string)
    requires Delimited(rest)
    ensures DigitPrefix(Decimal(n) + rest) == |Decimal(n)|
    ensures forall c <- Decimal(n) :: IsDigit(c)
    ensures DecimalValue(Decimal(n)) == n
  {
    var s := Decimal(n);
    if n < 10 {
      assert (s + rest)[1..] == rest;
      assert DecimalValue(s[..0]) == 0;
    } else {
      var last := [Digit(n % 10)];
      DecimalRoundTrip(n / 10, []);
      assert s[..|s| - 1] == Decimal(n / 10);
      AllDigits(s, rest);
    }
  }

  lemma {:induction false} AllDigits(s: string, rest: string)
    requires (forall c <- s :: IsDigit(c)) && Delimited(rest)
    ensures DigitPrefix(s + rest) == |s|
  {
    if s == [] {
      assert s + rest == rest;
    } else {
      assert (s + rest)[1..] == s[1..] + rest;
      AllDigits(s[1..], rest);
    }
  }

  lemma ParseNatDecimal(n: nat, rest: string)
    requires Delimited(rest)
    ensures ParseNat(Decimal(n) + rest) == Some((n, rest))
  {
    DecimalRoundTrip(n, rest);
    var s := Decimal(n) + rest;
    assert s[..|Decimal(n)|] == Decimal(n) && s[|Decimal(n)|..] == rest;
  }

  lemma ParseCharEscape(c: char, rest: string)
    ensures EscapeChar(c)[0] != '\"'
    ensures ParseChar(EscapeChar(c) + rest) == Some((c, |EscapeChar(c)|))
  {
    var e, s := EscapeChar(c), EscapeChar(c) + rest;
    if c < ' ' && |e| == 6 {
      var hi, lo := c as int / 16, c as int % 16;
      assert e == ['\\', 'u', '0', '0', HexDigit(hi), HexDigit(lo)];
      assert s[2..4] == "00";
      assert s[4] == HexDigit(hi) && s[5] == HexDigit(lo);
      assert HexValue(s[4]) == Some(hi) && HexValue(s[5]) == Some(lo);
      assert 16 * hi + lo == c as int;
    } else if |e| == 2 {
      assert s[0] == e[0] && s[1] == e[1];
    } else {
      assert s[0] == c;
    }
  }

  lemma {:induction false} ParseCharsEscape(cs: string, rest: string)
    ensures ParseChars(Escape(cs) + "\"" + rest) == Some((cs, rest))
  {
    var s := Escape(cs) + "\"" + rest;
    if cs == [] {
      assert s == ['\"'] + rest;
    } else {
      var e, t := EscapeChar(cs[0]), Escape(cs[1..]) + "\"" + rest;
      assert s == e + t;
      ParseCharEscape(cs[0], t);
      ParseCharsEscape(cs[1..], rest);
      assert s[|e|..] == t;
      assert s[0] == e[0];
      assert [cs[0]] + cs[1..] == cs;
    }
  }

  // How the reader dispatches on the first character.

  lemma AtomLiteral(s: string, rest: string)
    ensures s == "null" + rest ==> ParseAtom(s) == Some((Null, rest))
    ensures s == "true" + rest ==> ParseAtom(s) == Some((Bool(true), rest))
    ensures s == "false" + rest ==> ParseAtom(s) == Some((Bool(false), rest))
  {
    assert s == "null" + rest ==> s[4..] == rest;
    assert s == "true" + rest ==> s[4..] == rest;
    assert s == "false" + rest ==> s[5..] == rest && s[0] == 'f';
  }

  lemma AtomNegative(n: nat, rest: string)
    requires Delimited(rest)
    ensures ParseAtom("-" + Decimal(n) + rest) == Some((Int(0 - n), rest))
  {
    hide ParseNat, Decimal;
    ParseNatDecimal(n, rest);
    var s := "-" + Decimal(n) + rest;
    assert s[0] == '-' && s[1..] == Decimal(n) + rest;
  }

  lemma AtomNat(n: nat, rest: string)
    requires Delimited(rest)
    ensures ParseAtom(Decimal(n) + rest) == Some((Int(n), rest))
    ensures IsDigit(Decimal(n)[0])
  {
    hide ParseNat;
    ParseNatDecimal(n, rest);
    DecimalRoundTrip(n, rest);
    var s := Decimal(n) + rest;
    assert s[0] == Decimal(n)[0] && Decimal(n)[0] in Decimal(n);
    assert "null"[0] == 'n' && "true"[0] == 't' && "false"[0] == 'f';
  }

  lemma AtomString(cs: string, rest: string)
    ensures ParseAtom(EncodeString(cs) + rest) == Some((Str(cs), rest))
  {
    var s := EncodeString(cs) + rest;
    ParseCharsEscape(cs, rest);
    assert s[0] == '\"' && s[1..] == Escape(cs) + "\"" + rest;
    assert "null"[0] == 'n' && "true"[0] == 't' && "false"[0] == 'f';
  }

  lemma AtomEncode(d: Doc, rest: string)
    requires !d.DArr? && !d.DObj? && Delimited(rest)
    ensures var s := Encode(d) + rest;
      s[0] != '[' && s[0] != '{' && s[0] != ']' && ParseAtom(s) == Some((Meaning(d), rest))
  {
    match d
    case DNull => AtomLiteral("null" + rest, rest);
    case DBool(b) => AtomLiteral(Encode(d) + rest, rest);
    case DInt(n) =>
      if n < 0 {
        AtomNegative(-n, rest);
      } else {
        AtomNat(n, rest);
      }
    case DStr(cs) => AtomString(cs, rest);
  }

  lemma ParseArr(s: string, rest: string)
    requires |s| >= 2 && s[0] == '['
    ensures s[1] == ']' ==> Parse(s) == Some((Arr([]), s[2..]))
    ensures s[1] != ']' && ParseItems(s[1..]).Some? ==>
      Parse(s) == Some((Arr(ParseItems(s[1..]).value.0), ParseItems(s[1..]).value.1))
  {
  }

  lemma ParseObj(s: string, rest: string)
    requires |s| >= 2 && s[0] == '{'
    ensures s[1] == '}' ==> Parse(s) == Some((Obj(map[]), s[2..]))
    ensures s[1] != '}' && ParseMembers(s[1..]).Some? ==>
      Parse(s) == Some((Obj(ParseMembers(s[1..]).value.0), ParseMembers(s[1..]).value.1))
  {
  }

  lemma {:induction false} ParseEncode(d: Doc, rest: string)
    requires d.Valid() && Delimited(rest)
    ensures Parse(Encode(d) + rest) == Some((Meaning(d), rest))
    decreases d, 1
  {
    if d.DArr? {
      ParseEncodeArr(d, rest);
    } else if d.DObj? {
      ParseEncodeObj(d, rest);
    } else {
      AtomEncode(d, rest);
    }
  }

  lemma {:induction false} ParseEncodeArr(d: Doc, rest: string)
    requires d.DArr? && d.Valid()
    ensures Parse(Encode(d) + rest) == Some((Meaning(d), rest))
    decreases d, 1, 0
  {
    hide ParseItems, Parse;
    var s := Encode(d) + rest;
    assert s[0] == '[' && s[1..] == EncodeItems(d.items) + "]" + rest;
    ParseArr(s, rest);
    if d.items == [] {
      assert s[2..] == rest;
    } else {
      EncodeHead(d.items[0]);
      ParseEncodeItems(d.items, rest);
      assert s[1] == EncodeItems(d.items)[0] == Encode(d.items[0])[0];
    }
  }

  lemma {:induction false} ParseEncodeObj(d: Doc, rest: string)
    requires d.DObj? && d.Valid()
    ensures Parse(Encode(d) + rest) == Some((Meaning(d), rest))
    decreases d, 1, 0
  {
    hide ParseMembers, Parse, SortEntryKeys, Restrict, Meaning;
    FieldsOf(d);
    var keys, fields := SortEntryKeys(d.entries), Meaning(d).fields;
    EntryKeys(d.entries);
    var body := EncodeMembers(d, keys);
    Brace(body, rest);
    if keys == [] {
      assert fields == map[];
    } else {
      MembersHead(d, keys);
      ParseEncodeMembers(d, keys, fields, rest);
      RestrictAll(fields, keys);
    }
    ParseObj("{" + body + "}" + rest, rest);
  }

  lemma FieldsOf(d: Doc)
    requires d.DObj?
    ensures Meaning(d).Obj? && forall k :: k in Meaning(d).fields <==> k in Keys(d.entries)
    ensures forall k <- Keys(d.entries) :: Meaning(d).fields[k] == Meaning(Lookup(d.entries, k))
  {
  }

  lemma RestrictAll(fields: map<string, Json>, keys: seq<string>)
    requires forall k :: k in fields <==> k in keys
    ensures Restrict(fields, keys) == fields
  {
  }

  lemma Brace(body: string, rest: string)
    ensures var s := "{" + body + "}" + rest;
      && |s| >= 2 && s[0] == '{' && s[1..] == body + "}" + rest
      && (body == [] ==> s[1] == '}' && s[2..] == rest)
      && (body != [] ==> s[1] == body[0])
  {
  }

  lemma MembersHead(d: Doc, keys: seq<string>)
    requires d.DObj? && (forall k <- keys :: k in Keys(d.entries)) && keys != []
    ensures EncodeMembers(d, keys) != [] && EncodeMembers(d, keys)[0] == '\"'
  {
    assert EncodeString(keys[0])[0] == '\"';
  }

  lemma EntryKeys(entries: seq<(string, Doc)>)
    requires Distinct(Keys(entries))
    ensures var keys := SortEntryKeys(entries);
      Distinct(keys) && forall k :: k in keys <==> k in Keys(entries)
  {
    SortSorts(Keys(entries));
    SortedDistinct(SortEntryKeys(entries));
    assert forall k :: k in Keys(entries) ==> k in Elements(SortEntryKeys(entries));
  }

  /** The first character of a value's text never closes a container. */
  lemma EncodeHead(d: Doc)
    ensures Encode(d) != [] && Encode(d)[0] != ']'
  {
    if !d.DArr? && !d.DObj? {
      AtomEncode(d, []);
      assert Encode(d) + [] == Encode(d);
    }
  }

  lemma ItemsStep(s: string, j: Json, tail: string)
    requires Parse(s) == Some((j, tail)) && tail != []
    ensures tail[0] == ']' ==> ParseItems(s) == Some(([j], tail[1..]))
    ensures tail[0] == ',' && ParseItems(tail[1..]).Some? ==>
      ParseItems(s) == Some(([j] + ParseItems(tail[1..]).value.0, ParseItems(tail[1..]).value.1))
  {
  }

  lemma {:induction false} ParseEncodeItems(items: seq<Doc>, rest: string)
    requires items != [] && forall d <- items :: d.Valid()
    ensures ParseItems(EncodeItems(items) + "]" + rest) == Some((Meanings(items), rest))
    decreases items, 0
  {
    hide ParseItems, Parse;
    var head := Encode(items[0]);
    if |items| == 1 {
      var tail := "]" + rest;
      assert head + "]" + rest == head + tail;
      ParseEncode(items[0], tail);
      ItemsStep(head + tail, Meaning(items[0]), tail);
      assert tail[1..] == rest;
      assert items[1..] == [];
      assert Meanings(items) == [Meaning(items[0])];
    } else {
      var more := EncodeItems(items[1..]) + "]" + rest;
      var tail := "," + more;
      Regroup(head, EncodeItems(items[1..]), rest);
      ParseEncode(items[0], tail);
      ParseEncodeItems(items[1..], rest);
      ItemsStep(head + tail, Meaning(items[0]), tail);
      assert tail[1..] == more;
    }
  }

  lemma Regroup(a: string, b: string, rest: string)
    ensures (a + "," + b) + "]" + rest == a + ("," + (b + "]" + rest))
    ensures (a + "," + b) + "}" + rest == a + ("," + (b + "}" + rest))
  {
  }

  ghost function Restrict(fields: map<string, Json>, keys: seq<string>): map<string, Json> {
    map k | k in fields && k in keys :: fields[k]
  }

  lemma MembersStep(s: string, k: string, t: string, j: Json, tail: string)
    requires s != [] && s[0] == '\"' && ParseChars(s[1..]) == Some((k, t))
    requires t != [] && t[0] == ':' && Parse(t[1..]) == Some((j, tail)) && tail != []
    ensures tail[0] == '}' ==> ParseMembers(s) == Some((map[k := j], tail[1..]))
    ensures tail[0] == ',' && ParseMembers(tail[1..]).Some? && k !in ParseMembers(tail[1..]).value.0 ==>
      ParseMembers(s) == Some((ParseMembers(tail[1..]).value.0[k := j], ParseMembers(tail[1..]).value.1))
  {
  }

  /** The last member of an object, then the closing brace. */
  lemma LastMember(k: string, text: string, j: Json, rest: string)
    requires Parse(text + ("}" + rest)) == Some((j, "}" + rest))
    ensures ParseMembers(EncodeString(k) + ":" + text + "}" + rest) == Some((map[k := j], rest))
  {
    hide ParseMembers, Parse, ParseChars, Escape;
    var s := EncodeString(k) + ":" + text + "}" + rest;
    var t := ":" + (text + ("}" + rest));
    assert s == "\"" + (Escape(k) + "\"" + t);
    assert s[1..] == Escape(k) + "\"" + t;
    assert t[1..] == text + ("}" + rest);
    ParseCharsEscape(k, t);
    MembersStep(s, k, t, j, "}" + rest);
    assert ("}" + rest)[1..] == rest;
  }

  /** A member, a comma, and the members behind it. */
  lemma NextMember(k: string, text: string, j: Json, more: string, fields: map<string, Json>, rest: string)
    requires Parse(text + ("," + more)) == Some((j, "," + more))
    requires ParseMembers(more) == Some((fields, rest)) && k !in fields
    ensures ParseMembers(EncodeString(k) + ":" + text + ("," + more)) == Some((fields[k := j], rest))
  {
    hide ParseMembers, Parse, ParseChars, Escape;
    var s := EncodeString(k) + ":" + text + ("," + more);
    var t := ":" + (text + ("," + more));
    assert s == "\"" + (Escape(k) + "\"" + t);
    assert s[1..] == Escape(k) + "\"" + t;
    assert t[1..] == text + ("," + more);
    ParseCharsEscape(k, t);
    assert ("," + more)[1..] == more;
    MembersStep(s, k, t, j, "," + more);
  }

  lemma MembersText(d: Doc, keys: seq<string>)
    requires d.DObj? && (forall k <- keys :: k in Keys(d.entries)) && keys != []
    ensures
      var member := EncodeString(keys[0]) + ":" + Encode(Lookup(d.entries, keys[0]));
      EncodeMembers(d, keys) == if |keys| == 1 then member else member + "," + EncodeMembers(d, keys[1..])
  {
  }

  // ---------------------------------------------------------------- the exact spelling

  function Member(d: Doc, key: string): string
    requires d.DObj? && key in Keys(d.entries)
  {
    EncodeString(key) + ":" + Encode(Lookup(d.entries, key))
  }

  function MemberTexts(d: Doc, keys: seq<string>): (r: seq<string>)
    requires d.DObj? && forall k <- keys :: k in Keys(d.entries)
    ensures |r| == |keys| && forall i :: 0 <= i < |r| ==> r[i] == Member(d, keys[i])
  {
    if keys == [] then [] else [Member(d, keys[0])] + MemberTexts(d, keys[1..])
  }

  lemma {:induction false} MembersJoined(d: Doc, keys: seq<string>)
    requires d.DObj? && (forall k <- keys :: k in Keys(d.entries)) && keys != []
    ensures EncodeMembers(d, keys) == Text.Join(MemberTexts(d, keys), ',')
  {
    hide Encode, EncodeString, Lookup;
    if |keys| > 1 {
      MembersJoined(d, keys[1..]);
      assert MemberTexts(d, keys)[1..] == MemberTexts(d, keys[1..]);
    }
  }

  /**
   The text of a dictionary: its keys in ascending code-point order, each quoted and followed by a
   colon and its value, with commas between and nothing else.
   */
  lemma ObjectText(d: Doc) returns (keys: seq<string>)
    requires d.DObj? && d.Valid()
    ensures InOrder(keys) && forall k :: k in keys <==> k in Keys(d.entries)
    ensures Encode(d) == "{" + (if keys == [] then "" else Text.Join(MemberTexts(d, keys), ',')) + "}"
  {
    hide InOrder, Sort;
    keys := Sort(Keys(d.entries));
    SortForgetsOrder(Keys(d.entries));
    forall k ensures k in keys <==> k in Keys(d.entries) {
      assert k in keys <==> k in Elements(keys);
      assert k in Keys(d.entries) <==> k in Elements(Keys(d.entries));
    }
    if keys != [] {
      MembersJoined(d, keys);
    }
  }

  /** The seven characters with an escape of their own. */
  predicate Short(c: char) {
    c in "\\\"\n\r\t\U{0008}\U{000C}"
  }

  /**
   How a character is written inside a string: as itself; with two characters exactly for the seven that
   have a short escape; as a backslash, "u00" and two lower-case hexadecimal digits exactly for the other
   control characters.
   */
  lemma EscapeSpelling(c: char)
    ensures var e := EscapeChar(c);
            && (Short(c) <==> |e| == 2 && e[0] == '\\')
            && (!Short(c) && c < ' ' <==> |e| == 6 && e[..4] == "\\u00")
            && (|e| == 6 ==> HexValue(e[4]).Some? && HexValue(e[5]).Some?
                             && 16 * HexValue(e[4]).value + HexValue(e[5]).value == c as int)
            && (!Short(c) && c >= ' ' <==> e == [c])
  {
  }

  /** Numbers are written in decimal, without leading zeros, and zero without a sign. */
  lemma {:induction false} DecimalSpelling(n: nat)
    ensures Decimal(n) == "0" <==> n == 0
    ensures n > 0 ==> Decimal(n)[0] != '0'
  {
    if n >= 10 {
      DecimalSpelling(n / 10);
    }
  }

  lemma {:induction false} ParseEncodeMembers(d: Doc, keys: seq<string>, fields: map<string, Json>, rest: string)
    requires d.DObj? && d.Valid() && keys != [] && Distinct(keys)
    requires forall k <- keys :: k in Keys(d.entries) && k in fields && fields[k] == Meaning(Lookup(d.entries, k))
    ensures ParseMembers(EncodeMembers(d, keys) + "}" + rest) == Some((Restrict(fields, keys), rest))
    decreases d, 0, |keys|
  {
    hide ParseMembers, Parse;
    var k, v := keys[0], Lookup(d.entries, keys[0]);
    assert (k, v) in d.entries;
    MembersText(d, keys);
    if |keys| == 1 {
      ParseEncode(v, "}" + rest);
      LastMember(k, Encode(v), Meaning(v), rest);
      RestrictOne(fields, keys);
    } else {
      var more := EncodeMembers(d, keys[1..]) + "}" + rest;
      ParseEncode(v, "," + more);
      ParseEncodeMembers(d, keys[1..], fields, rest);
      RestrictMore(fields, keys);
      NextMember(k, Encode(v), Meaning(v), more, Restrict(fields, keys[1..]), rest);
      Regroup(EncodeString(k) + ":" + Encode(v), EncodeMembers(d, keys[1..]), rest);
    }
  }

  lemma RestrictOne(fields: map<string, Json>, keys: seq<string>)
    requires |keys| == 1 && keys[0] in fields
    ensures Restrict(fields, keys) == map[keys[0] := fields[keys[0]]]
  {
    assert forall k :: k in keys <==> k == keys[0];
  }

  lemma RestrictMore(fields: map<string, Json>, keys: seq<string>)
    requires keys != [] && Distinct(keys) && keys[0] in fields
    ensures keys[0] !in Restrict(fields, keys[1..])
    ensures Restrict(fields, keys) == Restrict(fields, keys[1..])[keys[0] := fields[keys[0]]]
  {
    assert keys == [keys[0]] + keys[1..];
  }

  /** Decoding undoes encoding: the deep copy that `update` takes is the identity. */
  lemma DecodeEncode(d: Doc)
    requires d.Valid()
    ensures Decode(Encode(d)) == Some(Meaning(d))
  {
    ParseEncode(d, []);
    assert Encode(d) + [] == Encode(d);
  }

  lemma {:induction false} MeaningEncode(d: Doc, e: Doc)
    requires d.Valid() && e.Valid() && Meaning(d) == Meaning(e)
    ensures Encode(d) == Encode(e)
    decreases d, 1
  {
    if d.DArr? {
      MeaningEncodeItems(d.items, e.items);
    } else if d.DObj? {
      var keys := SortEntryKeys(d.entries);
      assert Elements(Keys(d.entries)) == Meaning(d).fields.Keys == Elements(Keys(e.entries));
      SortForgetsOrder(Keys(d.entries));
      SortForgetsOrder(Keys(e.entries));
      assert forall k <- keys :: k in Meaning(d).fields;
      MeaningEncodeMembers(d, e, keys);
    }
  }

  lemma {:induction false} MeaningEncodeItems(s: seq<Doc>, t: seq<Doc>)
    requires (forall d <- s :: d.Valid()) && (forall e <- t :: e.Valid()) && Meanings(s) == Meanings(t)
    ensures EncodeItems(s) == EncodeItems(t)
    decreases s, 0
  {
    if s != [] {
      assert t != [];
      assert Meanings(s)[0] == Meanings(t)[0] && Meanings(s)[1..] == Meanings(t)[1..];
      assert Meanings(s)[1..] == Meanings(s[1..]) && Meanings(t)[1..] == Meanings(t[1..]);
      MeaningEncode(s[0], t[0]);
      MeaningEncodeItems(s[1..], t[1..]);
      MeaningsLength(s);
      MeaningsLength(t);
    }
  }

  lemma {:induction false} MeaningsLength(s: seq<Doc>)
    ensures |Meanings(s)| == |s|
  {
    if s != [] {
      MeaningsLength(s[1..]);
    }
  }

  lemma {:induction false} MeaningEncodeMembers(d: Doc, e: Doc, keys: seq<string>)
    requires d.DObj? && e.DObj? && d.Valid() && e.Valid() && Meaning(d) == Meaning(e)
    requires forall k <- keys :: k in Keys(d.entries) && k in Keys(e.entries)
    ensures EncodeMembers(d, keys) == EncodeMembers(e, keys)
    decreases d, 0, |keys|
  {
    hide Meaning, Encode;
    if keys != [] {
      var k := keys[0];
      var v, w := Lookup(d.entries, k), Lookup(e.entries, k);
      assert (k, v) in d.entries && (k, w) in e.entries;
      FieldsOf(d);
      FieldsOf(e);
      assert Meaning(v) == Meaning(d).fields[k] == Meaning(e).fields[k] == Meaning(w);
      MeaningEncode(v, w);
      MeaningEncodeMembers(d, e, keys[1..]);
    }
  }

  /**
   Two documents have the same canonical text exactly when they mean the same, so the
   text loses nothing and does not depend on the order in which keys were inserted.
   */
  lemma EncodeExact(d: Doc, e: Doc)
    requires d.Valid() && e.Valid()
    ensures Encode(d) == Encode(e) <==> Meaning(d) == Meaning(e)
  {
    if Encode(d) == Encode(e) {
      DecodeEncode(d);
      DecodeEncode(e);
    }
    if Meaning(d) == Meaning(e) {
      MeaningEncode(d, e);
    }
  }

  /** The bytes that are hashed and authenticated. */
  function CanonicalBytes(d: Doc): seq<byte> {
    Utf8.Encode(Encode(d))
  }

  lemma CanonicalBytesExact(d: Doc, e: Doc)
    requires d.Valid() && e.Valid()
    ensures CanonicalBytes(d) == CanonicalBytes(e) <==> Meaning(d) == Meaning(e)
  {
    EncodeExact(d, e);
    if CanonicalBytes(d) == CanonicalBytes(e) {
      Utf8.EncodeInjective(Encode(d), Encode(e));
    }
  }
}
