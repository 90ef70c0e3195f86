/** The envelope header that the encrypted transport binds as associated data. */
module TransportHeader {
  import opened Prelude
  import opened Integers
  import opened CanonicalJson
  import Aead
  import Poly1305

  const HEADER_NAMES: seq<string> := [
    "format", "key_id", "nonce", "message_type", "from", "to", "mission_id", "correlation_id", "plaintext_sha256"
  ]

  /** An envelope record: field name to JSON value. */
  type Record = map<string, Doc>

  function Default(name: string): Doc {
    if name == "format" then DStr("ETR/v1.0")
    else if name == "key_id" || name == "nonce" || name == "plaintext_sha256" then DStr("")
    else DNull
  }

  function HeaderField(rec: Record, name: string): Doc {
    if name in rec then rec[name] else Default(name)
  }

  function Entries(rec: Record, names: seq<string>): (r: seq<(string, Doc)>)
    ensures |r| == |names|
    ensures forall i :: 0 <= i < |r| ==> r[i] == (names[i], HeaderField(rec, names[i]))
  {
    if names == [] then [] else [(names[0], HeaderField(rec, names[0]))] + Entries(rec, names[1..])
  }

  /** `_header_for_aad`. */
  function Header(rec: Record): Doc {
    DObj(Entries(rec, HEADER_NAMES))
  }

  predicate ValidRecord(rec: Record) {
    forall name <- rec :: rec[name].Valid()
  }

  lemma EntriesValid(rec: Record, names: seq<string>)
    requires ValidRecord(rec) && Distinct(names)
    ensures DObj(Entries(rec, names)).Valid() && Keys(Entries(rec, names)) == names
  {
    hide Entries;
    assert Keys(Entries(rec, names)) == names;
  }

  lemma EntriesMeaning(rec: Record, names: seq<string>)
    requires ValidRecord(rec) && Distinct(names)
    ensures Meaning(DObj(Entries(rec, names))).Obj?
    ensures Meaning(DObj(Entries(rec, names))).fields.Keys == Elements(names)
    ensures forall name <- names :: Meaning(DObj(Entries(rec, names))).fields[name] == Meaning(HeaderField(rec, name))
  {
    hide Meaning, Entries, Lookup, HeaderField;
    EntriesValid(rec, names);
    FieldsOf(DObj(Entries(rec, names)));
    forall name <- names ensures Lookup(Entries(rec, names), name) == HeaderField(rec, name) {
      LookupField(rec, names, name);
    }
  }

  lemma LookupField(rec: Record, names: seq<string>, name: string)
    requires name in names
    ensures name in Keys(Entries(rec, names)) && Lookup(Entries(rec, names), name) == HeaderField(rec, name)
  {
    hide Entries, Lookup, HeaderField;
    var entries := Entries(rec, names);
    assert Keys(entries) == names;
    assert (name, Lookup(entries, name)) in entries;
  }

  lemma HeaderMeaning(rec: Record)
    requires ValidRecord(rec)
    ensures Header(rec).Valid()
    ensures Meaning(Header(rec)).Obj? && Meaning(Header(rec)).fields.Keys == Elements(HEADER_NAMES)
    ensures forall name <- HEADER_NAMES :: Meaning(Header(rec)).fields[name] == Meaning(HeaderField(rec, name))
  {
    hide Meaning, Entries, HeaderField;
    NamesDistinct();
    EntriesValid(rec, HEADER_NAMES);
    EntriesMeaning(rec, HEADER_NAMES);
  }

  function Or(rec: Record, name: string, default: Doc): Doc {
    if name in rec then rec[name] else default
  }

  /** The nine names, each with the record's value or, where the record has none, with its default. */
  lemma HeaderSpelling(rec: Record)
    requires ValidRecord(rec)
    ensures Meaning(Header(rec)).Obj?
    ensures var f := Meaning(Header(rec)).fields;
            && f.Keys == {"format", "key_id", "nonce", "message_type", "from", "to", "mission_id", "correlation_id",
                          "plaintext_sha256"}
            && f["format"] == Meaning(Or(rec, "format", DStr("ETR/v1.0")))
            && f["key_id"] == Meaning(Or(rec, "key_id", DStr(""))) && f["nonce"] == Meaning(Or(rec, "nonce", DStr("")))
            && f["message_type"] == Meaning(Or(rec, "message_type", DNull))
            && f["from"] == Meaning(Or(rec, "from", DNull))
            && f["to"] == Meaning(Or(rec, "to", DNull)) && f["mission_id"] == Meaning(Or(rec, "mission_id", DNull))
            && f["correlation_id"] == Meaning(Or(rec, "correlation_id", DNull))
            && f["plaintext_sha256"] == Meaning(Or(rec, "plaintext_sha256", DStr("")))
  {
    hide Meaning, Header, Or;
    HeaderMeaning(rec);
    NamesListed();
    StringDefaults(rec);
    NullDefaults(rec);
  }

  lemma NamesListed()
    ensures Elements(HEADER_NAMES) == {"format", "key_id", "nonce", "message_type", "from", "to", "mission_id",
                                       "correlation_id", "plaintext_sha256"}
    ensures forall name <- Elements(HEADER_NAMES) :: name in HEADER_NAMES
  {
    var n := HEADER_NAMES;
    assert n == [n[0], n[1], n[2], n[3], n[4], n[5], n[6], n[7], n[8]];
  }

  lemma StringDefaults(rec: Record)
    ensures HeaderField(rec, "format") == Or(rec, "format", DStr("ETR/v1.0"))
    ensures HeaderField(rec, "key_id") == Or(rec, "key_id", DStr(""))
    ensures HeaderField(rec, "nonce") == Or(rec, "nonce", DStr(""))
    ensures HeaderField(rec, "plaintext_sha256") == Or(rec, "plaintext_sha256", DStr(""))
  {
  }

  lemma NullDefaults(rec: Record)
    ensures HeaderField(rec, "message_type") == Or(rec, "message_type", DNull)
    ensures HeaderField(rec, "from") == Or(rec, "from", DNull) && HeaderField(rec, "to") == Or(rec, "to", DNull)
    ensures HeaderField(rec, "mission_id") == Or(rec, "mission_id", DNull)
    ensures HeaderField(rec, "correlation_id") == Or(rec, "correlation_id", DNull)
  {
  }

  lemma NamesDistinct()
    ensures Distinct(HEADER_NAMES)
  {
    var n := HEADER_NAMES;
    assert |n[0]| == 6 && |n[1]| == 6 && |n[2]| == 5 && |n[3]| == 12 && |n[4]| == 4 && |n[5]| == 2;
    assert |n[6]| == 10 && |n[7]| == 14 && |n[8]| == 16;
    assert n[0][0] == 'f' && n[1][0] == 'k';
  }

  ghost predicate SameHeader(r: Record, s: Record) {
    forall name <- HEADER_NAMES :: Meaning(HeaderField(r, name)) == Meaning(HeaderField(s, name))
  }

  /** The associated data fixes the nine header fields, and nothing else of the record. */
  lemma HeaderBytesExact(r: Record, s: Record)
    requires ValidRecord(r) && ValidRecord(s)
    ensures CanonicalBytes(Header(r)) == CanonicalBytes(Header(s)) <==> SameHeader(r, s)
  {
    hide Meaning, Header;
    HeaderMeaning(r);
    HeaderMeaning(s);
    CanonicalBytesExact(Header(r), Header(s));
    if SameHeader(r, s) {
      forall name | name in Meaning(Header(r)).fields
        ensures Meaning(Header(r)).fields[name] == Meaning(Header(s)).fields[name]
      {
        assert name in Elements(HEADER_NAMES);
      }
      assert Meaning(Header(r)).fields == Meaning(Header(s)).fields;
    }
  }

  /** Two envelopes give Poly1305 the same polynomial only with the same header and ciphertext. */
  lemma EnvelopeExactlyAuthenticated(r: Record, c: seq<byte>, s: Record, c': seq<byte>)
    requires ValidRecord(r) && ValidRecord(s) && |c| < Aead.MAX_PACKED && |c'| < Aead.MAX_PACKED
    requires |CanonicalBytes(Header(r))| < Aead.MAX_PACKED && |CanonicalBytes(Header(s))| < Aead.MAX_PACKED
    ensures
      Poly1305.Coefficients(Aead.MacData(CanonicalBytes(Header(r)), c))
        == Poly1305.Coefficients(Aead.MacData(CanonicalBytes(Header(s)), c'))
      <==> SameHeader(r, s) && c == c'
  {
    HeaderBytesExact(r, s);
    Aead.AuthenticatedExactly(CanonicalBytes(Header(r)), c, CanonicalBytes(Header(s)), c');
  }
}
