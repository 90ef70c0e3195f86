/** The key service: keys, their status journals and their signing ledgers. */
module KeyStore {
  import opened Prelude
  import opened Integers
  import opened CanonicalJson
  import opened Journal

  datatype Key = Key(keyType: string, material: string)

  /** The three directories of the service: key files, status journals, signing ledgers. */
  datatype Store = Store(keys: map<string, Key>, status: map<string, seq<Line>>, ledger: map<string, seq<Line>>)

  /** `Unhandled` is an exception of another kind escaping from a line that is JSON but no object. */
  datatype KeyError = IdInvalid | NotFound | LedgerBroken | NotActive | TypeUnsupported | KeyExists | Unhandled

  datatype Crypto = Crypto(sha: Sha, hmac: (string, seq<byte>) -> string)

  /** Who asks, when, and why: fields that are recorded but never read back. */
  datatype Note = Note(actor: string, at: string, reason: string, purpose: Option<string>)

  datatype Signature = Signature(payloadSha256: string, signatureHex: string, entryHash: string)

  predicate UnsafeId(id: string) {
    '/' in id || '\\' in id || '\0' in id || exists i :: 0 <= i < |id| - 1 && id[i] == '.' && id[i + 1] == '.'
  }

  /** The text holds this piece. */
  ghost predicate Holds(text: string, piece: string) {
    exists before: string, behind: string :: text == before + piece + behind
  }

  lemma HoldsAt(text: string, piece: string, i: nat)
    requires i + |piece| <= |text| && text[i..i + |piece|] == piece
    ensures Holds(text, piece)
  {
    assert text == text[..i] + piece + text[i + |piece|..];
  }

  /** An id is unsafe exactly when it holds a path separator, a zero character or two dots in a row. */
  lemma UnsafeExactly(id: string)
    ensures UnsafeId(id) <==> Holds(id, "..") || Holds(id, "/") || Holds(id, "\\") || Holds(id, "\0")
  {
    if UnsafeId(id) {
      if i :| 0 <= i < |id| && id[i] in "/\\\0" {
        HoldsAt(id, [id[i]], i);
        assert [id[i]] == "/" || [id[i]] == "\\" || [id[i]] == "\0";
      } else {
        var i :| 0 <= i < |id| - 1 && id[i] == '.' && id[i + 1] == '.';
        assert id[i..i + 2] == "..";
        HoldsAt(id, "..", i);
      }
    }
    if Holds(id, "..") {
      var before: string, behind: string :| id == before + ".." + behind;
      assert id[|before|] == '.' && id[|before| + 1] == '.';
    }
  }

  function FileOf(files: map<string, seq<Line>>, id: string): Option<seq<Line>> {
    if id in files then Some(files[id]) else None
  }

  function LinesOf(files: map<string, seq<Line>>, id: string): seq<Line> {
    if id in files then files[id] else []
  }

  // ---------------------------------------------------------------- one-pass verification

  ghost predicate FaultIsScalar(sha: Sha, lines: seq<Line>) {
    exists i: nat :: FirstFault(sha, AuditLayout, lines, i) && lines[i].NotObject?
  }

  /** What the one-pass loop must return: the tail hash of a chain, otherwise nothing and `false`. */
  ghost function OnePass(sha: Sha, file: Option<seq<Line>>): Result<(Doc, bool), JournalError> {
    if file.None? then Ok((DNull, false))
    else if Chain(sha, AuditLayout, file.value) then Ok((Tail(AuditLayout, file.value), true))
    else if FaultIsScalar(sha, file.value) then Err(Malformed)
    else Ok((DNull, false))
  }

  lemma ScalarDecides(sha: Sha, lines: seq<Line>, i: nat)
    requires FirstFault(sha, AuditLayout, lines, i)
    ensures FaultIsScalar(sha, lines) <==> lines[i].NotObject?
  {
    hide LinkedAt;
    forall j: nat | FirstFault(sha, AuditLayout, lines, j) ensures j == i {
      FirstFaultUnique(sha, AuditLayout, lines, i, j);
    }
  }

  /** `_verify_journal_chain_last`. */
  method VerifyChainLast(sha: Sha, file: Option<seq<Line>>) returns (r: Result<(Doc, bool), JournalError>)
    ensures r == OnePass(sha, file)
  {
    hide Chain, FirstFault, FaultIsScalar, Get, EntryHash;
    if file.None? {
      return Ok((DNull, false));
    }
    var lines := file.value;
    var previous := DNull;
    EmptyChain(sha, AuditLayout, lines[..0]);
    for i := 0 to |lines|
      invariant Chain(sha, AuditLayout, lines[..i]) && previous == Tail(AuditLayout, lines[..i])
    {
      ChainStep(sha, AuditLayout, lines, i);
      var line := lines[i];
      if line.NotObject? {
        ScalarDecides(sha, lines, i);
        return Err(Malformed);
      }
      if !line.Entry?
         || Get(line.record, AuditLayout.Previous()) != previous
         || Get(line.record, AuditLayout.Hash()) != DStr(EntryHash(sha, AuditLayout, line.record)) {
        ScalarDecides(sha, lines, i);
        return Ok((DNull, false));
      }
      previous := Get(line.record, AuditLayout.Hash());
    }
    assert lines[..|lines|] == lines;
    r := Ok((previous, true));
  }

  /**
   One pass agrees with separate verification and last-hash reading: it accepts exactly the
   files that exist and verify, and then returns the hash a second read would have found.
   */
  lemma OnePassAgrees(sha: Sha, file: Option<seq<Line>>, tail: Doc)
    requires Hex64(sha)
    ensures OnePass(sha, file) == Ok((tail, true)) <==>
            file.Some? && Chain(sha, AuditLayout, file.value) && LastHashOf(AuditLayout, file.value) == Ok(tail)
  {
    hide Chain, FaultIsScalar, Tail, LastHashOf;
    if file.Some? && Chain(sha, AuditLayout, file.value) {
      LastHashOfChain(sha, AuditLayout, file.value);
    }
  }

  // ---------------------------------------------------------------- status

  /** `status`: the `status` field of the last entry of a verified journal. */
  ghost function StatusOf(c: Crypto, s: Store, id: string): Result<Doc, KeyError> {
    if UnsafeId(id) then Err(IdInvalid)
    else if id !in s.keys then Err(NotFound)
    else if id !in s.status then Err(LedgerBroken)
    else if OnePass(c.sha, Some(s.status[id])).Err? then Err(Unhandled)
    else if !Chain(c.sha, AuditLayout, s.status[id]) || s.status[id] == [] then Err(LedgerBroken)
    else
      var last := s.status[id][|s.status[id]| - 1];
      if last.Entry? && "status" in Keys(last.record) then Ok(Get(last.record, "status")) else Err(LedgerBroken)
  }

  /** `_require_active`. */
  ghost function Active(c: Crypto, s: Store, id: string): Result<Key, KeyError> {
    match StatusOf(c, s, id)
    case Err(e) => Err(e)
    case Ok(st) =>
      if st != DStr("ACTIVE") then Err(NotActive)
      else if id in s.keys && s.keys[id].keyType == "HMAC-SHA256" then Ok(s.keys[id]) else Err(TypeUnsupported)
  }

  // ---------------------------------------------------------------- entries

  function StatusBody(id: string, status: string, reason: string, n: Note): Record {
    [("format", DStr("CKS/v1.0")), ("kind", DStr("key-status")), ("key_id", DStr(id)), ("status", DStr(status)),
     ("reason", DStr(reason)), ("actor", DStr(n.actor)), ("at", DStr(n.at))]
  }

  function SignatureBody(id: string, payloadSha: string, sig: string, n: Note): Record {
    [("format", DStr("CKS/v1.0")), ("kind", DStr("signature")), ("key_id", DStr(id)),
     ("payload_sha256", DStr(payloadSha)), ("signature_hex", DStr(sig)), ("signed_at", DStr(n.at)),
     ("actor", DStr(n.actor)), ("purpose", if n.purpose.Some? then DStr(n.purpose.value) else DNull)]
  }

  const STATUS_KEYS: seq<string> := ["format", "kind", "key_id", "status", "reason", "actor", "at"]

  const SIGNATURE_KEYS: seq<string> :=
    ["format", "kind", "key_id", "payload_sha256", "signature_hex", "signed_at", "actor", "purpose"]

  lemma StatusNames()
    ensures Distinct(STATUS_KEYS) && AuditLayout.Hash() !in STATUS_KEYS && AuditLayout.Previous() !in STATUS_KEYS
  {
    var keys := STATUS_KEYS;
    assert |keys[0]| == 6 && |keys[1]| == 4 && |keys[2]| == 6 && |keys[3]| == 6 && |keys[4]| == 6 && |keys[5]| == 5
           && |keys[6]| == 2;
    assert keys[0][0] == 'f' && keys[2][0] == 'k' && keys[3][0] == 's' && keys[4][0] == 'r';
    assert |AuditLayout.Hash()| == 10 && |AuditLayout.Previous()| == 13;
  }

  lemma SignatureNames()
    ensures Distinct(SIGNATURE_KEYS)
    ensures AuditLayout.Hash() !in SIGNATURE_KEYS && AuditLayout.Previous() !in SIGNATURE_KEYS
  {
    var keys := SIGNATURE_KEYS;
    assert |keys[0]| == 6 && |keys[1]| == 4 && |keys[2]| == 6 && |keys[3]| == 14 && |keys[4]| == 13 && |keys[5]| == 9
           && |keys[6]| == 5 && |keys[7]| == 7;
    assert keys[0][0] == 'f' && keys[2][0] == 'k' && keys[4][0] == 's';
    assert |AuditLayout.Hash()| == 10 && |AuditLayout.Previous()| == 13 && AuditLayout.Previous()[0] == 'p';
  }

  /** A flat record with these distinct keys is a journal body, and each field reads back. */
  lemma FlatBody(body: Record, keys: seq<string>)
    requires |body| == |keys| && Distinct(keys) && AuditLayout.Hash() !in keys && AuditLayout.Previous() !in keys
    requires forall i :: 0 <= i < |body| ==> body[i].0 == keys[i] && (body[i].1.DStr? || body[i].1.DNull?)
    ensures Body(AuditLayout, body) && Keys(body) == keys
    ensures forall i :: 0 <= i < |body| ==> keys[i] in Keys(body) && Get(body, keys[i]) == body[i].1
  {
    hide Keys, Lookup, Layout.Hash, Layout.Previous;
    assert Keys(body) == keys;
    forall e <- body ensures e.1.Valid() {
      assert e.1.DStr? || e.1.DNull?;
    }
    forall i | 0 <= i < |body| ensures keys[i] in Keys(body) && Get(body, keys[i]) == body[i].1 {
      assert body[i] in body && body[i] == (keys[i], body[i].1);
      LookupUnique(body, keys[i], body[i].1);
    }
  }

  /** The seven fields of a status entry, as they read back from a record. */
  predicate StatusFields(r: Record, id: string, status: string, reason: string, n: Note) {
    && Get(r, "format") == DStr("CKS/v1.0") && Get(r, "kind") == DStr("key-status") && Get(r, "key_id") == DStr(id)
    && Get(r, "status") == DStr(status) && Get(r, "reason") == DStr(reason)
    && Get(r, "actor") == DStr(n.actor) && Get(r, "at") == DStr(n.at)
  }

  /** The eight fields of a ledger entry. */
  predicate SignatureFields(r: Record, id: string, payloadSha: string, sig: string, n: Note) {
    && Get(r, "format") == DStr("CKS/v1.0") && Get(r, "kind") == DStr("signature") && Get(r, "key_id") == DStr(id)
    && Get(r, "payload_sha256") == DStr(payloadSha) && Get(r, "signature_hex") == DStr(sig)
    && Get(r, "signed_at") == DStr(n.at) && Get(r, "actor") == DStr(n.actor)
    && Get(r, "purpose") == (if n.purpose.Some? then DStr(n.purpose.value) else DNull)
  }

  /** A journal entry over these fields: linked to the entry before, and carrying its own digest. */
  predicate EntryAfter(sha: Sha, line: Line, before: seq<Line>, fields: seq<string>) {
    && line.Entry? && Keys(line.record) == fields + ["previous_hash", "entry_hash"]
    && Get(line.record, "previous_hash") == OfLast(before, "entry_hash") && HashesItself(sha, line.record, "entry_hash")
  }

  lemma StatusBodyOk(id: string, status: string, reason: string, n: Note)
    ensures var body := StatusBody(id, status, reason, n);
            Body(AuditLayout, body) && Keys(body) == STATUS_KEYS && StatusFields(body, id, status, reason, n)
  {
    hide Keys, Get, Layout.Hash, Layout.Previous, STATUS_KEYS;
    StatusShape(id, status, reason, n);
    StatusNames();
    FlatBody(StatusBody(id, status, reason, n), STATUS_KEYS);
  }

  lemma StatusShape(id: string, status: string, reason: string, n: Note)
    ensures var body := StatusBody(id, status, reason, n);
            && |body| == |STATUS_KEYS| == 7
            && STATUS_KEYS == ["format", "kind", "key_id", "status", "reason", "actor", "at"]
            && body[0].1 == DStr("CKS/v1.0") && body[1].1 == DStr("key-status") && body[2].1 == DStr(id)
            && body[3].1 == DStr(status) && body[4].1 == DStr(reason)
            && body[5].1 == DStr(n.actor) && body[6].1 == DStr(n.at)
            && forall i :: 0 <= i < |body| ==> body[i].0 == STATUS_KEYS[i] && (body[i].1.DStr? || body[i].1.DNull?)
  {
  }

  lemma SignatureShape(id: string, payloadSha: string, sig: string, n: Note)
    ensures var body := SignatureBody(id, payloadSha, sig, n);
            && |body| == |SIGNATURE_KEYS| == 8
            && SIGNATURE_KEYS == ["format", "kind", "key_id", "payload_sha256", "signature_hex", "signed_at", "actor",
                                  "purpose"]
            && body[0].1 == DStr("CKS/v1.0") && body[1].1 == DStr("signature") && body[2].1 == DStr(id)
            && body[3].1 == DStr(payloadSha) && body[4].1 == DStr(sig) && body[5].1 == DStr(n.at)
            && body[6].1 == DStr(n.actor) && body[7].1 == (if n.purpose.Some? then DStr(n.purpose.value) else DNull)
            && forall i :: 0 <= i < |body| ==> body[i].0 == SIGNATURE_KEYS[i] && (body[i].1.DStr? || body[i].1.DNull?)
  {
  }

  lemma SignatureBodyOk(id: string, payloadSha: string, sig: string, n: Note)
    ensures var body := SignatureBody(id, payloadSha, sig, n);
            Body(AuditLayout, body) && Keys(body) == SIGNATURE_KEYS && SignatureFields(body, id, payloadSha, sig, n)
  {
    hide Keys, Get, Layout.Hash, Layout.Previous, SIGNATURE_KEYS, SignatureBody;
    var body := SignatureBody(id, payloadSha, sig, n);
    SignatureShape(id, payloadSha, sig, n);
    SignatureNames();
    FlatBody(body, SIGNATURE_KEYS);
  }

  // ---------------------------------------------------------------- operations

  /** The hash `_append_jsonl` links to when it is given none. */
  function ReadTail(lines: seq<Line>): Result<Doc, KeyError> {
    match LastHashOf(AuditLayout, lines)
    case Ok(h) => Ok(h)
    case Err(_) =>
      var solid := Solid(lines);
      if solid != [] && solid[|solid| - 1].NotObject? then Err(Unhandled) else Err(LedgerBroken)
  }

  /** `_append_jsonl`. */
  function Extended(sha: Sha, lines: seq<Line>, body: Record, previous: Doc): Result<seq<Line>, KeyError> {
    if previous != DNull then Ok(lines + [Entry(Sealed(sha, AuditLayout, body, previous))])
    else
      match ReadTail(lines)
      case Err(e) => Err(e)
      case Ok(h) => Ok(lines + [Entry(Sealed(sha, AuditLayout, body, h))])
  }

  /**
   Appending without a known hash fails exactly when the last line that is not blank carries no hash of 64
   characters; the error is an unhandled exception when that line is JSON but no object, else LEDGER_BROKEN.
   */
  lemma ExtendedFails(sha: Sha, lines: seq<Line>, body: Record)
    ensures var solid := Solid(lines); var r := Extended(sha, lines, body, DNull);
            && (r.Ok? <==> solid == [] || (OfLast(solid, "entry_hash").DStr? && |OfLast(solid, "entry_hash").s| == 64))
            && (r.Err? ==> solid != [] && r.error == if solid[|solid| - 1].NotObject? then Unhandled else LedgerBroken)
  {
    hide Sealed, Lookup, Keys, Solid;
    LastHashSolid(AuditLayout, lines);
    SolidSolid(lines);
  }

  lemma SolidSolid(lines: seq<Line>)
    ensures Solid(lines) != [] ==> !Solid(lines)[|Solid(lines)| - 1].Blank?
  {
    assert Solid(lines) != [] ==> Solid(lines)[|Solid(lines)| - 1] in Solid(lines);
  }

  /** Appending one status entry to the journal of a key. */
  function WithStatus(sha: Sha, s: Store, id: string, status: string, reason: string, n: Note):
    Result<Store, KeyError>
  {
    match Extended(sha, LinesOf(s.status, id), StatusBody(id, status, reason, n), DNull)
    case Err(e) => Err(e)
    case Ok(lines) => Ok(s.(status := s.status[id := lines]))
  }

  datatype Op =
    | Create(newId: string, material: string, note: Note)
    | Sign(id: string, payload: seq<byte>, note: Note)
    | Rotate(id: string, newId: string, material: string, note: Note)
    | Revoke(id: string, note: Note)

  datatype Outcome = Done | Signed(signature: Signature) | Failed(error: KeyError)

  /** `create_key`, with its random key id and material as inputs. */
  function CreateKey(sha: Sha, s: Store, id: string, material: string, n: Note): (Store, Outcome) {
    if id in s.keys then (s, Failed(KeyExists))
    else
      var t := s.(keys := s.keys[id := Key("HMAC-SHA256", material)]);
      match WithStatus(sha, t, id, "ACTIVE", "CREATION", n)
      case Err(e) => (t, Failed(e))
      case Ok(u) => (u, Done)
  }

  ghost function SignPayload(c: Crypto, s: Store, id: string, payload: seq<byte>, n: Note): (Store, Outcome) {
    match Active(c, s, id)
    case Err(e) => (s, Failed(e))
    case Ok(key) =>
      match OnePass(c.sha, FileOf(s.ledger, id))
      case Err(_) => (s, Failed(Unhandled))
      case Ok((tail, ok)) =>
        if !ok && id in s.ledger then (s, Failed(LedgerBroken))
        else
          var sig := c.hmac(key.material, payload);
          var body := SignatureBody(id, c.sha(payload), sig, n);
          match Extended(c.sha, LinesOf(s.ledger, id), body, tail)
          case Err(e) => (s, Failed(e))
          case Ok(lines) =>
            ExtendedLength(c.sha, LinesOf(s.ledger, id), body, tail);
            var last := lines[|lines| - 1];
            (s.(ledger := s.ledger[id := lines]),
             Signed(Signature(c.sha(payload), sig, HashText(LineHash(AuditLayout, last)))))
  }

  function HashText(d: Doc): string {
    if d.DStr? then d.s else ""
  }

  /** `rotate`: the old key is retired before the new one is created. */
  ghost function RotateKey(c: Crypto, s: Store, id: string, newId: string, material: string, n: Note):
    (Store, Outcome)
  {
    match Active(c, s, id)
    case Err(e) => (s, Failed(e))
    case Ok(_) =>
      match WithStatus(c.sha, s, id, "ROTATED", n.reason, n)
      case Err(e) => (s, Failed(e))
      case Ok(t) => CreateKey(c.sha, t, newId, material, n)
  }

  ghost function RevokeKey(c: Crypto, s: Store, id: string, n: Note): (Store, Outcome) {
    match Active(c, s, id)
    case Err(e) => (s, Failed(e))
    case Ok(_) =>
      match WithStatus(c.sha, s, id, "REVOKED", n.reason, n)
      case Err(e) => (s, Failed(e))
      case Ok(t) => (t, Done)
  }

  ghost function Apply(c: Crypto, s: Store, op: Op): (Store, Outcome) {
    match op
    case Create(newId, material, n) => CreateKey(c.sha, s, newId, material, n)
    case Sign(id, payload, n) => SignPayload(c, s, id, payload, n)
    case Rotate(id, newId, material, n) => RotateKey(c, s, id, newId, material, n)
    case Revoke(id, n) => RevokeKey(c, s, id, n)
  }

  // ---------------------------------------------------------------- the service

  class KeyService {
    var keys: map<string, Key>
    var status: map<string, seq<Line>>
    var ledger: map<string, seq<Line>>
    const c: Crypto

    constructor (c: Crypto)
      ensures this.c == c && Snapshot() == Store(map[], map[], map[])
    {
      this.c := c;
      keys, status, ledger := map[], map[], map[];
    }

    ghost function Snapshot(): Store
      reads this
    {
      Store(keys, status, ledger)
    }

    method ReadStatus(id: string) returns (r: Result<Doc, KeyError>)
      ensures r == StatusOf(c, Snapshot(), id)
    {
      hide Chain, OnePass, Get;
      if UnsafeId(id) {
        return Err(IdInvalid);
      }
      if id !in keys {
        return Err(NotFound);
      }
      if id !in status {
        return Err(LedgerBroken);
      }
      var pass := VerifyChainLast(c.sha, Some(status[id]));
      OnePassVerdict(c.sha, status[id]);
      if pass.Err? {
        return Err(Unhandled);
      }
      if !pass.value.1 || status[id] == [] {
        return Err(LedgerBroken);
      }
      var last := status[id][|status[id]| - 1];
      if last.Entry? && "status" in Keys(last.record) {
        r := Ok(Get(last.record, "status"));
      } else {
        r := Err(LedgerBroken);
      }
    }

    method RequireActive(id: string) returns (r: Result<Key, KeyError>)
      ensures r == Active(c, Snapshot(), id)
    {
      hide StatusOf;
      var st := ReadStatus(id);
      if st.Err? {
        return Err(st.error);
      }
      if st.value != DStr("ACTIVE") {
        return Err(NotActive);
      }
      r := if id in keys && keys[id].keyType == "HMAC-SHA256" then Ok(keys[id]) else Err(TypeUnsupported);
    }

    method AppendStatus(id: string, st: string, reason: string, n: Note) returns (r: Option<KeyError>)
      modifies this`status
      ensures match WithStatus(c.sha, old(Snapshot()), id, st, reason, n)
              case Err(e) => r == Some(e) && Snapshot() == old(Snapshot())
              case Ok(t) => r == None && Snapshot() == t
    {
      hide StatusBody, Extended;
      var lines := Extended(c.sha, LinesOf(status, id), StatusBody(id, st, reason, n), DNull);
      if lines.Err? {
        return Some(lines.error);
      }
      status := status[id := lines.value];
      r := None;
    }

    method CreateNew(id: string, material: string, n: Note) returns (r: Outcome)
      modifies this
      ensures (Snapshot(), r) == CreateKey(c.sha, old(Snapshot()), id, material, n)
    {
      hide WithStatus;
      if id in keys {
        return Failed(KeyExists);
      }
      keys := keys[id := Key("HMAC-SHA256", material)];
      var error := AppendStatus(id, "ACTIVE", "CREATION", n);
      r := if error.Some? then Failed(error.value) else Done;
    }

    method SignBytes(id: string, payload: seq<byte>, n: Note) returns (r: Outcome)
      modifies this`ledger
      ensures (Snapshot(), r) == SignPayload(c, old(Snapshot()), id, payload, n)
    {
      hide Active, OnePass, Extended, SignatureBody;
      var key := RequireActive(id);
      if key.Err? {
        return Failed(key.error);
      }
      var pass := VerifyChainLast(c.sha, FileOf(ledger, id));
      if pass.Err? {
        return Failed(Unhandled);
      }
      if !pass.value.1 && id in ledger {
        return Failed(LedgerBroken);
      }
      var sig := c.hmac(key.value.material, payload);
      var lines := Extended(c.sha, LinesOf(ledger, id), SignatureBody(id, c.sha(payload), sig, n), pass.value.0);
      if lines.Err? {
        return Failed(lines.error);
      }
      ledger := ledger[id := lines.value];
      ExtendedLength(c.sha, LinesOf(old(ledger), id), SignatureBody(id, c.sha(payload), sig, n), pass.value.0);
      r := Signed(Signature(c.sha(payload), sig, HashText(LineHash(AuditLayout, lines.value[|lines.value| - 1]))));
    }

    /** `verify`; a status that cannot be established counts as not active. */
    method Verify(id: string, payload: seq<byte>, sig: string) returns (r: Result<bool, KeyError>)
      ensures r == VerifySignature(c, Snapshot(), id, payload, sig)
    {
      hide StatusOf;
      if UnsafeId(id) {
        return Err(IdInvalid);
      }
      if id !in keys {
        return Err(NotFound);
      }
      var st := ReadStatus(id);
      if st == Err(Unhandled) {
        return Err(Unhandled);
      }
      if st != Ok(DStr("ACTIVE")) || keys[id].keyType != "HMAC-SHA256" {
        return Ok(false);
      }
      r := Ok(c.hmac(keys[id].material, payload) == sig);
    }

    method RotateActive(id: string, newId: string, material: string, n: Note) returns (r: Outcome)
      modifies this
      ensures (Snapshot(), r) == RotateKey(c, old(Snapshot()), id, newId, material, n)
    {
      hide Active, WithStatus, CreateKey;
      var key := RequireActive(id);
      if key.Err? {
        return Failed(key.error);
      }
      var error := AppendStatus(id, "ROTATED", n.reason, n);
      if error.Some? {
        return Failed(error.value);
      }
      r := CreateNew(newId, material, n);
    }

    method RevokeActive(id: string, n: Note) returns (r: Outcome)
      modifies this
      ensures (Snapshot(), r) == RevokeKey(c, old(Snapshot()), id, n)
    {
      hide Active, WithStatus;
      var key := RequireActive(id);
      if key.Err? {
        return Failed(key.error);
      }
      var error := AppendStatus(id, "REVOKED", n.reason, n);
      r := if error.Some? then Failed(error.value) else Done;
    }
  }

  lemma ExtendedLength(sha: Sha, lines: seq<Line>, body: Record, previous: Doc)
    ensures Extended(sha, lines, body, previous).Ok? ==> |Extended(sha, lines, body, previous).value| == |lines| + 1
  {
    hide Sealed, ReadTail;
  }

  lemma OnePassVerdict(sha: Sha, lines: seq<Line>)
    ensures OnePass(sha, Some(lines)).Err? ==> !Chain(sha, AuditLayout, lines)
    ensures OnePass(sha, Some(lines)).Ok? ==> OnePass(sha, Some(lines)).value.1 == Chain(sha, AuditLayout, lines)
  {
    hide Chain, FaultIsScalar;
  }

  // ---------------------------------------------------------------- lifecycle

  predicate HasStatus(line: Line, status: string) {
    line.Entry? && "status" in Keys(line.record) && Get(line.record, "status") == DStr(status)
  }

  /** [ACTIVE], or [ACTIVE, ROTATED], or [ACTIVE, REVOKED]. */
  predicate Lifecycle(lines: seq<Line>) {
    || (|lines| == 1 && HasStatus(lines[0], "ACTIVE"))
    || (|lines| == 2 && HasStatus(lines[0], "ACTIVE")
        && (HasStatus(lines[1], "ROTATED") || HasStatus(lines[1], "REVOKED")))
  }

  predicate Retired(s: Store, id: string) {
    id in s.status && |s.status[id]| == 2
  }

  ghost predicate Sound(sha: Sha, s: Store) {
    && s.keys.Keys == s.status.Keys && s.ledger.Keys <= s.keys.Keys
    && (forall id <- s.status :: Lifecycle(s.status[id]) && Chain(sha, AuditLayout, s.status[id]))
    && (forall id <- s.ledger :: Chain(sha, AuditLayout, s.ledger[id]))
  }

  /** What a step may do to the keys that exist: add a status, add signatures, and neither once retired. */
  ghost predicate Evolves(s: Store, t: Store) {
    && s.keys.Keys <= t.keys.Keys
    && (forall id <- s.keys :: t.keys[id] == s.keys[id])
    && (forall id <- s.status :: id in t.status && s.status[id] <= t.status[id])
    && (forall id <- s.ledger :: id in t.ledger && s.ledger[id] <= t.ledger[id])
    && (forall id <- s.status ::
        Retired(s, id) ==> t.status[id] == s.status[id] && FileOf(t.ledger, id) == FileOf(s.ledger, id))
  }

  lemma StatusReads(c: Crypto, s: Store, id: string)
    requires Sound(c.sha, s) && id in s.keys && !UnsafeId(id)
    ensures StatusOf(c, s, id).Ok?
    ensures StatusOf(c, s, id) == Ok(DStr("ACTIVE")) <==> !Retired(s, id)
  {
    hide Chain, HasStatus, Get;
    OnePassVerdict(c.sha, s.status[id]);
    var lines := s.status[id];
    StatusWords();
    assert Lifecycle(lines);
    HasStatusGet(lines[|lines| - 1], "ACTIVE");
    HasStatusGet(lines[|lines| - 1], "ROTATED");
    HasStatusGet(lines[|lines| - 1], "REVOKED");
  }

  lemma HasStatusGet(line: Line, status: string)
    ensures HasStatus(line, status) ==>
            line.Entry? && "status" in Keys(line.record) && Get(line.record, "status") == DStr(status)
  {
  }

  lemma StatusWords()
    ensures "ACTIVE" != "ROTATED" && "ACTIVE" != "REVOKED"
  {
    assert |"ACTIVE"| == 6 && |"ROTATED"| == 7 && |"REVOKED"| == 7;
  }

  lemma ExtendedChain(sha: Sha, lines: seq<Line>, body: Record, previous: Doc)
    requires Hex64(sha) && Chain(sha, AuditLayout, lines) && Body(AuditLayout, body)
    requires previous == DNull || previous == Tail(AuditLayout, lines)
    ensures var entry := Entry(Sealed(sha, AuditLayout, body, Tail(AuditLayout, lines)));
            && Extended(sha, lines, body, previous) == Ok(lines + [entry])
            && Chain(sha, AuditLayout, lines + [entry])
            && EntryAfter(sha, entry, lines, Keys(body))
            && forall k <- Keys(body) :: Get(entry.record, k) == Get(body, k)
  {
    hide Chain, Body, Sealed, Linked, Get, LastHashOf, Tail, Keys, OfLast, HashesItself;
    LastHashOfChain(sha, AuditLayout, lines);
    ChainLast(sha, AuditLayout, lines);
    var tail := Tail(AuditLayout, lines);
    SealedLinked(sha, AuditLayout, body, tail);
    SealedSpelling(sha, AuditLayout, body, tail);
    TailSpelling(AuditLayout, lines);
    ChainSnoc(sha, AuditLayout, lines, Entry(Sealed(sha, AuditLayout, body, tail)));
  }

  /** A status entry behind these lines. */
  predicate StatusEntry(sha: Sha, line: Line, before: seq<Line>, id: string, status: string, reason: string, n: Note) {
    && EntryAfter(sha, line, before, ["format", "kind", "key_id", "status", "reason", "actor", "at"])
    && StatusFields(line.record, id, status, reason, n)
  }

  /** On a sound journal a status entry is appended, linked, and reads back. */
  lemma WithStatusSound(sha: Sha, s: Store, id: string, status: string, reason: string, n: Note) returns (line: Line)
    requires Hex64(sha) && Chain(sha, AuditLayout, LinesOf(s.status, id))
    ensures WithStatus(sha, s, id, status, reason, n)
            == Ok(s.(status := s.status[id := LinesOf(s.status, id) + [line]]))
    ensures HasStatus(line, status) && StatusEntry(sha, line, LinesOf(s.status, id), id, status, reason, n)
    ensures Chain(sha, AuditLayout, LinesOf(s.status, id) + [line])
  {
    hide Chain, Body, Sealed, Get, Tail, Keys, StatusBody, Extended, OfLast, HashesItself;
    var lines, body := LinesOf(s.status, id), StatusBody(id, status, reason, n);
    StatusBodyOk(id, status, reason, n);
    ExtendedChain(sha, lines, body, DNull);
    line := Entry(Sealed(sha, AuditLayout, body, Tail(AuditLayout, lines)));
    StatusFieldsKept(body, line.record, id, status, reason, n);
    GetKey(line.record, "status");
  }

  lemma StatusFieldsKept(a: Record, b: Record, id: string, status: string, reason: string, n: Note)
    requires Keys(a) == STATUS_KEYS && StatusFields(a, id, status, reason, n)
    requires forall k <- Keys(a) :: Get(b, k) == Get(a, k)
    ensures StatusFields(b, id, status, reason, n)
  {
    hide Get, Keys;
    var keys := STATUS_KEYS;
    assert keys[0] == "format" && keys[1] == "kind" && keys[2] == "key_id" && keys[3] == "status";
    assert keys[4] == "reason" && keys[5] == "actor" && keys[6] == "at";
    assert forall i | 0 <= i < 7 :: keys[i] in Keys(a);
  }

  lemma SignatureFieldsKept(a: Record, b: Record, id: string, payloadSha: string, sig: string, n: Note)
    requires Keys(a) == SIGNATURE_KEYS && SignatureFields(a, id, payloadSha, sig, n)
    requires forall k <- Keys(a) :: Get(b, k) == Get(a, k)
    ensures SignatureFields(b, id, payloadSha, sig, n)
  {
    hide Get, Keys;
    var keys := SIGNATURE_KEYS;
    assert keys[0] == "format" && keys[1] == "kind" && keys[2] == "key_id" && keys[3] == "payload_sha256";
    assert keys[4] == "signature_hex" && keys[5] == "signed_at" && keys[6] == "actor" && keys[7] == "purpose";
    assert forall i | 0 <= i < 8 :: keys[i] in Keys(a);
  }

  lemma GetKey(record: Record, key: string)
    ensures Get(record, key) != DNull ==> key in Keys(record)
  {
  }

  /**
   Creating a key succeeds exactly for a new id. It stores this material for HMAC-SHA256, and a status
   journal of one ACTIVE entry; nothing else changes.
   */
  lemma CreateSound(sha: Sha, s: Store, id: string, material: string, n: Note)
    requires Hex64(sha) && Sound(sha, s)
    ensures Sound(sha, CreateKey(sha, s, id, material, n).0) && Evolves(s, CreateKey(sha, s, id, material, n).0)
    ensures CreateKey(sha, s, id, material, n).1 == (if id in s.keys then Failed(KeyExists) else Done)
    ensures id in s.keys ==> CreateKey(sha, s, id, material, n).0 == s
    ensures var t := CreateKey(sha, s, id, material, n).0;
            id !in s.keys ==> !Retired(t, id) && Created(sha, s, t, id, material, n)
  {
    hide Chain, HasStatus, WithStatus, LinkedAt, StatusEntry;
    if id !in s.keys {
      var t := s.(keys := s.keys[id := Key("HMAC-SHA256", material)]);
      EmptyChain(sha, AuditLayout, LinesOf(t.status, id));
      var line := WithStatusSound(sha, t, id, "ACTIVE", "CREATION", n);
      assert [] + [line] == [line];
      assert CreateKey(sha, s, id, material, n).0 == t.(status := s.status[id := [line]]);
    }
  }

  /** The store with one more key. */
  ghost predicate Created(sha: Sha, s: Store, t: Store, id: string, material: string, n: Note) {
    && t.keys == s.keys[id := Key("HMAC-SHA256", material)] && t.ledger == s.ledger
    && exists line :: t.status == s.status[id := [line]] && StatusEntry(sha, line, [], id, "ACTIVE", "CREATION", n)
  }

  /** The store after one more status entry. */
  ghost predicate Marked(sha: Sha, s: Store, t: Store, id: string, status: string, reason: string, n: Note) {
    && t.keys == s.keys && t.ledger == s.ledger && id in s.status
    && exists line :: t.status == s.status[id := s.status[id] + [line]]
                      && StatusEntry(sha, line, s.status[id], id, status, reason, n)
  }

  /** Retiring an active key. */
  lemma RetireSound(sha: Sha, s: Store, id: string, status: string, reason: string, n: Note)
    requires Hex64(sha) && Sound(sha, s) && id in s.keys && !Retired(s, id) && status in {"ROTATED", "REVOKED"}
    ensures WithStatus(sha, s, id, status, reason, n).Ok?
    ensures var t := WithStatus(sha, s, id, status, reason, n).value;
            Sound(sha, t) && Evolves(s, t) && Retired(t, id) && Marked(sha, s, t, id, status, reason, n)
  {
    hide Chain, HasStatus, WithStatus, StatusEntry;
    var line := WithStatusSound(sha, s, id, status, reason, n);
    var t := WithStatus(sha, s, id, status, reason, n).value;
    assert Lifecycle(s.status[id]);
    assert Lifecycle(t.status[id]);
  }

  lemma SignSound(c: Crypto, s: Store, id: string, payload: seq<byte>, n: Note)
    requires Hex64(c.sha) && Sound(c.sha, s)
    ensures var (t, r) := SignPayload(c, s, id, payload, n);
            && Sound(c.sha, t) && Evolves(s, t)
            && (r.Signed? <==> Active(c, s, id).Ok?)
            && (!r.Signed? ==> t == s)
            && (r.Signed? ==> r.signature.signatureHex == c.hmac(s.keys[id].material, payload)
                              && r.signature.payloadSha256 == c.sha(payload)
                              && Recorded(c, s, t, id, payload, r.signature, n)
                              && t == s.(ledger := t.ledger) && id in t.ledger
                              && |t.ledger[id]| == |LinesOf(s.ledger, id)| + 1
                              && (forall other <- s.ledger :: other != id ==> t.ledger[other] == s.ledger[other]))
  {
    hide Chain, Lifecycle, StatusOf, Extended, SignatureBody, Body, Sealed, Tail, Keys, Get, Active, LineHash, LinkedAt;
    hide OfLast, HashesItself, SignatureFields, EntryAfter, SIGNATURE_KEYS;
    var active := Active(c, s, id);
    if active.Ok? {
      ActiveMeans(c, s, id);
      var lines := LinesOf(s.ledger, id);
      EmptyChain(c.sha, AuditLayout, []);
      var sig := c.hmac(active.value.material, payload);
      SignatureBodyOk(id, c.sha(payload), sig, n);
      var body := SignatureBody(id, c.sha(payload), sig, n);
      var tail := if id in s.ledger then Tail(AuditLayout, lines) else DNull;
      ExtendedChain(c.sha, lines, body, tail);
      var entry := Entry(Sealed(c.sha, AuditLayout, body, Tail(AuditLayout, lines)));
      SignatureFieldsKept(body, entry.record, id, c.sha(payload), sig, n);
      SignatureNamesAre();
      EntryHashText(c.sha, entry, lines, Keys(body));
      assert (lines + [entry])[|lines|] == entry;
    }
  }

  lemma SignatureNamesAre()
    ensures SIGNATURE_KEYS ==
            ["format", "kind", "key_id", "payload_sha256", "signature_hex", "signed_at", "actor", "purpose"]
  {
  }

  lemma EntryHashText(sha: Sha, line: Line, before: seq<Line>, fields: seq<string>)
    requires EntryAfter(sha, line, before, fields)
    ensures Get(line.record, "entry_hash") == DStr(HashText(LineHash(AuditLayout, line)))
  {
    hide Get, Keys, OfLast, CanonicalBytes, Without;
  }

  /** One signature entry is appended to the ledger of the key, and the signature names its digest. */
  ghost predicate Recorded(c: Crypto, s: Store, t: Store, id: string, payload: seq<byte>, sig: Signature, n: Note) {
    exists line ::
      && t.ledger == s.ledger[id := LinesOf(s.ledger, id) + [line]]
      && EntryAfter(c.sha, line, LinesOf(s.ledger, id),
                    ["format", "kind", "key_id", "payload_sha256", "signature_hex", "signed_at", "actor", "purpose"])
      && SignatureFields(line.record, id, c.sha(payload), sig.signatureHex, n)
      && Get(line.record, "entry_hash") == DStr(sig.entryHash)
  }

  /** An active key exists and is not retired. */
  lemma ActiveMeans(c: Crypto, s: Store, id: string)
    requires Sound(c.sha, s)
    ensures Active(c, s, id).Ok? <==>
            !UnsafeId(id) && id in s.keys && !Retired(s, id) && s.keys[id].keyType == "HMAC-SHA256"
    ensures Active(c, s, id).Ok? ==> Active(c, s, id).value == s.keys[id]
  {
    hide Chain, Lifecycle, Retired, Get;
    if !UnsafeId(id) && id in s.keys {
      StatusReads(c, s, id);
      hide StatusOf;
    }
  }

  /**
   Rotation retires the old key before it creates the new one: an active key ends up retired
   whether or not the new key could be made.
   */
  lemma RotateSound(c: Crypto, s: Store, id: string, newId: string, material: string, n: Note)
    requires Hex64(c.sha) && Sound(c.sha, s)
    ensures var (t, r) := RotateKey(c, s, id, newId, material, n);
            && Sound(c.sha, t) && Evolves(s, t)
            && (r == Done <==> Active(c, s, id).Ok? && newId !in s.keys)
            && (Active(c, s, id).Ok? ==> Retired(t, id))
            && (Active(c, s, id).Err? ==> t == s)
            && (Active(c, s, id).Ok? ==> exists u ::
                  Marked(c.sha, s, u, id, "ROTATED", n.reason, n)
                  && if r == Done then Created(c.sha, u, t, newId, material, n) && !Retired(t, newId)
                     else t == u && r == Failed(KeyExists))
            && (Active(c, s, id).Err? ==> r == Failed(Active(c, s, id).error))
  {
    hide Chain, Lifecycle, StatusOf, WithStatus, CreateKey, Active, Sound, Evolves, Marked, Created;
    if Active(c, s, id).Ok? {
      ActiveMeans(c, s, id);
      RetireSound(c.sha, s, id, "ROTATED", n.reason, n);
      var u := WithStatus(c.sha, s, id, "ROTATED", n.reason, n).value;
      CreateSound(c.sha, u, newId, material, n);
      var t := CreateKey(c.sha, u, newId, material, n).0;
      EvolvesTransitive(s, u, t);
      RetiredStays(c.sha, u, t, id);
      assert RotateKey(c, s, id, newId, material, n) == CreateKey(c.sha, u, newId, material, n);
      MarkedKeys(c.sha, s, u, id, n);
    } else {
      EvolvesReflexive(s);
    }
  }

  lemma MarkedKeys(sha: Sha, s: Store, u: Store, id: string, n: Note)
    requires Marked(sha, s, u, id, "ROTATED", n.reason, n)
    ensures u.keys == s.keys
  {
  }

  lemma EvolvesReflexive(s: Store)
    ensures Evolves(s, s)
  {
  }

  lemma EvolvesTransitive(s: Store, t: Store, u: Store)
    requires Evolves(s, t) && Evolves(t, u)
    ensures Evolves(s, u)
  {
    forall id <- s.status | Retired(s, id)
      ensures u.status[id] == s.status[id] && FileOf(u.ledger, id) == FileOf(s.ledger, id)
    {
      assert id in t.status && Retired(t, id);
    }
  }

  lemma RetiredStays(sha: Sha, s: Store, t: Store, id: string)
    requires Evolves(s, t) && Retired(s, id)
    ensures Retired(t, id)
  {
  }

  lemma RevokeSound(c: Crypto, s: Store, id: string, n: Note)
    requires Hex64(c.sha) && Sound(c.sha, s)
    ensures var (t, r) := RevokeKey(c, s, id, n);
            && Sound(c.sha, t) && Evolves(s, t)
            && (r == Done <==> Active(c, s, id).Ok?)
            && (r == Done ==> Retired(t, id) && Marked(c.sha, s, t, id, "REVOKED", n.reason, n))
            && (r != Done ==> t == s && r == Failed(Active(c, s, id).error))
  {
    hide Chain, Lifecycle, StatusOf, WithStatus, Active, Sound, Evolves, Marked;
    EvolvesReflexive(s);
    if Active(c, s, id).Ok? {
      ActiveMeans(c, s, id);
      RetireSound(c.sha, s, id, "REVOKED", n.reason, n);
    }
  }

  lemma StepSound(c: Crypto, s: Store, op: Op)
    requires Hex64(c.sha) && Sound(c.sha, s)
    ensures Sound(c.sha, Apply(c, s, op).0) && Evolves(s, Apply(c, s, op).0)
  {
    hide Sound, Evolves, CreateKey, SignPayload, RotateKey, RevokeKey;
    match op
    case Create(newId, material, n) => CreateSound(c.sha, s, newId, material, n);
    case Sign(id, payload, n) => SignSound(c, s, id, payload, n);
    case Rotate(id, newId, material, n) => RotateSound(c, s, id, newId, material, n);
    case Revoke(id, n) => RevokeSound(c, s, id, n);
  }

  // ---------------------------------------------------------------- runs

  /** The states of a run of the service from an empty directory. */
  ghost function RunState(c: Crypto, ops: seq<Op>): Store {
    if ops == [] then Store(map[], map[], map[]) else Apply(c, RunState(c, ops[..|ops| - 1]), ops[|ops| - 1]).0
  }

  /**
   In every run every key's status log is [ACTIVE] or [ACTIVE, ROTATED or REVOKED] and every
   journal is a chain; and from each point to any later one keys keep their material, journals
   only grow, and those of a retired key no longer change at all.
   */
  lemma {:induction false} EveryRun(c: Crypto, ops: seq<Op>, later: seq<Op>)
    requires Hex64(c.sha)
    ensures Sound(c.sha, RunState(c, ops + later)) && Evolves(RunState(c, ops), RunState(c, ops + later))
    decreases |ops| + |later|
  {
    hide Sound, Evolves, Apply;
    if later != [] {
      var n := |later| - 1;
      EveryRun(c, ops, later[..n]);
      assert (ops + later)[..|ops + later| - 1] == ops + later[..n];
      StepSound(c, RunState(c, ops + later[..n]), later[n]);
      EvolvesTransitive(RunState(c, ops), RunState(c, ops + later[..n]), RunState(c, ops + later));
    } else {
      assert ops + later == ops;
      EvolvesReflexive(RunState(c, ops));
      if ops == [] {
        EmptySound(c.sha);
      } else {
        EveryRun(c, ops[..|ops| - 1], []);
        assert ops[..|ops| - 1] + [] == ops[..|ops| - 1];
        StepSound(c, RunState(c, ops[..|ops| - 1]), ops[|ops| - 1]);
      }
    }
  }

  lemma EmptySound(sha: Sha)
    ensures Sound(sha, Store(map[], map[], map[]))
  {
  }

  // ---------------------------------------------------------------- signatures

  /** `verify`: read-only, and false whenever the status cannot be established as active. */
  ghost function VerifySignature(c: Crypto, s: Store, id: string, payload: seq<byte>, sig: string):
    Result<bool, KeyError>
  {
    if UnsafeId(id) then Err(IdInvalid)
    else if id !in s.keys then Err(NotFound)
    else
      match StatusOf(c, s, id)
      case Err(e) => if e == Unhandled then Err(Unhandled) else Ok(false)
      case Ok(st) =>
        Ok(st == DStr("ACTIVE") && s.keys[id].keyType == "HMAC-SHA256" && c.hmac(s.keys[id].material, payload) == sig)
  }

  /**
   What `verify` answers on any store: an error for an unsafe or unknown id, or when the status journal
   raises; otherwise True exactly for an active key of the supported type and its own signature.
   */
  lemma VerifyAnswers(c: Crypto, s: Store, id: string, payload: seq<byte>, sig: string)
    ensures var r := VerifySignature(c, s, id, payload, sig);
            && (r == Err(IdInvalid) <==> UnsafeId(id))
            && (r == Err(NotFound) <==> !UnsafeId(id) && id !in s.keys)
            && (r == Err(Unhandled) <==>
                  !UnsafeId(id) && id in s.keys && id in s.status && FaultIsScalar(c.sha, s.status[id]))
            && (r.Err? ==> r.error in {IdInvalid, NotFound, Unhandled})
            && (r == Ok(true) <==> Active(c, s, id).Ok? && c.hmac(s.keys[id].material, payload) == sig)
  {
    hide Chain, FaultIsScalar, Get, Keys;
    if id in s.status {
      ChainNoFault(c.sha, s.status[id]);
    }
  }

  lemma ChainNoFault(sha: Sha, lines: seq<Line>)
    ensures Chain(sha, AuditLayout, lines) ==> !FaultIsScalar(sha, lines)
  {
    hide LinkedAt;
  }

  /**
   A signature made in any run verifies from then on exactly as long as its key is not retired:
   the verdict turns from true to false at the retirement and never back.
   */
  lemma SignatureLife(c: Crypto, ops: seq<Op>, id: string, payload: seq<byte>, n: Note, later: seq<Op>)
    requires Hex64(c.sha)
    requires SignPayload(c, RunState(c, ops), id, payload, n).1.Signed?
    ensures var s := RunState(c, ops + [Sign(id, payload, n)] + later);
            var sig := SignPayload(c, RunState(c, ops), id, payload, n).1.signature.signatureHex;
            VerifySignature(c, s, id, payload, sig) == Ok(!Retired(s, id))
  {
    hide Sound, StatusOf, Active, SignPayload, Retired, Recorded;
    var all := ops + [Sign(id, payload, n)] + later;
    var s0 := RunState(c, ops);
    EveryRun(c, ops, []);
    assert ops + [] == ops;
    SignSound(c, s0, id, payload, n);
    ActiveMeans(c, s0, id);
    EveryRun(c, ops, [Sign(id, payload, n)] + later);
    assert all == ops + ([Sign(id, payload, n)] + later);
    StatusReads(c, RunState(c, all), id);
  }
}
