/**
 Hash-chained JSON-lines journals: the chain itself, the audit journal and the
 execution-event journal.
 */
module Journal {
  import opened Prelude
  import opened Integers
  import opened CanonicalJson

  type Record = seq<(string, Doc)>

  /** One line of a journal file as the readers see it. */
  datatype Line = Blank | NotJson | NotObject | Entry(record: Record)
  {
    /** What `json.loads` returns has no repeated key. */
    predicate Parsed() {
      Entry? ==> DObj(record).Valid()
    }
  }

  /** The two field layouts in use. */
  datatype Layout = AuditLayout | EventLayout
  {
    function Previous(): string {
      if this == AuditLayout then "previous_hash" else "previous_event_sha256"
    }

    function Hash(): string {
      if this == AuditLayout then "entry_hash" else "event_sha256"
    }
  }

  /** The digest of a byte string, in hexadecimal. */
  type Sha = seq<byte> -> string

  ghost predicate Hex64(sha: Sha) {
    forall b :: |sha(b)| == 64
  }

  /** `record.get(key)`. */
  function Get(record: Record, key: string): Doc {
    if key in Keys(record) then Lookup(record, key) else DNull
  }

  /** The record without one key. */
  function Without(record: Record, key: string): (r: Record)
    ensures forall e :: e in r <==> e in record && e.0 != key
  {
    if record == [] then []
    else if record[0].0 == key then Without(record[1..], key)
    else [record[0]] + Without(record[1..], key)
  }

  function Material(layout: Layout, record: Record): seq<byte> {
    CanonicalBytes(DObj(Without(record, layout.Hash())))
  }

  function EntryHash(sha: Sha, layout: Layout, record: Record): string {
    sha(Material(layout, record))
  }

  // ---------------------------------------------------------------- the chain

  function LineHash(layout: Layout, line: Line): Doc {
    if line.Entry? then Get(line.record, layout.Hash()) else DNull
  }

  /** What the next record must carry as its previous hash. */
  function Tail(layout: Layout, lines: seq<Line>): Doc {
    if lines == [] then DNull else LineHash(layout, lines[|lines| - 1])
  }

  predicate Linked(sha: Sha, layout: Layout, line: Line, previous: Doc) {
    && line.Entry?
    && Get(line.record, layout.Previous()) == previous
    && Get(line.record, layout.Hash()) == DStr(EntryHash(sha, layout, line.record))
  }

  predicate LinkedAt(sha: Sha, layout: Layout, lines: seq<Line>, i: nat)
    requires i < |lines|
  {
    Linked(sha, layout, lines[i], Tail(layout, lines[..i]))
  }

  /** Every line is an entry carrying its own hash and its predecessor's. */
  ghost predicate Chain(sha: Sha, layout: Layout, lines: seq<Line>) {
    forall i :: 0 <= i < |lines| ==> LinkedAt(sha, layout, lines, i)
  }

  /** Line `i` is the first that does not continue the chain. */
  ghost predicate FirstFault(sha: Sha, layout: Layout, lines: seq<Line>, i: nat) {
    i < |lines| && !LinkedAt(sha, layout, lines, i)
    && forall j :: 0 <= j < i ==> LinkedAt(sha, layout, lines, j)
  }

  lemma LinkedPrefix(sha: Sha, layout: Layout, lines: seq<Line>, more: seq<Line>, i: nat)
    requires i < |lines|
    ensures LinkedAt(sha, layout, lines + more, i) == LinkedAt(sha, layout, lines, i)
  {
    assert (lines + more)[..i] == lines[..i];
  }

  lemma ChainPrefix(sha: Sha, layout: Layout, lines: seq<Line>, n: nat)
    requires Chain(sha, layout, lines) && n <= |lines|
    ensures Chain(sha, layout, lines[..n])
  {
    hide LinkedAt;
    assert lines == lines[..n] + lines[n..];
    forall i | 0 <= i < n ensures LinkedAt(sha, layout, lines[..n], i) {
      LinkedPrefix(sha, layout, lines[..n], lines[n..], i);
    }
  }

  /** A properly linked entry extends a chain. */
  lemma ChainSnoc(sha: Sha, layout: Layout, lines: seq<Line>, line: Line)
    requires Chain(sha, layout, lines)
    ensures Chain(sha, layout, lines + [line]) <==> Linked(sha, layout, line, Tail(layout, lines))
  {
    hide Linked, Tail;
    var all := lines + [line];
    assert all[..|lines|] == lines;
    assert LinkedAt(sha, layout, all, |lines|) == Linked(sha, layout, line, Tail(layout, lines));
    hide LinkedAt;
    forall i | 0 <= i < |lines| ensures LinkedAt(sha, layout, all, i) {
      LinkedPrefix(sha, layout, lines, [line], i);
    }
  }

  // ---------------------------------------------------------------- the last hash determines the journal

  /** No two records of these journals collide under the digest. */
  ghost predicate CollisionFree(sha: Sha, layout: Layout, lines: seq<Line>) {
    forall a, b :: a in lines && b in lines && a.Entry? && b.Entry?
      && EntryHash(sha, layout, a.record) == EntryHash(sha, layout, b.record)
      ==> Material(layout, a.record) == Material(layout, b.record)
  }

  /** The two lines hold the same JSON object. */
  ghost predicate SameLine(a: Line, b: Line) {
    a.Entry? && b.Entry? && Meaning(DObj(a.record)) == Meaning(DObj(b.record))
  }

  ghost predicate SameLines(a: seq<Line>, b: seq<Line>) {
    |a| == |b| && forall i :: 0 <= i < |a| ==> SameLine(a[i], b[i])
  }

  lemma {:induction false} WithoutKeys(record: Record, key: string)
    requires Distinct(Keys(record))
    ensures Distinct(Keys(Without(record, key)))
    ensures forall k :: k in Keys(Without(record, key)) <==> k in Keys(record) && k != key
  {
    if record != [] {
      WithoutKeys(record[1..], key);
      assert Keys(record)[1..] == Keys(record[1..]);
      assert forall k :: k in Keys(record) <==> k == record[0].0 || k in Keys(record[1..]);
      assert record[0].0 !in Keys(record)[1..];
      if record[0].0 != key {
        var rest := Without(record[1..], key);
        assert Keys([record[0]] + rest) == [record[0].0] + Keys(rest);
      }
    }
  }

  lemma LookupUnique(record: Record, key: string, d: Doc)
    requires Distinct(Keys(record)) && (key, d) in record
    ensures key in Keys(record) && Lookup(record, key) == d
  {
    hide Lookup;
    var i :| 0 <= i < |record| && record[i] == (key, d);
    assert Keys(record)[i] == key;
    var e := Lookup(record, key);
    var j :| 0 <= j < |record| && record[j] == (key, e);
    assert Keys(record)[j] == key;
  }

  lemma GetWithout(record: Record, key: string, other: string)
    requires Distinct(Keys(record)) && other != key
    ensures Get(Without(record, key), other) == Get(record, other)
  {
    hide Lookup, Without;
    WithoutKeys(record, key);
    if other in Keys(record) {
      LookupUnique(Without(record, key), other, Lookup(record, other));
    }
  }

  lemma WithoutValid(record: Record, key: string)
    requires DObj(record).Valid()
    ensures DObj(Without(record, key)).Valid()
  {
    hide Without;
    WithoutKeys(record, key);
  }

  lemma GetMeaning(record: Record, key: string)
    requires DObj(record).Valid()
    ensures Meaning(DObj(record)).Obj?
    ensures key in Keys(record) <==> key in Meaning(DObj(record)).fields
    ensures key in Keys(record) ==> Meaning(DObj(record)).fields[key] == Meaning(Get(record, key))
  {
    hide Meaning;
    FieldsOf(DObj(record));
  }

  /** A record means what its remainder without one key means, plus that key. */
  lemma MeaningSplit(record: Record, key: string)
    requires DObj(record).Valid() && key in Keys(record)
    ensures DObj(Without(record, key)).Valid()
    ensures Meaning(DObj(record)).Obj? && Meaning(DObj(Without(record, key))).Obj?
    ensures Meaning(DObj(record)).fields
            == Meaning(DObj(Without(record, key))).fields[key := Meaning(Get(record, key))]
  {
    hide Meaning, Without, Lookup, Keys, Get;
    var rest := Without(record, key);
    WithoutValid(record, key);
    GetMeaning(record, key);
    GetMeaning(rest, key);
    var f, g := Meaning(DObj(record)).fields, Meaning(DObj(rest)).fields;
    forall k: string ensures k in g <==> k in f && k != key {
      WithoutHas(record, key, k);
      GetMeaning(record, k);
      GetMeaning(rest, k);
    }
    forall k | k in g ensures f[k] == g[k] {
      WithoutHas(record, key, k);
      GetMeaning(record, k);
      GetMeaning(rest, k);
    }
    SplitMap(f, g, key);
  }

  lemma WithoutHas(record: Record, key: string, k: string)
    requires DObj(record).Valid()
    ensures k in Keys(Without(record, key)) <==> k in Keys(record) && k != key
    ensures k != key ==> Get(Without(record, key), k) == Get(record, k)
  {
    hide Without, Lookup, Keys, Get;
    WithoutKeys(record, key);
    if k != key {
      GetWithout(record, key, k);
    }
  }

  lemma SplitMap(f: map<string, Json>, g: map<string, Json>, key: string)
    requires key in f && forall k :: k in g <==> k in f && k != key
    requires forall k | k in g :: f[k] == g[k]
    ensures f == g[key := f[key]]
  {
  }

  /** A record is its hashed material and its hash. */
  lemma RecordDetermined(layout: Layout, a: Record, b: Record)
    requires DObj(a).Valid() && DObj(b).Valid()
    requires Material(layout, a) == Material(layout, b)
    requires Get(a, layout.Hash()) == Get(b, layout.Hash()) && Get(a, layout.Hash()).DStr?
    ensures Meaning(DObj(a)) == Meaning(DObj(b))
    ensures Meaning(Get(a, layout.Previous())) == Meaning(Get(b, layout.Previous()))
  {
    hide Meaning, CanonicalBytes, Without, Lookup, Layout.Hash, Layout.Previous;
    var key := layout.Hash();
    MeaningSplit(a, key);
    MeaningSplit(b, key);
    CanonicalBytesExact(DObj(Without(a, key)), DObj(Without(b, key)));
    assert Meaning(DObj(a)) == Meaning(DObj(b));
    GetMeaning(a, layout.Previous());
    GetMeaning(b, layout.Previous());
  }

  lemma MeaningAtoms(d: Doc, e: Doc)
    requires Meaning(d) == Meaning(e)
    ensures d.DNull? <==> e.DNull?
    ensures d.DStr? ==> e == d
  {
  }

  /**
   Two chains with the same last hash hold the same records, entry by entry; a chain is
   empty exactly when it has no last hash.
   */
  lemma {:induction false} LastHashDetermines(sha: Sha, layout: Layout, a: seq<Line>, b: seq<Line>)
    requires Chain(sha, layout, a) && Chain(sha, layout, b) && CollisionFree(sha, layout, a + b)
    requires forall l :: l in a || l in b ==> l.Parsed()
    requires Tail(layout, a) == Tail(layout, b)
    ensures SameLines(a, b)
    decreases |a|
  {
    hide Get, EntryHash, Material, Chain, Meaning, CollisionFree;
    ChainLast(sha, layout, a);
    ChainLast(sha, layout, b);
    if a != [] && b != [] {
      var n, m := |a| - 1, |b| - 1;
      LastSame(sha, layout, a, b);
      ChainPrefix(sha, layout, a, n);
      ChainPrefix(sha, layout, b, m);
      CollisionFreeLess(sha, layout, a, b);
      LastHashDetermines(sha, layout, a[..n], b[..m]);
      assert forall i :: 0 <= i < n ==> a[..n][i] == a[i] && b[..m][i] == b[i];
    }
  }

  lemma ChainLast(sha: Sha, layout: Layout, lines: seq<Line>)
    requires Chain(sha, layout, lines)
    ensures lines == [] <==> Tail(layout, lines) == DNull
    ensures lines != [] ==> Linked(sha, layout, lines[|lines| - 1], Tail(layout, lines[..|lines| - 1]))
    ensures Tail(layout, lines).DNull? || Tail(layout, lines).DStr?
  {
    if lines != [] {
      assert LinkedAt(sha, layout, lines, |lines| - 1);
    }
  }

  lemma CollisionFreeLess(sha: Sha, layout: Layout, a: seq<Line>, b: seq<Line>)
    requires CollisionFree(sha, layout, a + b) && a != [] && b != []
    ensures CollisionFree(sha, layout, a[..|a| - 1] + b[..|b| - 1])
  {
    hide EntryHash, Material;
    assert forall l :: l in a[..|a| - 1] + b[..|b| - 1] ==> l in a + b;
  }

  lemma LastSame(sha: Sha, layout: Layout, a: seq<Line>, b: seq<Line>)
    requires Chain(sha, layout, a) && Chain(sha, layout, b) && CollisionFree(sha, layout, a + b)
    requires a != [] && b != [] && Tail(layout, a) == Tail(layout, b)
    requires forall l :: l in a || l in b ==> l.Parsed()
    ensures SameLine(a[|a| - 1], b[|b| - 1])
    ensures Tail(layout, a[..|a| - 1]) == Tail(layout, b[..|b| - 1])
  {
    hide Get, Material, Meaning;
    ChainLast(sha, layout, a);
    ChainLast(sha, layout, b);
    var x, y := a[|a| - 1], b[|b| - 1];
    assert x in a + b && y in a + b && x in a && y in b;
    assert Material(layout, x.record) == Material(layout, y.record);
    RecordDetermined(layout, x.record, y.record);
    ChainPrefix(sha, layout, a, |a| - 1);
    ChainPrefix(sha, layout, b, |b| - 1);
    ChainLast(sha, layout, a[..|a| - 1]);
    ChainLast(sha, layout, b[..|b| - 1]);
    MeaningAtoms(Get(x.record, layout.Previous()), Get(y.record, layout.Previous()));
  }

  // ---------------------------------------------------------------- the audit journal

  datatype JournalError = Invalid | BrokenChain | Malformed

  /** The hash a reader takes from the last line that is not blank. */
  function LastHashOf(layout: Layout, lines: seq<Line>): Result<Doc, JournalError> {
    if lines == [] then Ok(DNull)
    else
      var last := lines[|lines| - 1];
      if last.Blank? then LastHashOf(layout, lines[..|lines| - 1])
      else
        var h := LineHash(layout, last);
        if h.DStr? && |h.s| == 64 then Ok(h) else Err(Malformed)
  }

  /** On a chain the last-hash reader finds what the verification loop ends with. */
  lemma LastHashOfChain(sha: Sha, layout: Layout, lines: seq<Line>)
    requires Hex64(sha) && Chain(sha, layout, lines)
    ensures LastHashOf(layout, lines) == Ok(Tail(layout, lines))
  {
    ChainLast(sha, layout, lines);
  }

  lemma ChainStep(sha: Sha, layout: Layout, lines: seq<Line>, i: nat)
    requires i < |lines| && Chain(sha, layout, lines[..i])
    ensures Linked(sha, layout, lines[i], Tail(layout, lines[..i])) ==>
              Chain(sha, layout, lines[..i + 1]) && Tail(layout, lines[..i + 1]) == LineHash(layout, lines[i])
    ensures !Linked(sha, layout, lines[i], Tail(layout, lines[..i])) ==>
              FirstFault(sha, layout, lines, i) && !Chain(sha, layout, lines)
  {
    hide Linked;
    assert lines[..i + 1] == lines[..i] + [lines[i]];
    ChainSnoc(sha, layout, lines[..i], lines[i]);
    assert lines == lines[..i] + lines[i..];
    forall j | 0 <= j < i ensures LinkedAt(sha, layout, lines, j) {
      LinkedPrefix(sha, layout, lines[..i], lines[i..], j);
    }
  }

  lemma FirstFaultUnique(sha: Sha, layout: Layout, lines: seq<Line>, i: nat, j: nat)
    requires FirstFault(sha, layout, lines, i) && FirstFault(sha, layout, lines, j)
    ensures i == j
  {
  }

  lemma EmptyChain(sha: Sha, layout: Layout, lines: seq<Line>)
    requires lines == []
    ensures Chain(sha, layout, lines)
  {
  }

  /** The chain breaks at an entry: its hash or its link is wrong. */
  ghost predicate Refuted(sha: Sha, layout: Layout, lines: seq<Line>) {
    exists i: nat :: FirstFault(sha, layout, lines, i) && lines[i].Entry?
  }

  /** The chain breaks at a line that holds no record. */
  ghost predicate Unreadable(sha: Sha, layout: Layout, lines: seq<Line>) {
    exists i: nat :: FirstFault(sha, layout, lines, i) && !lines[i].Entry?
  }

  /** A file is a chain, or is refuted, or is unreadable: exactly one of the three. */
  lemma FaultDecides(sha: Sha, layout: Layout, lines: seq<Line>, i: nat)
    requires FirstFault(sha, layout, lines, i)
    ensures !Chain(sha, layout, lines)
    ensures lines[i].Entry? ==> Refuted(sha, layout, lines) && !Unreadable(sha, layout, lines)
    ensures !lines[i].Entry? ==> Unreadable(sha, layout, lines) && !Refuted(sha, layout, lines)
  {
    hide LinkedAt;
    forall j: nat | FirstFault(sha, layout, lines, j) ensures j == i {
      FirstFaultUnique(sha, layout, lines, i, j);
    }
  }

  lemma NoFault(sha: Sha, layout: Layout, lines: seq<Line>)
    requires Chain(sha, layout, lines)
    ensures !Refuted(sha, layout, lines) && !Unreadable(sha, layout, lines)
  {
    hide LinkedAt;
  }

  /** The loop of `_last_hash`: remember the last line that is not blank, then read it. */
  method ReadLastHash(layout: Layout, lines: seq<Line>) returns (r: Result<Doc, JournalError>)
    ensures r == LastHashOf(layout, lines)
  {
    var last: Option<Line> := None;
    for i := 0 to |lines|
      invariant last.Some? ==> !last.value.Blank?
      invariant LastHashOf(layout, lines[..i]) ==
                (if last.None? then Ok(DNull) else LastHashOf(layout, [last.value]))
    {
      assert lines[..i + 1][..i] == lines[..i];
      if !lines[i].Blank? {
        last := Some(lines[i]);
      }
    }
    assert lines[..|lines|] == lines;
    if last.None? {
      return Ok(DNull);
    }
    var h := LineHash(layout, last.value);
    r := if h.DStr? && |h.s| == 64 then Ok(h) else Err(Malformed);
  }

  /** A record with its previous hash, sealed by its own hash. */
  function Sealed(sha: Sha, layout: Layout, fields: Record, previous: Doc): Record {
    var linked := fields + [(layout.Previous(), previous)];
    linked + [(layout.Hash(), DStr(EntryHash(sha, layout, linked)))]
  }

  /** `fields` is a record body: valid, and without the two chain fields. */
  predicate Body(layout: Layout, fields: Record) {
    DObj(fields).Valid() && layout.Previous() !in Keys(fields) && layout.Hash() !in Keys(fields)
  }

  lemma {:induction false} KeysAppend(a: Record, b: Record)
    ensures Keys(a + b) == Keys(a) + Keys(b)
  {
    if a == [] {
      assert a + b == b;
    } else {
      assert (a + b)[1..] == a[1..] + b;
      KeysAppend(a[1..], b);
    }
  }

  lemma {:induction false} WithoutAppend(a: Record, b: Record, key: string)
    ensures Without(a + b, key) == Without(a, key) + Without(b, key)
  {
    if a == [] {
      assert a + b == b;
    } else {
      assert (a + b)[1..] == a[1..] + b;
      WithoutAppend(a[1..], b, key);
    }
  }

  lemma {:induction false} WithoutAbsent(a: Record, key: string)
    requires key !in Keys(a)
    ensures Without(a, key) == a
  {
    if a != [] {
      assert Keys(a)[0] == a[0].0;
      assert Keys(a)[1..] == Keys(a[1..]);
      WithoutAbsent(a[1..], key);
      assert a == [a[0]] + a[1..];
    }
  }

  /** Two dictionaries without a common key make one. */
  lemma AppendValid(a: Record, b: Record)
    requires DObj(a).Valid() && DObj(b).Valid()
    requires forall k <- Keys(b) :: k !in Keys(a)
    ensures DObj(a + b).Valid() && Keys(a + b) == Keys(a) + Keys(b)
  {
    KeysAppend(a, b);
    hide Keys;
    var x, y, keys := Keys(a), Keys(b), Keys(a) + Keys(b);
    forall i, j | 0 <= i < j < |keys| ensures keys[i] != keys[j] {
      assert i < |x| ==> keys[i] == x[i] && x[i] in x;
      assert j >= |x| ==> keys[j] == y[j - |x|] && y[j - |x|] in y;
      assert i >= |x| ==> keys[i] == y[i - |x|];
    }
    assert Distinct(keys);
  }

  lemma PairValid(k: string, d: Doc, l: string, e: Doc)
    requires k != l && d.Valid() && e.Valid()
    ensures DObj([(k, d), (l, e)]).Valid() && Keys([(k, d), (l, e)]) == [k, l]
  {
    assert Keys([(k, d), (l, e)]) == [k, l];
  }

  lemma SealedValid(sha: Sha, layout: Layout, fields: Record, previous: Doc)
    requires Body(layout, fields) && (previous.DNull? || previous.DStr?)
    ensures var record := Sealed(sha, layout, fields, previous);
            && Keys(record) == Keys(fields) + [layout.Previous(), layout.Hash()]
            && DObj(record).Valid()
  {
    hide EntryHash, Keys, Layout.Previous, Layout.Hash;
    var linked := fields + [(layout.Previous(), previous)];
    var seal := DStr(EntryHash(sha, layout, linked));
    LayoutNames(layout);
    PairValid(layout.Previous(), previous, layout.Hash(), seal);
    var tail := [(layout.Previous(), previous), (layout.Hash(), seal)];
    AppendValid(fields, tail);
    assert Sealed(sha, layout, fields, previous) == fields + tail;
  }

  lemma LayoutNames(layout: Layout)
    ensures layout.Previous() != layout.Hash()
  {
    assert layout.Previous()[0] == 'p' && layout.Hash()[0] == 'e';
  }

  /** The hash field is left out of the hashed material, so sealing yields a linked record. */
  lemma SealedLinked(sha: Sha, layout: Layout, fields: Record, previous: Doc)
    requires Body(layout, fields) && (previous.DNull? || previous.DStr?)
    ensures Linked(sha, layout, Entry(Sealed(sha, layout, fields, previous)), previous)
    ensures Entry(Sealed(sha, layout, fields, previous)).Parsed()
    ensures forall k <- Keys(fields) :: Get(Sealed(sha, layout, fields, previous), k) == Get(fields, k)
  {
    hide Without, Lookup, CanonicalBytes, Keys;
    var linked := fields + [(layout.Previous(), previous)];
    var record := Sealed(sha, layout, fields, previous);
    SealedValid(sha, layout, fields, previous);
    hide Layout.Previous, Layout.Hash;
    assert (layout.Previous(), previous) == record[|fields|];
    LookupUnique(record, layout.Previous(), previous);
    var seal := (layout.Hash(), DStr(EntryHash(sha, layout, linked)));
    assert seal == record[|fields| + 1];
    LookupUnique(record, seal.0, seal.1);
    KeysAppend(fields, [(layout.Previous(), previous)]);
    LayoutNames(layout);
    KeysOne(layout.Previous(), previous);
    WithoutLast(linked, seal.0, seal.1);
    assert record == linked + [seal];
    forall k <- Keys(fields) ensures Get(record, k) == Get(fields, k) {
      assert (k, Lookup(fields, k)) in fields;
      assert (k, Lookup(fields, k)) in record;
      LookupUnique(record, k, Lookup(fields, k));
    }
  }

  lemma KeysOne(key: string, d: Doc)
    ensures Keys([(key, d)]) == [key]
  {
  }

  lemma WithoutLast(a: Record, key: string, d: Doc)
    requires key !in Keys(a)
    ensures Without(a + [(key, d)], key) == Without(a, key)
  {
    WithoutAppend(a, [(key, d)], key);
    assert Without([(key, d)], key) == [];
    assert Without(a, key) + [] == Without(a, key);
  }

  function AuditBody(timestamp: string, direction: string, message: string, status: string): Record {
    [("timestamp", DStr(timestamp)), ("direction", DStr(direction)), ("message", DStr(message)),
     ("verification_status", DStr(status))]
  }

  lemma AuditBodyOk(timestamp: string, direction: string, message: string, status: string)
    ensures Body(AuditLayout, AuditBody(timestamp, direction, message, status))
  {
    var keys := ["timestamp", "direction", "message", "verification_status"];
    assert Keys(AuditBody(timestamp, direction, message, status)) == keys;
    assert |keys[0]| == 9 && |keys[1]| == 9 && |keys[2]| == 7 && |keys[3]| == 19;
    assert keys[0][0] == 't' && keys[1][0] == 'd';
    assert forall e <- AuditBody(timestamp, direction, message, status) :: e.1.DStr?;
    hide Keys;
    assert Distinct(keys);
    assert DObj(AuditBody(timestamp, direction, message, status)).Valid();
    assert |AuditLayout.Hash()| == 10 && |AuditLayout.Previous()| == 13;
  }

  class AuditJournal {
    var lines: seq<Line>
    const sha: Sha

    constructor (sha: Sha)
      ensures lines == [] && this.sha == sha
    {
      lines := [];
      this.sha := sha;
    }

    /** `verify_chain`: stops at the first fault, raising when the line is no record at all. */
    method VerifyChain() returns (r: Result<bool, JournalError>)
      ensures r == Ok(true) <==> Chain(sha, AuditLayout, lines)
      ensures r == Ok(false) <==> Refuted(sha, AuditLayout, lines)
      ensures r.Err? <==> Unreadable(sha, AuditLayout, lines)
      ensures r.Err? ==> r.error == Malformed
    {
      hide Chain, FirstFault, Refuted, Unreadable, Get, EntryHash;
      var previous := DNull;
      EmptyChain(sha, AuditLayout, lines[..0]);
      for i := 0 to |lines|
        invariant Chain(sha, AuditLayout, lines[..i]) && previous == Tail(AuditLayout, lines[..i])
      {
        ChainStep(sha, AuditLayout, lines, i);
        var line := lines[i];
        if !line.Entry? {
          FaultDecides(sha, AuditLayout, lines, i);
          return Err(Malformed);
        }
        if Get(line.record, AuditLayout.Previous()) != previous {
          FaultDecides(sha, AuditLayout, lines, i);
          return Ok(false);
        }
        if Get(line.record, AuditLayout.Hash()) != DStr(EntryHash(sha, AuditLayout, line.record)) {
          FaultDecides(sha, AuditLayout, lines, i);
          return Ok(false);
        }
        previous := Get(line.record, AuditLayout.Hash());
      }
      assert lines[..|lines|] == lines;
      NoFault(sha, AuditLayout, lines);
      r := Ok(true);
    }

    /** `append`: refuses a broken journal, otherwise extends the chain by one record. */
    method Append(timestamp: string, direction: string, message: string, status: string)
      returns (r: Result<Record, JournalError>)
      requires Hex64(sha)
      modifies this`lines
      ensures r.Ok? <==> direction in {"IN", "OUT"} && status != "" && Chain(sha, AuditLayout, old(lines))
      ensures r.Err? ==> lines == old(lines)
      ensures r.Ok? ==> lines == old(lines) + [Entry(r.value)] && Chain(sha, AuditLayout, lines)
      ensures r.Ok? ==> lines[|lines| - 1].Parsed()
      ensures r.Ok? ==> Get(r.value, "message") == DStr(message) && Get(r.value, "direction") == DStr(direction)
      ensures r.Ok? ==> Get(r.value, "timestamp") == DStr(timestamp)
      ensures r.Ok? ==> Get(r.value, "verification_status") == DStr(status)
      ensures r.Ok? ==> Get(r.value, "previous_hash") == OfLast(old(lines), "entry_hash")
      ensures r.Ok? ==> HashesItself(sha, r.value, "entry_hash")
      ensures r.Err? ==> match r.error
                         case Invalid => direction !in {"IN", "OUT"} || status == ""
                         case BrokenChain => Refuted(sha, AuditLayout, old(lines))
                         case Malformed => Unreadable(sha, AuditLayout, old(lines))
    {
      hide Chain, Refuted, Unreadable, Get, Sealed, LastHashOf, Tail, Linked, OfLast, HashesItself, Keys, AuditBody;
      if direction !in {"IN", "OUT"} || status == "" {
        return Err(Invalid);
      }
      var intact := VerifyChain();
      if intact.Err? {
        return Err(intact.error);
      }
      if !intact.value {
        return Err(BrokenChain);
      }
      var previous := ReadLastHash(AuditLayout, lines);
      LastHashOfChain(sha, AuditLayout, lines);
      ChainLast(sha, AuditLayout, lines);
      var body := AuditBody(timestamp, direction, message, status);
      AuditBodyOk(timestamp, direction, message, status);
      SealedLinked(sha, AuditLayout, body, previous.value);
      var record := Sealed(sha, AuditLayout, body, previous.value);
      ChainSnoc(sha, AuditLayout, lines, Entry(record));
      AuditBodyFields(timestamp, direction, message, status);
      SealedSpelling(sha, AuditLayout, body, previous.value);
      TailSpelling(AuditLayout, lines);
      lines := lines + [Entry(record)];
      r := Ok(record);
    }
  }

  lemma AuditBodyFields(timestamp: string, direction: string, message: string, status: string)
    ensures var body := AuditBody(timestamp, direction, message, status);
            && Keys(body) == ["timestamp", "direction", "message", "verification_status"]
            && Get(body, "timestamp") == DStr(timestamp) && Get(body, "direction") == DStr(direction)
            && Get(body, "message") == DStr(message) && Get(body, "verification_status") == DStr(status)
  {
    hide Lookup;
    AuditBodyOk(timestamp, direction, message, status);
    var body := AuditBody(timestamp, direction, message, status);
    assert ("timestamp", DStr(timestamp)) == body[0] && ("direction", DStr(direction)) == body[1];
    assert ("message", DStr(message)) == body[2] && ("verification_status", DStr(status)) == body[3];
    LookupUnique(body, "timestamp", DStr(timestamp));
    LookupUnique(body, "direction", DStr(direction));
    LookupUnique(body, "message", DStr(message));
    LookupUnique(body, "verification_status", DStr(status));
  }

  /** The field `name` of the last entry; null when there is none. */
  function OfLast(lines: seq<Line>, name: string): Doc {
    if lines == [] || !lines[|lines| - 1].Entry? then DNull else Get(lines[|lines| - 1].record, name)
  }

  /** The field `name` holds the digest of the canonical text of all other fields. */
  predicate HashesItself(sha: Sha, record: Record, name: string) {
    Get(record, name) == DStr(sha(CanonicalBytes(DObj(Without(record, name)))))
  }

  lemma TailSpelling(layout: Layout, lines: seq<Line>)
    ensures layout == AuditLayout ==> Tail(layout, lines) == OfLast(lines, "entry_hash")
    ensures layout == EventLayout ==> Tail(layout, lines) == OfLast(lines, "event_sha256")
  {
    hide Lookup, Keys;
  }

  /** A sealed record in the field names of its file. */
  lemma SealedSpelling(sha: Sha, layout: Layout, fields: Record, previous: Doc)
    requires Body(layout, fields) && (previous.DNull? || previous.DStr?)
    ensures var record := Sealed(sha, layout, fields, previous);
            && (forall k <- Keys(fields) :: Get(record, k) == Get(fields, k))
            && (layout == AuditLayout ==>
                  Get(record, "previous_hash") == previous && HashesItself(sha, record, "entry_hash")
                  && Keys(record) == Keys(fields) + ["previous_hash", "entry_hash"])
            && (layout == EventLayout ==>
                  Get(record, "previous_event_sha256") == previous && HashesItself(sha, record, "event_sha256")
                  && Keys(record) == Keys(fields) + ["previous_event_sha256", "event_sha256"])
  {
    hide Get, Without, CanonicalBytes, Keys, Sealed, Body;
    SealedLinked(sha, layout, fields, previous);
    SealedValid(sha, layout, fields, previous);
  }

  // ---------------------------------------------------------------- the execution-event journal

  /** `events()`: blank lines are skipped. */
  function Solid(lines: seq<Line>): (r: seq<Line>)
    ensures forall l :: l in r <==> l in lines && !l.Blank?
  {
    if lines == [] then []
    else
      var rest := Solid(lines[..|lines| - 1]);
      if lines[|lines| - 1].Blank? then rest else rest + [lines[|lines| - 1]]
  }

  /** Events carry the numbers 1, 2, ..., n in file order. */
  predicate Numbered(events: seq<Line>) {
    forall i :: 0 <= i < |events| ==> events[i].Entry? && Get(events[i].record, "sequence") == DInt(i + 1)
  }

  /** `_next_sequence`; Python counts `True` and `False` as integers. */
  function NextSequence(events: seq<Line>): (r: Result<int, JournalError>)
    ensures r.Err? ==> r.error == Malformed
  {
    if events == [] then Ok(1)
    else
      var last := events[|events| - 1];
      match if last.Entry? then Get(last.record, "sequence") else DNull
      case DInt(n) => Ok(n + 1)
      case DBool(b) => Ok(if b then 2 else 1)
      case _ => Err(Malformed)
  }

  /** One more than the number of the last event, where true counts as one and false as zero. */
  lemma NextSequenceMeans(events: seq<Line>, n: int)
    ensures NextSequence(events) == Ok(n) <==>
            if events == [] then n == 1
            else OfLast(events, "sequence") in {DInt(n - 1), DBool(n == 2)}
                 && (OfLast(events, "sequence").DBool? ==> n in {1, 2})
  {
    hide Lookup, Keys;
  }

  function EventBody(sequence: int, eventType: string, rest: Record): Record {
    [("sequence", DInt(sequence)), ("event_type", DStr(eventType))] + rest
  }

  /** The other event fields: a record body that sets neither of the two fields above. */
  predicate EventRest(rest: Record) {
    Body(EventLayout, rest) && "sequence" !in Keys(rest) && "event_type" !in Keys(rest)
  }

  lemma EventNames()
    ensures "sequence" != "event_type"
    ensures EventLayout.Hash() !in ["sequence", "event_type"]
    ensures EventLayout.Previous() !in ["sequence", "event_type"]
  {
    assert "sequence"[0] == 's' && "event_type"[0] == 'e' && "event_type"[6] == 't';
    assert EventLayout.Hash()[0] == 'e' && EventLayout.Hash()[6] == 's' && EventLayout.Previous()[0] == 'p';
  }

  lemma EventBodyOk(sequence: int, eventType: string, rest: Record)
    requires EventRest(rest)
    ensures var body := EventBody(sequence, eventType, rest);
            Body(EventLayout, body) && "sequence" in Keys(body) && Get(body, "sequence") == DInt(sequence)
  {
    hide Lookup, Keys, Layout.Hash, Layout.Previous;
    EventNames();
    PairValid("sequence", DInt(sequence), "event_type", DStr(eventType));
    var head := [("sequence", DInt(sequence)), ("event_type", DStr(eventType))];
    var body := EventBody(sequence, eventType, rest);
    AppendValid(head, rest);
    assert body[0] == ("sequence", DInt(sequence));
    LookupUnique(body, "sequence", DInt(sequence));
  }

  /** Number, type and all other fields read back. */
  lemma EventBodyReads(sequence: int, eventType: string, rest: Record)
    requires EventRest(rest)
    ensures var body := EventBody(sequence, eventType, rest);
            && "event_type" in Keys(body) && Get(body, "event_type") == DStr(eventType)
            && forall k <- Keys(rest) :: k in Keys(body) && Get(body, k) == Get(rest, k)
  {
    hide Lookup, Keys, Layout.Hash, Layout.Previous;
    EventBodyOk(sequence, eventType, rest);
    var body := EventBody(sequence, eventType, rest);
    assert body[1] == ("event_type", DStr(eventType));
    LookupUnique(body, "event_type", DStr(eventType));
    forall k <- Keys(rest) ensures k in Keys(body) && Get(body, k) == Get(rest, k) {
      var d := Lookup(rest, k);
      assert (k, d) in rest;
      assert (k, d) in body;
      LookupUnique(body, k, d);
    }
  }

  lemma NumberedSnoc(events: seq<Line>, line: Line)
    requires Numbered(events) && line.Entry?
    ensures NextSequence(events) == Ok(|events| + 1)
    ensures Numbered(events + [line]) <==> Get(line.record, "sequence") == DInt(|events| + 1)
  {
    hide Get;
    var all := events + [line];
    assert all[|events|] == line;
  }

  class EventJournal {
    var lines: seq<Line>
    const sha: Sha
    const eventTypes: set<string>

    constructor (sha: Sha, eventTypes: set<string>)
      ensures lines == [] && this.sha == sha && this.eventTypes == eventTypes
    {
      lines := [];
      this.sha := sha;
      this.eventTypes := eventTypes;
    }

    /** The file is readable and its events are chained. */
    ghost predicate Intact()
      reads this
    {
      NotJson !in lines && Chain(sha, EventLayout, Solid(lines))
    }

    /** `verify_chain`, which parses the whole file before it checks a single link. */
    method VerifyChain() returns (r: Result<bool, JournalError>)
      ensures r == Ok(true) <==> Intact()
      ensures NotJson in lines ==> r.Err?
      ensures r.Err? ==> r.error == Malformed
      ensures NotJson !in lines ==> (r == Ok(false) <==> Refuted(sha, EventLayout, Solid(lines)))
    {
      hide Chain, FirstFault, Refuted, Unreadable, Get, EntryHash, Solid;
      if NotJson in lines {
        return Err(Malformed);
      }
      var events := Solid(lines);
      var previous := DNull;
      EmptyChain(sha, EventLayout, events[..0]);
      for i := 0 to |events|
        invariant Chain(sha, EventLayout, events[..i]) && previous == Tail(EventLayout, events[..i])
      {
        ChainStep(sha, EventLayout, events, i);
        var line := events[i];
        if !line.Entry? {
          FaultDecides(sha, EventLayout, events, i);
          return Err(Malformed);
        }
        if Get(line.record, EventLayout.Previous()) != previous
           || Get(line.record, EventLayout.Hash()) != DStr(EntryHash(sha, EventLayout, line.record)) {
          FaultDecides(sha, EventLayout, events, i);
          return Ok(false);
        }
        previous := Get(line.record, EventLayout.Hash());
      }
      assert events[..|events|] == events;
      NoFault(sha, EventLayout, events);
      r := Ok(true);
    }

    /** `append`: the next number, linked to the last event, or nothing at all. */
    method Append(eventType: string, rest: Record) returns (r: Result<Record, JournalError>)
      requires Hex64(sha) && EventRest(rest)
      modifies this`lines
      ensures r.Ok? <==> eventType in eventTypes && old(Intact()) && NextSequence(Solid(old(lines))).Ok?
      ensures r.Err? ==> lines == old(lines)
      ensures r.Ok? ==> lines == old(lines) + [Entry(r.value)] && Intact()
      ensures r.Ok? ==> Get(r.value, "sequence") == DInt(NextSequence(Solid(old(lines))).value)
      ensures Numbered(Solid(old(lines))) ==> Numbered(Solid(lines))
      ensures r.Ok? ==> Get(r.value, "event_type") == DStr(eventType)
      ensures r.Ok? ==> forall k <- Keys(rest) :: Get(r.value, k) == Get(rest, k)
      ensures r.Ok? ==> Get(r.value, "previous_event_sha256") == OfLast(Solid(old(lines)), "event_sha256")
      ensures r.Ok? ==> HashesItself(sha, r.value, "event_sha256")
      ensures r.Err? ==> match r.error
                         case Invalid => eventType !in eventTypes
                         case BrokenChain => Refuted(sha, EventLayout, Solid(old(lines)))
                         case Malformed => old(!Intact()) || NextSequence(Solid(old(lines))).Err?
    {
      hide Chain, Refuted, Get, Sealed, LastHashOf, Tail, Linked, NextSequence, Numbered, Body, EventBody, EventRest;
      hide OfLast, HashesItself, Keys;
      if eventType !in eventTypes {
        return Err(Invalid);
      }
      var intact := VerifyChain();
      if intact.Err? {
        return Err(intact.error);
      }
      if !intact.value {
        return Err(BrokenChain);
      }
      ghost var events := Solid(lines);
      var sequence := NextSequence(Solid(lines));
      if sequence.Err? {
        return Err(sequence.error);
      }
      var previous := ReadLastHash(EventLayout, lines);
      LastHashSolid(EventLayout, lines);
      EventAppended(sha, events, sequence.value, eventType, rest);
      var record := Sealed(sha, EventLayout, EventBody(sequence.value, eventType, rest), previous.value);
      lines := lines + [Entry(record)];
      assert lines[..|lines| - 1] == old(lines);
      assert Solid(lines) == events + [Entry(record)];
      if Numbered(events) {
        NumberedSnoc(events, Entry(record));
      }
      r := Ok(record);
    }
  }

  /** The record that is appended to a chain of events, and what it carries. */
  lemma EventAppended(sha: Sha, events: seq<Line>, sequence: int, eventType: string, rest: Record)
    requires Hex64(sha) && EventRest(rest) && Chain(sha, EventLayout, events)
    ensures LastHashOf(EventLayout, events).Ok?
    ensures var body, previous := EventBody(sequence, eventType, rest), LastHashOf(EventLayout, events).value;
            var record := Sealed(sha, EventLayout, body, previous);
            && Chain(sha, EventLayout, events + [Entry(record)])
            && Get(record, "sequence") == DInt(sequence) && Get(record, "event_type") == DStr(eventType)
            && (forall k <- Keys(rest) :: Get(record, k) == Get(rest, k))
            && Get(record, "previous_event_sha256") == OfLast(events, "event_sha256")
            && HashesItself(sha, record, "event_sha256")
  {
    hide Chain, Get, Sealed, LastHashOf, Tail, Linked, Body, EventBody, EventRest, OfLast, HashesItself, Keys;
    LastHashOfChain(sha, EventLayout, events);
    ChainLast(sha, EventLayout, events);
    var previous := LastHashOf(EventLayout, events).value;
    var body := EventBody(sequence, eventType, rest);
    EventBodyOk(sequence, eventType, rest);
    EventBodyReads(sequence, eventType, rest);
    SealedLinked(sha, EventLayout, body, previous);
    SealedSpelling(sha, EventLayout, body, previous);
    TailSpelling(EventLayout, events);
    ChainSnoc(sha, EventLayout, events, Entry(Sealed(sha, EventLayout, body, previous)));
  }

  /** Blank lines are invisible to the last-hash reader. */
  lemma {:induction false} LastHashSolid(layout: Layout, lines: seq<Line>)
    ensures LastHashOf(layout, lines) == LastHashOf(layout, Solid(lines))
  {
    if lines != [] {
      LastHashSolid(layout, lines[..|lines| - 1]);
    }
  }
}
