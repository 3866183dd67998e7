/**
 Packed segments: decoding and validating one, and building one from sixteen children.
 Compression and scratch files are left out; a loaded file is the sequence it holds.
 */
module Segment {
  import opened Wrappers
  import opened Radix
  import opened Wire
  import opened Carry
  import Frontier
  import Keys

  // ---- Record chains ----

  function LastHash(ps: seq<Projection>, prev: Bytes): Bytes {
    if ps == [] then prev else ps[|ps| - 1].recordHash
  }

  /** Revisions start, start + 1, ... each naming its predecessor's hash. */
  predicate Adjacent(ps: seq<Projection>, start: int, prev: Bytes) {
    ps != [] ==>
      && ps[0].revision == start && ps[0].previousRecordHash == prev
      && Adjacent(ps[1..], start + 1, ps[0].recordHash)
  }

  predicate AllValid(env: Env, ps: seq<Projection>) {
    forall i :: 0 <= i < |ps| ==> ValidProjection(env, ps[i])
  }

  predicate Chained(env: Env, ps: seq<Projection>, start: int, prev: Bytes) {
    Adjacent(ps, start, prev) && AllValid(env, ps)
  }

  /** ps are records as ref claims: its whole range, linked, between its boundary hashes. */
  predicate RecordsFor(env: Env, ref: ObjectRef, ps: seq<Projection>) {
    && Chained(env, ps, ref.start, ref.firstPrevHash)
    && ref.start + |ps| == ref.end + 1
    && LastHash(ps, ref.firstPrevHash) == ref.lastRecordHash
  }

  lemma {:induction false} AdjacentConcat(a: seq<Projection>, b: seq<Projection>, start: int, prev: Bytes)
    ensures Adjacent(a + b, start, prev) <==> Adjacent(a, start, prev) && Adjacent(b, start + |a|, LastHash(a, prev))
    ensures LastHash(a + b, prev) == LastHash(b, LastHash(a, prev))
  {
    if a == [] {
      assert a + b == b;
    } else {
      assert (a + b)[1..] == a[1..] + b;
      assert LastHash(a, prev) == LastHash(a[1..], a[0].recordHash);
      AdjacentConcat(a[1..], b, start + 1, a[0].recordHash);
    }
  }

  lemma AllValidConcat(env: Env, a: seq<Projection>, b: seq<Projection>)
    ensures AllValid(env, a + b) <==> AllValid(env, a) && AllValid(env, b)
  {
    var c := a + b;
    assert forall i :: 0 <= i < |a| ==> c[i] == a[i];
    assert forall i :: 0 <= i < |b| ==> c[|a| + i] == b[i];
    if AllValid(env, c) {
      forall i | 0 <= i < |b| ensures ValidProjection(env, b[i]) {
        assert c[|a| + i] == b[i];
      }
    }
  }

  lemma ChainedConcat(env: Env, a: seq<Projection>, b: seq<Projection>, start: int, prev: Bytes)
    ensures Chained(env, a + b, start, prev) <==>
            Chained(env, a, start, prev) && Chained(env, b, start + |a|, LastHash(a, prev))
    ensures LastHash(a + b, prev) == LastHash(b, LastHash(a, prev))
  {
    AdjacentConcat(a, b, start, prev);
    AllValidConcat(env, a, b);
  }

  predicate Continues(env: Env, p: Projection, next: int, chain: Bytes) {
    ValidProjection(env, p) && p.revision == next && p.previousRecordHash == chain
  }

  lemma ChainedHead(env: Env, ps: seq<Projection>, next: int, chain: Bytes)
    requires ps != []
    ensures Chained(env, ps, next, chain) ==> Continues(env, ps[0], next, chain)
    ensures |ps| == 1 && Continues(env, ps[0], next, chain) ==> Chained(env, ps, next, chain)
  {
  }

  /** One more record extends a checked prefix exactly when it is valid and continues it. */
  lemma ChainedStep(env: Env, ps: seq<Projection>, i: nat, start: int, prev: Bytes)
    requires i < |ps| && Chained(env, ps[..i], start, prev)
    ensures Continues(env, ps[i], start + i, LastHash(ps[..i], prev)) <==> Chained(env, ps[..i + 1], start, prev)
    ensures Chained(env, ps, start, prev) ==> Continues(env, ps[i], start + i, LastHash(ps[..i], prev))
  {
    var h := LastHash(ps[..i], prev);
    assert ps[..i + 1] == ps[..i] + [ps[i]] && ps == ps[..i] + ps[i..];
    ChainedConcat(env, ps[..i], [ps[i]], start, prev);
    ChainedConcat(env, ps[..i], ps[i..], start, prev);
    ChainedHead(env, [ps[i]], start + i, h);
    ChainedHead(env, ps[i..], start + i, h);
  }

  // ---- Segment envelopes ----

  const REQUIRED: seq<string> := ["format", "level", "start", "end", "records"]

  /** Case folding as far as it touches ASCII letters: the long s and the Kelvin sign also
      fold to letters. */
  function Lower(c: char): char {
    if 'A' <= c <= 'Z' then c - 'A' + 'a'
    else if c == '\U{17F}' then 's'
    else if c == '\U{212A}' then 'k'
    else c
  }

  predicate EqualFold(a: string, b: string) {
    |a| == |b| && forall i :: 0 <= i < |a| ==> Lower(a[i]) == Lower(b[i])
  }

  /** A field name that differs from a required one only by case. */
  predicate Alias(name: string) {
    exists i :: 0 <= i < |REQUIRED| && name != REQUIRED[i] && EqualFold(name, REQUIRED[i])
  }

  predicate FieldOK(env: Env, ref: ObjectRef, f: Field) {
    && !Alias(f.name)
    && (f.name == "format" ==> f.value == Text(SEGMENT_FORMAT))
    && (f.name == "level" ==> f.value == Number(ref.level))
    && (f.name == "start" ==> ref.start >= 0 && f.value == Text(Keys.HexRevision(ref.start)))
    && (f.name == "end" ==> ref.end >= 0 && f.value == Text(Keys.HexRevision(ref.end)))
    && (f.name == "records" ==> f.value.Records? && RecordsFor(env, ref, f.value.records))
  }

  predicate HasField(fields: seq<Field>, name: string) {
    exists i :: 0 <= i < |fields| && fields[i].name == name
  }

  /** What parseSegment accepts: the required fields in any order, each exactly once. */
  predicate SegmentOK(env: Env, ref: ObjectRef, fields: seq<Field>, complete: bool) {
    && ValidRef(ref) && ref.level != 0 && complete
    && (forall i, j :: 0 <= i < j < |fields| ==> fields[i].name != fields[j].name)
    && (forall i :: 0 <= i < |fields| ==> FieldOK(env, ref, fields[i]))
    && (forall k :: 0 <= k < |REQUIRED| ==> HasField(fields, REQUIRED[k]))
  }

  /** The contents of the records field. */
  function RecordsOf(fields: seq<Field>): seq<Projection> {
    if fields == [] then []
    else if fields[0].name == "records" && fields[0].value.Records? then fields[0].value.records
    else RecordsOf(fields[1..])
  }

  lemma {:induction false} RecordsOfAt(fields: seq<Field>, i: nat)
    requires i < |fields| && fields[i].name == "records" && fields[i].value.Records?
    requires forall j :: 0 <= j < i ==> fields[j].name != "records"
    ensures RecordsOf(fields) == fields[i].value.records
  {
    if i > 0 {
      RecordsOfAt(fields[1..], i - 1);
    }
  }

  /** The records array: every record valid and adjacent, none past the end. */
  method ParseRecords(env: Env, ref: ObjectRef, ps: seq<Projection>) returns (ok: bool, next: int, chain: Bytes)
    ensures ok <==> Chained(env, ps, ref.start, ref.firstPrevHash) && (ps != [] ==> ref.start + |ps| <= ref.end + 1)
    ensures ok ==> next == ref.start + |ps| && chain == LastHash(ps, ref.firstPrevHash)
  {
    next, chain := ref.start, ref.firstPrevHash;
    for i := 0 to |ps|
      invariant Chained(env, ps[..i], ref.start, ref.firstPrevHash)
      invariant i > 0 ==> ref.start + i <= ref.end + 1
      invariant next == ref.start + i && chain == LastHash(ps[..i], ref.firstPrevHash)
    {
      ChainedStep(env, ps, i, ref.start, ref.firstPrevHash);
      var p := ps[i];
      if !ValidProjection(env, p) || next > ref.end || p.revision != next || p.previousRecordHash != chain {
        return false, next, chain;
      }
      next, chain := next + 1, p.recordHash;
    }
    assert ps[..|ps|] == ps;
    ok := true;
  }

  /** parseSegment: consumes the envelope field by field. */
  method ParseSegment(env: Env, ref: ObjectRef, fields: seq<Field>, complete: bool) returns (r: Result<seq<Projection>>)
    ensures r.Ok? <==> SegmentOK(env, ref, fields, complete)
    ensures r.Ok? ==> r.value == RecordsOf(fields) && RecordsFor(env, ref, r.value)
  {
    if !ValidRef(ref) || ref.level == 0 {
      return Err(Corrupt);
    }
    hide *;
    var seen: set<string> := {};
    var next, chain, records := ref.start, ref.firstPrevHash, [];
    ParseStarts(env, ref, fields);
    for i := 0 to |fields|
      invariant Parsed(env, ref, fields, i, seen, next, chain, records)
    {
      var f := fields[i];
      if f.name in seen || Alias(f.name) {
        BadName(env, ref, fields, i, seen, next, chain, records, complete);
        return Err(Corrupt);
      }
      seen := seen + {f.name};
      if f.name == "records" {
        if !f.value.Records? {
          BadField(env, ref, fields, i, complete);
          return Err(Corrupt);
        }
        ghost var next0, chain0, records0 := next, chain, records;
        var ok;
        ok, next, chain := ParseRecords(env, ref, f.value.records);
        if !ok {
          BadRecords(env, ref, fields, i, complete);
          return Err(Corrupt);
        }
        records := f.value.records;
        RecordsParsed(env, ref, fields, i, seen, next0, chain0, records0, next, chain);
      } else {
        if !FieldOK(env, ref, f) {
          BadField(env, ref, fields, i, complete);
          return Err(Corrupt);
        }
        FieldParsed(env, ref, fields, i, seen, next, chain, records);
      }
    }
    ParsedNames(env, ref, fields, seen, next, chain, records);
    var all := CheckRequired(fields, seen);
    if !complete || !all {
      Incomplete(env, ref, fields, complete);
      return Err(Corrupt);
    }
    ParseEnds(env, ref, fields, seen, next, chain, records);
    if next != ref.end + 1 || chain != ref.lastRecordHash {
      return Err(Corrupt);
    }
    r := Ok(records);
  }

  /** What has been checked of the fields before i. */
  ghost predicate Parsed(env: Env, ref: ObjectRef, fields: seq<Field>, i: nat, seen: set<string>, next: int, chain: Bytes, records: seq<Projection>) {
    && i <= |fields| && ValidRef(ref) && ref.level != 0
    && seen == (set j | 0 <= j < i :: fields[j].name)
    && (forall j, k :: 0 <= j < k < i ==> fields[j].name != fields[k].name)
    && (forall j :: 0 <= j < i ==>
          if fields[j].name == "records" then fields[j].value == Records(records) && !Alias(fields[j].name)
          else FieldOK(env, ref, fields[j]))
    && Chained(env, records, ref.start, ref.firstPrevHash)
    && (records != [] ==> ref.start + |records| <= ref.end + 1)
    && next == ref.start + |records| && chain == LastHash(records, ref.firstPrevHash)
  }

  lemma ParseStarts(env: Env, ref: ObjectRef, fields: seq<Field>)
    requires ValidRef(ref) && ref.level != 0
    ensures Parsed(env, ref, fields, 0, {}, ref.start, ref.firstPrevHash, [])
  {
    hide ValidRef;
  }

  /** A repeated name or an alias spoils the envelope. */
  lemma BadName(env: Env, ref: ObjectRef, fields: seq<Field>, i: nat, seen: set<string>, next: int, chain: Bytes, records: seq<Projection>, complete: bool)
    requires i < |fields| && Parsed(env, ref, fields, i, seen, next, chain, records)
    requires fields[i].name in seen || Alias(fields[i].name)
    ensures !SegmentOK(env, ref, fields, complete)
  {
    hide ValidRef, Chained, Alias, RecordsFor;
    if fields[i].name in seen {
      var j :| 0 <= j < i && fields[j].name == fields[i].name;
    } else {
      assert !FieldOK(env, ref, fields[i]);
    }
  }

  lemma BadField(env: Env, ref: ObjectRef, fields: seq<Field>, i: nat, complete: bool)
    requires i < |fields| && (!FieldOK(env, ref, fields[i]) || (fields[i].name == "records" && !fields[i].value.Records?))
    ensures !SegmentOK(env, ref, fields, complete)
  {
    hide ValidRef, RecordsFor, Alias;
    assert !FieldOK(env, ref, fields[i]);
  }

  lemma BadRecords(env: Env, ref: ObjectRef, fields: seq<Field>, i: nat, complete: bool)
    requires i < |fields| && fields[i].name == "records" && fields[i].value.Records?
    requires var ps := fields[i].value.records;
      !(Chained(env, ps, ref.start, ref.firstPrevHash) && (ps != [] ==> ref.start + |ps| <= ref.end + 1))
    ensures !SegmentOK(env, ref, fields, complete)
  {
    hide ValidRef, Chained, Alias;
    assert !FieldOK(env, ref, fields[i]);
  }

  lemma RecordsParsed(env: Env, ref: ObjectRef, fields: seq<Field>, i: nat, seen: set<string>, next: int, chain: Bytes, records: seq<Projection>, next2: int, chain2: Bytes)
    requires i < |fields| && fields[i].name == "records" && fields[i].value.Records? && !Alias(fields[i].name)
    requires seen == (set j | 0 <= j < i :: fields[j].name) + {fields[i].name} && fields[i].name !in (set j | 0 <= j < i :: fields[j].name)
    requires Parsed(env, ref, fields, i, set j | 0 <= j < i :: fields[j].name, next, chain, records)
    requires var ps := fields[i].value.records;
      Chained(env, ps, ref.start, ref.firstPrevHash) && (ps != [] ==> ref.start + |ps| <= ref.end + 1) &&
      next2 == ref.start + |ps| && chain2 == LastHash(ps, ref.firstPrevHash)
    ensures Parsed(env, ref, fields, i + 1, seen, next2, chain2, fields[i].value.records)
  {
    hide ValidRef, Chained, Alias, FieldOK, LastHash;
  }

  lemma FieldParsed(env: Env, ref: ObjectRef, fields: seq<Field>, i: nat, seen: set<string>, next: int, chain: Bytes, records: seq<Projection>)
    requires i < |fields| && fields[i].name != "records" && FieldOK(env, ref, fields[i])
    requires seen == (set j | 0 <= j < i :: fields[j].name) + {fields[i].name} && fields[i].name !in (set j | 0 <= j < i :: fields[j].name)
    requires Parsed(env, ref, fields, i, set j | 0 <= j < i :: fields[j].name, next, chain, records)
    ensures Parsed(env, ref, fields, i + 1, seen, next, chain, records)
  {
    hide ValidRef, Chained, Alias, FieldOK, LastHash;
  }

  lemma ParsedNames(env: Env, ref: ObjectRef, fields: seq<Field>, seen: set<string>, next: int, chain: Bytes, records: seq<Projection>)
    requires Parsed(env, ref, fields, |fields|, seen, next, chain, records)
    ensures seen == set j | 0 <= j < |fields| :: fields[j].name
  {
    hide ValidRef, Chained, FieldOK;
  }

  lemma Incomplete(env: Env, ref: ObjectRef, fields: seq<Field>, complete: bool)
    requires !complete || !(forall k :: 0 <= k < |REQUIRED| ==> HasField(fields, REQUIRED[k]))
    ensures !SegmentOK(env, ref, fields, complete)
  {
    hide ValidRef, FieldOK;
  }

  /** With all fields read, the envelope is right exactly when the records reach the
      reference's last boundary. */
  lemma ParseEnds(env: Env, ref: ObjectRef, fields: seq<Field>, seen: set<string>, next: int, chain: Bytes, records: seq<Projection>)
    requires Parsed(env, ref, fields, |fields|, seen, next, chain, records)
    requires forall k :: 0 <= k < |REQUIRED| ==> HasField(fields, REQUIRED[k])
    ensures RecordsOf(fields) == records
    ensures RecordsFor(env, ref, records) <==> next == ref.end + 1 && chain == ref.lastRecordHash
    ensures SegmentOK(env, ref, fields, true) <==> next == ref.end + 1 && chain == ref.lastRecordHash
  {
    assert REQUIRED[4] == "records" && HasField(fields, REQUIRED[4]);
    var at :| 0 <= at < |fields| && fields[at].name == "records";
    hide ValidRef, Chained, Alias, LastHash;
    RecordsOfAt(fields, at);
    assert FieldOK(env, ref, fields[at]) <==> RecordsFor(env, ref, records);
    hide FieldOK, RecordsFor;
  }

  method CheckRequired(fields: seq<Field>, seen: set<string>) returns (ok: bool)
    requires seen == set j | 0 <= j < |fields| :: fields[j].name
    ensures ok <==> forall k :: 0 <= k < |REQUIRED| ==> HasField(fields, REQUIRED[k])
  {
    for k := 0 to |REQUIRED|
      invariant forall j :: 0 <= j < k ==> HasField(fields, REQUIRED[j])
    {
      if REQUIRED[k] !in seen {
        assert !HasField(fields, REQUIRED[k]);
        return false;
      }
    }
    ok := true;
  }

  /** decodeSegment: the envelope, then the digest of the bytes it was read from. */
  function DecodeSegment(env: Env, ref: ObjectRef, body: Body): Result<seq<Projection>> {
    if body.SegmentBody? && SegmentOK(env, ref, body.fields, body.complete) && env.digest(body) == ref.sha256
    then Ok(RecordsOf(body.fields)) else Err(Corrupt)
  }

  /** An accepted segment object holds exactly the records its reference claims. */
  lemma DecodedRecords(env: Env, ref: ObjectRef, body: Body)
    requires DecodeSegment(env, ref, body).Ok?
    ensures RecordsFor(env, ref, DecodeSegment(env, ref, body).value)
    ensures |DecodeSegment(env, ref, body).value| == Pow16(ref.level)
  {
    var fields := body.fields;
    assert REQUIRED[4] == "records" && HasField(fields, REQUIRED[4]);
    var at :| 0 <= at < |fields| && fields[at].name == "records";
    assert FieldOK(env, ref, fields[at]);
    RecordsOfAt(fields, at);
  }

  /** The canonical encoding of a segment. */
  function EncodeSegment(level: nat, start: nat, end: nat, ps: seq<Projection>): Body {
    SegmentBody(
      [Field("format", Text(SEGMENT_FORMAT)), Field("level", Number(level)),
       Field("start", Text(Keys.HexRevision(start))), Field("end", Text(Keys.HexRevision(end))),
       Field("records", Records(ps))],
      true)
  }

  lemma RequiredNoAlias(k: nat)
    requires k < |REQUIRED|
    ensures !Alias(REQUIRED[k])
  {
    assert |"format"| == 6 && |"level"| == 5 && |"start"| == 5 && |"end"| == 3 && |"records"| == 7;
    assert "level"[0] == 'l' && "start"[0] == 's';
  }

  /** Decoding inverts encoding for records that fit the reference. */
  lemma EncodedSegmentDecodes(env: Env, ref: ObjectRef, ps: seq<Projection>)
    requires ValidRef(ref) && ref.level != 0 && RecordsFor(env, ref, ps)
    requires env.digest(EncodeSegment(ref.level, ref.start, ref.end, ps)) == ref.sha256
    ensures DecodeSegment(env, ref, EncodeSegment(ref.level, ref.start, ref.end, ps)) == Ok(ps)
  {
    assert ref.start > 0 && ref.end > 0;
    var fields := EncodeSegment(ref.level, ref.start, ref.end, ps).fields;
    assert |fields| == |REQUIRED| == 5 && forall k :: 0 <= k < 5 ==> fields[k].name == REQUIRED[k];
    assert fields[4].value == Records(ps);
    RequiredDistinct();
    hide ValidRef, RecordsFor, Alias, FieldOK, EncodeSegment, RecordsOf;
    forall k | 0 <= k < |REQUIRED|
      ensures HasField(fields, REQUIRED[k]) && FieldOK(env, ref, fields[k])
    {
      EncodedField(env, ref, ps, k);
    }
    RecordsOfAt(fields, 4);
  }

  lemma EncodedField(env: Env, ref: ObjectRef, ps: seq<Projection>, k: nat)
    requires ref.start > 0 && ref.end > 0 && RecordsFor(env, ref, ps) && k < |REQUIRED|
    ensures FieldOK(env, ref, EncodeSegment(ref.level, ref.start, ref.end, ps).fields[k])
  {
    RequiredNoAlias(k);
    hide RecordsFor, Alias;
  }

  lemma RequiredDistinct()
    ensures |REQUIRED| == 5 && forall i, j :: 0 <= i < j < 5 ==> REQUIRED[i] != REQUIRED[j]
  {
    assert |"format"| == 6 && |"level"| == 5 && |"start"| == 5 && |"end"| == 3 && |"records"| == 7;
    assert "level"[0] == 'l' && "start"[0] == 's';
  }

  // ---- The parser accepts reordered encodings ----

  /** The fields of an encoding in any order, each once, beside others whose names do not
      resemble theirs. */
  ghost predicate Reorders(fields: seq<Field>, canonical: seq<Field>) {
    && (forall i, j :: 0 <= i < j < |fields| ==> fields[i].name != fields[j].name)
    && (forall k :: 0 <= k < |canonical| ==> canonical[k] in fields)
    && (forall f :: f in fields ==> f in canonical || Unrelated(f.name, canonical))
  }

  predicate Unrelated(name: string, canonical: seq<Field>) {
    forall k :: 0 <= k < |canonical| ==> !EqualFold(name, canonical[k].name)
  }

  function Canonical(ref: ObjectRef, ps: seq<Projection>): (fields: seq<Field>)
    requires ref.start >= 0 && ref.end >= 0
    ensures |fields| == |REQUIRED| == 5
  {
    EncodeSegment(ref.level, ref.start, ref.end, ps).fields
  }

  lemma CanonicalNames(ref: ObjectRef, ps: seq<Projection>)
    requires ref.start >= 0 && ref.end >= 0
    ensures forall k :: 0 <= k < |REQUIRED| ==> Canonical(ref, ps)[k].name == REQUIRED[k]
    ensures Canonical(ref, ps)[4] == Field("records", Records(ps))
  {
    forall k | 0 <= k < |REQUIRED|
      ensures Canonical(ref, ps)[k].name == REQUIRED[k]
    {
      assert k == 0 || k == 1 || k == 2 || k == 3 || k == 4;
    }
  }

  /** A checked field with a required name is the encoding's. */
  lemma FieldIsCanonical(env: Env, ref: ObjectRef, f: Field, k: nat)
    requires k < |REQUIRED| && f.name == REQUIRED[k] && FieldOK(env, ref, f) && ref.start >= 0 && ref.end >= 0
    ensures k == 4 ==> f.value.Records? && RecordsFor(env, ref, f.value.records)
    ensures forall ps :: (k == 4 ==> f.value == Records(ps)) ==> f == Canonical(ref, ps)[k]
  {
    hide RecordsFor, Alias;
    RequiredDistinct();
    assert k == 0 || k == 1 || k == 2 || k == 3 || k == 4;
  }

  /** A field whose name is not required is checked for resemblance alone. */
  lemma OtherField(env: Env, ref: ObjectRef, f: Field)
    requires forall k :: 0 <= k < |REQUIRED| ==> f.name != REQUIRED[k]
    ensures FieldOK(env, ref, f) <==> forall k :: 0 <= k < |REQUIRED| ==> !EqualFold(f.name, REQUIRED[k])
  {
    hide RecordsFor, EqualFold;
    assert REQUIRED[0] == "format" && REQUIRED[1] == "level" && REQUIRED[2] == "start" && REQUIRED[3] == "end" && REQUIRED[4] == "records";
  }

  lemma AcceptedReorders(env: Env, ref: ObjectRef, fields: seq<Field>, complete: bool) returns (ps: seq<Projection>)
    requires SegmentOK(env, ref, fields, complete)
    ensures ref.start > 0 && ref.end > 0 && RecordsFor(env, ref, ps) && Reorders(fields, Canonical(ref, ps))
  {
    var at := RecordsAt(env, ref, fields, complete);
    ps := fields[at].value.records;
    forall k | 0 <= k < |REQUIRED|
      ensures Canonical(ref, ps)[k] in fields
    {
      RequiredIsThere(env, ref, fields, complete, at, k);
    }
    forall i | 0 <= i < |fields|
      ensures fields[i] in Canonical(ref, ps) || Unrelated(fields[i].name, Canonical(ref, ps))
    {
      FieldHasPlace(env, ref, fields, complete, at, i);
    }
    hide FieldOK, Canonical, RecordsFor, Unrelated, ValidRef;
  }

  /** The records field. */
  lemma RecordsAt(env: Env, ref: ObjectRef, fields: seq<Field>, complete: bool) returns (at: nat)
    requires SegmentOK(env, ref, fields, complete)
    ensures ref.start > 0 && ref.end > 0 && at < |fields| && fields[at].name == REQUIRED[4]
    ensures fields[at].value.Records? && RecordsFor(env, ref, fields[at].value.records)
  {
    assert ref.start > 0 && ref.end > 0;
    hide ValidRef, RecordsFor, FieldOK;
    assert HasField(fields, REQUIRED[4]);
    at :| 0 <= at < |fields| && fields[at].name == REQUIRED[4];
    FieldIsCanonical(env, ref, fields[at], 4);
  }

  lemma RequiredIsThere(env: Env, ref: ObjectRef, fields: seq<Field>, complete: bool, at: nat, k: nat)
    requires SegmentOK(env, ref, fields, complete) && ref.start > 0 && ref.end > 0 && k < |REQUIRED|
    requires at < |fields| && fields[at].name == REQUIRED[4] && fields[at].value.Records?
    ensures Canonical(ref, fields[at].value.records)[k] in fields
  {
    hide ValidRef, RecordsFor, FieldOK, Canonical;
    assert HasField(fields, REQUIRED[k]);
    var i :| 0 <= i < |fields| && fields[i].name == REQUIRED[k];
    FieldIsCanonical(env, ref, fields[i], k);
    SameField(fields, i, at, k);
  }

  lemma FieldHasPlace(env: Env, ref: ObjectRef, fields: seq<Field>, complete: bool, at: nat, i: nat)
    requires SegmentOK(env, ref, fields, complete) && ref.start > 0 && ref.end > 0 && i < |fields|
    requires at < |fields| && fields[at].name == REQUIRED[4] && fields[at].value.Records?
    ensures
      var canonical := Canonical(ref, fields[at].value.records);
      fields[i] in canonical || Unrelated(fields[i].name, canonical)
  {
    hide ValidRef, RecordsFor, FieldOK, EqualFold, Canonical;
    CanonicalNames(ref, fields[at].value.records);
    if k :| 0 <= k < |REQUIRED| && fields[i].name == REQUIRED[k] {
      FieldIsCanonical(env, ref, fields[i], k);
      SameField(fields, i, at, k);
    } else {
      OtherField(env, ref, fields[i]);
    }
  }

  lemma SameField(fields: seq<Field>, i: nat, at: nat, k: nat)
    requires i < |fields| && at < |fields| && forall a, b :: 0 <= a < b < |fields| ==> fields[a].name != fields[b].name
    requires k < |REQUIRED| && fields[i].name == REQUIRED[k] && fields[at].name == REQUIRED[4]
    ensures k == 4 ==> i == at
  {
  }

  lemma ReorderedAccepted(env: Env, ref: ObjectRef, fields: seq<Field>, ps: seq<Projection>)
    requires ValidRef(ref) && ref.level != 0 && ref.start > 0 && ref.end > 0
    requires RecordsFor(env, ref, ps) && Reorders(fields, Canonical(ref, ps))
    ensures SegmentOK(env, ref, fields, true)
  {
    var canonical := Canonical(ref, ps);
    CanonicalNames(ref, ps);
    forall k | 0 <= k < |REQUIRED|
      ensures HasField(fields, REQUIRED[k]) && FieldOK(env, ref, canonical[k])
    {
      EncodedField(env, ref, ps, k);
      assert canonical[k] in fields;
    }
    hide ValidRef, RecordsFor, FieldOK, EqualFold, Canonical;
    forall i | 0 <= i < |fields|
      ensures FieldOK(env, ref, fields[i])
    {
      assert fields[i] in fields;
      if Unrelated(fields[i].name, canonical) {
        UnrelatedNames(fields[i].name, canonical);
        OtherField(env, ref, fields[i]);
      }
    }
  }

  lemma UnrelatedNames(name: string, canonical: seq<Field>)
    requires |canonical| == |REQUIRED| && (forall k :: 0 <= k < |REQUIRED| ==> canonical[k].name == REQUIRED[k])
    requires Unrelated(name, canonical)
    ensures forall k :: 0 <= k < |REQUIRED| ==> name != REQUIRED[k] && !EqualFold(name, REQUIRED[k])
  {
    forall k | 0 <= k < |REQUIRED|
      ensures name != REQUIRED[k] && !EqualFold(name, REQUIRED[k])
    {
      assert !EqualFold(name, canonical[k].name);
    }
  }

  /** What the parser accepts for a reference: the fields of the canonical encoding of some
      records it claims, in any order, beside others whose names no required name resembles. */
  lemma AcceptedEnvelope(env: Env, ref: ObjectRef, fields: seq<Field>, complete: bool)
    ensures SegmentOK(env, ref, fields, complete) <==>
            ValidRef(ref) && ref.level != 0 && complete && ref.start > 0 && ref.end > 0 &&
            exists ps :: RecordsFor(env, ref, ps) && Reorders(fields, Canonical(ref, ps))
  {
    if SegmentOK(env, ref, fields, complete) {
      var ps := AcceptedReorders(env, ref, fields, complete);
      SegmentOKParts(env, ref, fields, complete);
    }
    hide SegmentOK, ValidRef, RecordsFor, Reorders, Canonical;
    if ValidRef(ref) && ref.level != 0 && complete && ref.start > 0 && ref.end > 0 {
      forall ps | RecordsFor(env, ref, ps) && Reorders(fields, Canonical(ref, ps))
        ensures SegmentOK(env, ref, fields, complete)
      {
        ReorderedAccepted(env, ref, fields, ps);
      }
    }
  }

  lemma SegmentOKParts(env: Env, ref: ObjectRef, fields: seq<Field>, complete: bool)
    requires SegmentOK(env, ref, fields, complete)
    ensures ValidRef(ref) && ref.level != 0 && complete
  {
  }

  // ---- Loading ----

  type Getter = Key -> Result<Body>

  /** A loaded root: the decoded commit and the bytes it came from. */
  datatype Snapshot = Snapshot(commit: Commit, body: Body)

  /** A referenced object must exist. */
  function GetReferenced(get: Getter, key: Key): Result<Body> {
    match get(key)
    case Ok(b) => Ok(b)
    case Err(e) => if e == NotFound then Err(Corrupt) else Err(e)
  }

  function LoadCommitRef(env: Env, get: Getter, cached: Option<Snapshot>, ref: ObjectRef): Result<Commit> {
    if !ValidRef(ref) || ref.level != 0 then Err(Corrupt)
    else
      var body := if cached.Some? && ref.key == LogKey(cached.value.commit.revision) then Ok(cached.value.body)
                  else GetReferenced(get, ref.key);
      match body
      case Err(e) => Err(e)
      case Ok(b) =>
        if env.digest(b) != ref.sha256 then Err(Corrupt)
        else
          match DecodeCommit(env, ref.key, b)
          case Err(e) => Err(e)
          case Ok(c) =>
            if PrevHash(c) != ref.firstPrevHash || c.recordHash != ref.lastRecordHash then Err(Corrupt) else Ok(c)
  }

  /** The validated records behind a reference, all or none of them. */
  function LoadRecords(env: Env, get: Getter, cached: Option<Snapshot>, ref: ObjectRef): Result<seq<Projection>> {
    if !ValidRef(ref) then Err(Corrupt)
    else if ref.level == 0 then
      match LoadCommitRef(env, get, cached, ref)
      case Err(e) => Err(e)
      case Ok(c) => Ok([Project(c)])
    else
      match GetReferenced(get, ref.key)
      case Err(e) => Err(e)
      case Ok(b) => DecodeSegment(env, ref, b)
  }

  /** Whatever the store holds, loaded records are those the reference claims. */
  lemma LoadedRecords(env: Env, get: Getter, cached: Option<Snapshot>, ref: ObjectRef)
    requires LoadRecords(env, get, cached, ref).Ok?
    ensures ValidRef(ref) && RecordsFor(env, ref, LoadRecords(env, get, cached, ref).value)
  {
    LoadedParts(env, get, cached, ref);
    hide *;
    if ref.level != 0 {
      DecodedRecords(env, ref, GetReferenced(get, ref.key).value);
    } else {
      OneRecordFor(env, ref, LoadCommitRef(env, get, cached, ref).value);
    }
  }

  /** And they come from an object with the digest the reference names. */
  lemma LoadedObject(env: Env, get: Getter, cached: Option<Snapshot>, ref: ObjectRef)
    requires LoadRecords(env, get, cached, ref).Ok?
    ensures
      || (get(ref.key).Ok? && env.digest(get(ref.key).value) == ref.sha256)
      || (ref.level == 0 && cached.Some? && ref.key == LogKey(cached.value.commit.revision) && env.digest(cached.value.body) == ref.sha256)
  {
    hide ValidRef, SegmentOK, DecodeCommit;
  }

  lemma LoadedParts(env: Env, get: Getter, cached: Option<Snapshot>, ref: ObjectRef)
    requires LoadRecords(env, get, cached, ref).Ok?
    ensures ValidRef(ref)
    ensures ref.level != 0 ==>
              GetReferenced(get, ref.key).Ok? &&
              LoadRecords(env, get, cached, ref) == DecodeSegment(env, ref, GetReferenced(get, ref.key).value)
    ensures ref.level == 0 ==>
              LoadCommitRef(env, get, cached, ref).Ok? &&
              var c := LoadCommitRef(env, get, cached, ref).value;
              LoadRecords(env, get, cached, ref).value == [Project(c)] && ValidProjection(env, Project(c)) &&
              c.revision == ref.start == ref.end && PrevHash(c) == ref.firstPrevHash && c.recordHash == ref.lastRecordHash
  {
    hide DecodeSegment, FrontierOK, ValidProjection;
  }

  lemma OneRecordFor(env: Env, ref: ObjectRef, c: Commit)
    requires ValidProjection(env, Project(c)) && c.revision == ref.start == ref.end
    requires PrevHash(c) == ref.firstPrevHash && c.recordHash == ref.lastRecordHash
    ensures RecordsFor(env, ref, [Project(c)])
  {
    hide ValidProjection;
    assert [Project(c)][1..] == [];
    assert Adjacent([], ref.start + 1, c.recordHash);
  }

  // ---- Packing ----

  function AggregateRef(children: seq<ObjectRef>): ObjectRef
    requires children != []
  {
    var first, last := children[0], children[|children| - 1];
    ObjectRef(first.level + 1, first.start, last.end, OtherKey(""), [], first.firstPrevHash, last.lastRecordHash)
  }

  function LoadAll(load: ObjectRef -> Result<seq<Projection>>, refs: seq<ObjectRef>): Option<seq<Projection>> {
    if refs == [] then Some([])
    else
      match LoadAll(load, refs[..|refs| - 1])
      case None => None
      case Some(ps) =>
        match load(refs[|refs| - 1])
        case Err(_) => None
        case Ok(qs) => Some(ps + qs)
  }

  /** The reference createSegment computes for the loaded records of its children. */
  function SegmentRef(env: Env, children: seq<ObjectRef>, ps: seq<Projection>): ObjectRef
    requires children != [] && children[0].start >= 0 && children[|children| - 1].end >= 0
  {
    var r := AggregateRef(children);
    var sha := env.digest(EncodeSegment(r.level, r.start, r.end, ps));
    r.(sha256 := sha, key := TreeKey(r.level, r.start, r.end, sha))
  }

  /** The checks createSegment makes on the records it copies. */
  predicate Packable(env: Env, children: seq<ObjectRef>, ps: seq<Projection>)
    requires children != []
  {
    var r := AggregateRef(children);
    && ValidRevision(r.start) && ValidRevision(r.end)
    && Adjacent(ps, r.start, r.firstPrevHash)
    && r.start + |ps| == r.end + 1
    && LastHash(ps, r.firstPrevHash) == r.lastRecordHash
    && ValidRef(SegmentRef(env, children, ps))
  }

  /** createSegment up to publication: copies the records of its children, in order, into
      one stream. The children are fetched four at a time, which does not affect the result. */
  method PackSegment(env: Env, load: ObjectRef -> Result<seq<Projection>>, children: seq<ObjectRef>)
    returns (r: Option<(ObjectRef, Body)>)
    ensures r.Some? <==> |children| == 16 && LoadAll(load, children).Some? &&
                         Packable(env, children, LoadAll(load, children).value)
    ensures r.Some? ==>
              var ps := LoadAll(load, children).value;
              var ref := SegmentRef(env, children, ps);
              r.value == (ref, EncodeSegment(ref.level, ref.start, ref.end, ps))
  {
    if |children| != 16 {
      return None;
    }
    var ref := AggregateRef(children);
    if !ValidRevision(ref.start) {
      return None;
    }
    var ok, stream := CopyChildren(load, children, ref.start, ref.firstPrevHash);
    if !ok || !ValidRevision(ref.end) || ref.start + |stream| != ref.end + 1 ||
       LastHash(stream, ref.firstPrevHash) != ref.lastRecordHash {
      return None;
    }
    var made := SegmentRef(env, children, stream);
    if !ValidRef(made) {
      return None;
    }
    r := Some((made, EncodeSegment(made.level, made.start, made.end, stream)));
  }

  method CopyChildren(load: ObjectRef -> Result<seq<Projection>>, children: seq<ObjectRef>, start: int, prev: Bytes)
    returns (ok: bool, stream: seq<Projection>)
    ensures ok <==> LoadAll(load, children).Some? && Adjacent(LoadAll(load, children).value, start, prev)
    ensures ok ==> LoadAll(load, children) == Some(stream)
  {
    stream := [];
    var next, chain := start, prev;
    for i := 0 to |children|
      invariant LoadAll(load, children[..i]) == Some(stream)
      invariant Adjacent(stream, start, prev)
      invariant next == start + |stream| && chain == LastHash(stream, prev)
    {
      assert children[..i + 1][..i] == children[..i] && children[..i + 1][i] == children[i];
      if LoadAll(load, children).Some? {
        LoadAllPrefix(load, children, i + 1, start, prev);
      }
      var part := load(children[i]);
      if part.Err? {
        return false, stream;
      }
      AdjacentConcat(stream, part.value, start, prev);
      ok, next, chain := CopyPart(part.value, next, chain);
      if !ok {
        return false, stream;
      }
      stream := stream + part.value;
    }
    assert children[..|children|] == children;
    ok := true;
  }

  /** Replays one child, checking that it continues the chain. */
  method CopyPart(part: seq<Projection>, start: int, prev: Bytes) returns (ok: bool, next: int, chain: Bytes)
    ensures ok <==> Adjacent(part, start, prev)
    ensures ok ==> next == start + |part| && chain == LastHash(part, prev)
  {
    next, chain := start, prev;
    for j := 0 to |part|
      invariant Adjacent(part[..j], start, prev)
      invariant next == start + j && chain == LastHash(part[..j], prev)
    {
      assert part[..j + 1] == part[..j] + [part[j]];
      AdjacentConcat(part[..j], [part[j]], start, prev);
      if part[j].revision != next || part[j].previousRecordHash != chain {
        assert part == part[..j] + part[j..] && part[j..][0] == part[j];
        AdjacentConcat(part[..j], part[j..], start, prev);
        return false, next, chain;
      }
      next, chain := next + 1, part[j].recordHash;
    }
    assert part[..|part|] == part;
    ok := true;
  }

  /** A prefix of the children that does not load or does not chain spoils the whole. */
  lemma {:induction false} LoadAllPrefix(load: ObjectRef -> Result<seq<Projection>>, refs: seq<ObjectRef>, k: nat, start: int, prev: Bytes)
    requires k <= |refs| && LoadAll(load, refs).Some?
    ensures LoadAll(load, refs[..k]).Some?
    ensures Adjacent(LoadAll(load, refs).value, start, prev) ==> Adjacent(LoadAll(load, refs[..k]).value, start, prev)
  {
    if k < |refs| {
      var front := refs[..|refs| - 1];
      LoadAllPrefix(load, front, k, start, prev);
      assert front[..k] == refs[..k];
      AdjacentConcat(LoadAll(load, front).value, load(refs[|refs| - 1]).value, start, prev);
    } else {
      assert refs[..k] == refs;
    }
  }

  /** Every reference that loads gives the records it claims. */
  ghost predicate LoadsRecords(env: Env, load: ObjectRef -> Result<seq<Projection>>, refs: seq<ObjectRef>) {
    forall r :: r in refs && load(r).Ok? ==> RecordsFor(env, r, load(r).value)
  }

  /** One chain of records in step with the walk along their references. */
  ghost predicate ChainOf(env: Env, refs: seq<ObjectRef>, ps: seq<Projection>, next: int, chain: Bytes) {
    Chained(env, ps, next, chain) && Walk(refs, next, chain) == Some((next + |ps|, LastHash(ps, chain)))
  }

  /** Adjacent children that load give one chain from the first boundary to the last. */
  lemma {:induction false} ChildrenChain(env: Env, load: ObjectRef -> Result<seq<Projection>>, refs: seq<ObjectRef>, next: int, chain: Bytes)
    requires Walk(refs, next, chain).Some? && LoadAll(load, refs).Some?
    requires LoadsRecords(env, load, refs)
    ensures ChainOf(env, refs, LoadAll(load, refs).value, next, chain)
  {
    if refs == [] {
      NothingLoaded(env, load, next, chain);
    } else {
      var n := |refs| - 1;
      LoadAllLast(env, load, refs);
      WalkFront(refs, next, chain);
      hide *;
      ChildrenChain(env, load, refs[..n], next, chain);
      ExtendChain(env, refs, LoadAll(load, refs[..n]).value, load(refs[n]).value, next, chain);
    }
  }

  lemma WalkFront(refs: seq<ObjectRef>, next: int, chain: Bytes)
    requires refs != [] && Walk(refs, next, chain).Some?
    ensures
      var n := |refs| - 1;
      var w := Walk(refs[..n], next, chain);
      w.Some? && Walk(refs, next, chain) == Walk([refs[n]], w.value.0, w.value.1)
  {
    var n := |refs| - 1;
    assert refs == refs[..n] + [refs[n]];
    WalkConcat(refs[..n], [refs[n]], next, chain);
    hide *;
  }

  lemma NothingLoaded(env: Env, load: ObjectRef -> Result<seq<Projection>>, next: int, chain: Bytes)
    ensures LoadAll(load, []) == Some([]) && ChainOf(env, [], [], next, chain)
  {
  }

  lemma LoadAllLast(env: Env, load: ObjectRef -> Result<seq<Projection>>, refs: seq<ObjectRef>)
    requires refs != [] && LoadAll(load, refs).Some? && LoadsRecords(env, load, refs)
    ensures
      var front, last := refs[..|refs| - 1], refs[|refs| - 1];
      LoadAll(load, front).Some? && load(last).Ok? && LoadsRecords(env, load, front) &&
      LoadAll(load, refs) == Some(LoadAll(load, front).value + load(last).value) && RecordsFor(env, last, load(last).value)
  {
    var last := refs[|refs| - 1];
    assert last in refs;
    hide RecordsFor;
  }

  lemma ChainOfIs(env: Env, refs: seq<ObjectRef>, ps: seq<Projection>, next: int, chain: Bytes)
    requires ChainOf(env, refs, ps, next, chain)
    ensures Chained(env, ps, next, chain) && Walk(refs, next, chain) == Some((next + |ps|, LastHash(ps, chain)))
  {
    hide Walk, Chained, LastHash;
  }

  lemma ExtendChain(env: Env, refs: seq<ObjectRef>, ps: seq<Projection>, qs: seq<Projection>, next: int, chain: Bytes)
    requires refs != [] && Walk(refs, next, chain).Some?
    requires ChainOf(env, refs[..|refs| - 1], ps, next, chain) && RecordsFor(env, refs[|refs| - 1], qs)
    ensures ChainOf(env, refs, ps + qs, next, chain)
  {
    hide Walk, Chained, RecordsFor, LastHash;
    WalkFront(refs, next, chain);
    AppendChain(env, ps, qs, next, chain, refs[|refs| - 1]);
  }

  lemma AppendChain(env: Env, ps: seq<Projection>, qs: seq<Projection>, next: int, chain: Bytes, ref: ObjectRef)
    requires Chained(env, ps, next, chain) && RecordsFor(env, ref, qs)
    requires Walk([ref], next + |ps|, LastHash(ps, chain)).Some?
    ensures Chained(env, ps + qs, next, chain)
    ensures Walk([ref], next + |ps|, LastHash(ps, chain)) == Some((next + |ps + qs|, LastHash(ps + qs, chain)))
  {
    ForParts(env, ref, qs);
    hide *;
    ChainedConcat(env, ps, qs, next, chain);
    OneWalk(ref, next + |ps|, LastHash(ps, chain));
  }

  lemma ForParts(env: Env, ref: ObjectRef, qs: seq<Projection>)
    requires RecordsFor(env, ref, qs)
    ensures Chained(env, qs, ref.start, ref.firstPrevHash) && ref.start + |qs| == ref.end + 1
    ensures LastHash(qs, ref.firstPrevHash) == ref.lastRecordHash
  {
    hide Chained;
  }

  lemma OneWalk(ref: ObjectRef, next: int, chain: Bytes)
    requires Walk([ref], next, chain).Some?
    ensures ref.start == next && ref.firstPrevHash == chain && Walk([ref], next, chain) == Some((ref.end + 1, ref.lastRecordHash))
  {
    assert [ref][1..] == [];
  }

  /** The block covering sixteen adjacent blocks of one level is itself in range. */
  lemma SixteenBlocks(children: seq<ObjectRef>, next: int, chain: Bytes)
    requires |children| == 16 && children[0].level < 15
    requires forall i :: 0 <= i < 16 ==> ValidRef(children[i]) && children[i].level == children[0].level
    requires Walk(children, next, chain).Some?
    ensures children[0].start == next && children[0].firstPrevHash == chain
    ensures children[15].end == next + Pow16(children[0].level + 1) - 1
    ensures Walk(children, next, chain) == Some((children[15].end + 1, children[15].lastRecordHash))
  {
    WalkLast(children, next, chain);
    Frontier.BlocksTile(children, children[0].level, next, chain);
  }

  /** Packing sixteen adjacent blocks of one level always succeeds once they load. The
      segment is a valid reference whose object decodes to the children's records in order. */
  lemma PackedSegment(env: Env, load: ObjectRef -> Result<seq<Projection>>, children: seq<ObjectRef>, next: int, chain: Bytes)
    requires ValidEnv(env) && |children| == 16 && children[0].level < 15
    requires forall i :: 0 <= i < 16 ==> ValidRef(children[i]) && children[i].level == children[0].level
    requires Walk(children, next, chain).Some? && 1 <= next && Aligned(next - 1, children[0].level + 1)
    requires LoadAll(load, children).Some? && LoadsRecords(env, load, children)
    ensures children[0].start > 0 && children[15].end > 0
    ensures
      var ps := LoadAll(load, children).value;
      var ref := SegmentRef(env, children, ps);
      Packable(env, children, ps) && Aggregates(ref, children) && RecordsFor(env, ref, ps) &&
      DecodeSegment(env, ref, EncodeSegment(ref.level, ref.start, ref.end, ps)) == Ok(ps)
  {
    hide *;
    var ps := LoadAll(load, children).value;
    ChildrenChain(env, load, children, next, chain);
    ChainOfIs(env, children, ps, next, chain);
    SixteenBlocks(children, next, chain);
    PackedRef(env, children, ps, next, chain);
    var ref := SegmentRef(env, children, ps);
    MadeForRecords(env, children, ps, next, chain);
    EncodedSegmentDecodes(env, ref, ps);
  }

  /** The reference made for sixteen adjacent blocks is valid. */
  lemma PackedRef(env: Env, children: seq<ObjectRef>, ps: seq<Projection>, next: int, chain: Bytes)
    requires ValidEnv(env) && |children| == 16 && children[0].level < 15 && ValidRef(children[0]) && ValidRef(children[15])
    requires 1 <= next == children[0].start && Aligned(next - 1, children[0].level + 1)
    requires children[15].end == next + Pow16(children[0].level + 1) - 1
    ensures children[0].start > 0 && children[15].end > 0
    ensures
      var ref := SegmentRef(env, children, ps);
      ValidRef(ref) && ref.level != 0 && Aggregates(ref, children) && ValidRevision(ref.start) && ValidRevision(ref.end) &&
      env.digest(EncodeSegment(ref.level, ref.start, ref.end, ps)) == ref.sha256
  {
    hide Aligned, EncodeSegment;
  }

  /** And the records of the blocks are what it claims. */
  lemma MadeForRecords(env: Env, children: seq<ObjectRef>, ps: seq<Projection>, next: int, chain: Bytes)
    requires |children| == 16 && children[0].start > 0 && children[15].end > 0
    requires ValidRef(SegmentRef(env, children, ps))
    requires children[0].start == next && children[0].firstPrevHash == chain && Chained(env, ps, next, chain)
    requires children[15].end + 1 == next + |ps| && children[15].lastRecordHash == LastHash(ps, chain)
    ensures RecordsFor(env, SegmentRef(env, children, ps), ps) && Packable(env, children, ps)
  {
    hide Adjacent, AllValid, EncodeSegment, Aligned, LastHash;
  }
}
