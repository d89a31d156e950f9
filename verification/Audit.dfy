/**
 The audit export's hash chain (backend/app/audit_logs/service.py), the field cleaning its events
 go through once more when they are stored (backend/app/schemas/audit_log.py), and the redaction
 bound behind both (backend/app/core/redaction.py).
 */
module Audit {
  import opened PyText
  import opened Wrappers

  const AUDIT_SUMMARY_MAX_CHARS: nat := 2000
  const TRUNCATION_MARKER := "[TRUNCATED]"
  const OMITTED := " characters omitted"

  type Redaction = string -> string

  function Suffix(omitted: nat): string {
    "\n" + TRUNCATION_MARKER + " " + Decimal(omitted) + OMITTED
  }

  /** The part of `redact_and_truncate` after the redaction. */
  function Truncated(text: string, maxChars: nat): string {
    if |text| <= maxChars then text else text[..maxChars] + Suffix(|text| - maxChars)
  }

  function RedactAndTruncate(redact: Redaction, text: string, maxChars: nat): string {
    Truncated(redact(text), maxChars)
  }

  /** What is hashed of an event. */
  datatype Fields = Fields(sequence: nat, timestamp: string, eventType: string, actor: string,
                           summary: string, entity: string, previous: Option<string>)

  type Hash = Fields -> string

  /** The canonical text has one reading, and the digest does not collide. */
  ghost predicate Injective(hash: Hash) {
    forall a: Fields, b: Fields :: hash(a) == hash(b) ==> a == b
  }

  /** An exported event: its fields as stored, and the hash stored beside them. */
  datatype Event = Event(fields: Fields, hash: string)

  datatype Pending = Pending(timestamp: string, eventType: string, actor: string, summary: string, entity: string)

  /** The fields `_chain_events` hashes. */
  function HashedFields(redact: Redaction, item: Pending, sequence: nat, previous: Option<string>): Fields {
    Fields(sequence, item.timestamp, redact(item.eventType), item.actor,
           RedactAndTruncate(redact, item.summary, AUDIT_SUMMARY_MAX_CHARS), item.entity, previous)
  }

  /** The validators of the stored event clean three of its fields again. */
  function Stored(redact: Redaction, fields: Fields): Fields {
    fields.(timestamp := redact(fields.timestamp), eventType := redact(fields.eventType),
            summary := RedactAndTruncate(redact, fields.summary, AUDIT_SUMMARY_MAX_CHARS))
  }

  /** The hash an event of the chain gets: over its own fields, which hold its predecessor's hash. */
  function HashAt(redact: Redaction, hash: Hash, pending: seq<Pending>, i: nat): string
    requires i < |pending|
    decreases i, 1
  {
    hash(FieldsAt(redact, hash, pending, i))
  }

  function FieldsAt(redact: Redaction, hash: Hash, pending: seq<Pending>, i: nat): Fields
    requires i < |pending|
    decreases i, 0
  {
    HashedFields(redact, pending[i], i + 1, if i == 0 then None else Some(HashAt(redact, hash, pending, i - 1)))
  }

  function EventAt(redact: Redaction, hash: Hash, pending: seq<Pending>, i: nat): Event
    requires i < |pending|
  {
    Event(Stored(redact, FieldsAt(redact, hash, pending, i)), HashAt(redact, hash, pending, i))
  }

  /** `_chain_events`: each event stores its cleaned fields and a hash over its own fields and its predecessor's hash. */
  method ChainEvents(redact: Redaction, hash: Hash, pending: seq<Pending>) returns (events: seq<Event>)
    ensures Exported(redact, hash, pending, events)
  {
    events := [];
    var previousHash: Option<string> := None;
    for i := 0 to |pending|
      invariant |events| == i
      invariant previousHash == if i == 0 then None else Some(HashAt(redact, hash, pending, i - 1))
      invariant forall k | 0 <= k < i :: events[k] == EventAt(redact, hash, pending, k)
    {
      var hashFields := HashedFields(redact, pending[i], i + 1, previousHash);
      var eventHash := hash(hashFields);
      events := events + [Event(Stored(redact, hashFields), eventHash)];
      previousHash := Some(eventHash);
    }
  }

  // What a reader of the export can check

  function FinalHash(events: seq<Event>): Option<string> {
    if events == [] then None else Some(events[|events| - 1].hash)
  }

  /** The event names its position and its predecessor's hash. */
  predicate Linked(events: seq<Event>, i: nat)
    requires i < |events|
  {
    && events[i].fields.sequence == i + 1
    && events[i].fields.previous == if i == 0 then None else Some(events[i - 1].hash)
  }

  predicate HashMatches(hash: Hash, event: Event) {
    hash(event.fields) == event.hash
  }

  ghost predicate Verifies(hash: Hash, events: seq<Event>) {
    forall i | 0 <= i < |events| :: Sound(hash, events, i)
  }

  predicate Sound(hash: Hash, events: seq<Event>, i: nat)
    requires i < |events|
  {
    Linked(events, i) && HashMatches(hash, events[i])
  }

  /** Two logs that verify and end in the same hash are the same log: same length, order and fields. */
  lemma {:induction false} SameFinalHashSameLog(hash: Hash, a: seq<Event>, b: seq<Event>)
    requires Injective(hash) && Verifies(hash, a) && Verifies(hash, b)
    requires FinalHash(a) == FinalHash(b)
    ensures a == b
    decreases |a|
  {
    if a != [] {
      var i, j := |a| - 1, |b| - 1;
      assert Sound(hash, a, i) && Sound(hash, b, j);
      assert a[i] == b[j];
      VerifiesInitially(hash, a);
      VerifiesInitially(hash, b);
      SameFinalHashSameLog(hash, a[..i], b[..j]);
      assert a == a[..i] + [a[i]] && b == b[..j] + [b[j]];
    }
  }

  lemma VerifiesInitially(hash: Hash, events: seq<Event>)
    requires Verifies(hash, events) && events != []
    ensures Verifies(hash, events[..|events| - 1])
    ensures events[|events| - 1].fields.previous == FinalHash(events[..|events| - 1])
  {
    var initial := events[..|events| - 1];
    assert Sound(hash, events, |events| - 1);
    forall i | 0 <= i < |initial| ensures Sound(hash, initial, i) {
      assert Sound(hash, events, i);
    }
  }

  /** Up to an event, two exports hash and store the same things. */
  ghost predicate SameUpTo(redact: Redaction, hash: Hash, a: seq<Pending>, b: seq<Pending>, n: nat)
    requires n <= |a| && n <= |b|
  {
    forall k | 0 <= k < n :: SameAt(redact, hash, a, b, k)
  }

  ghost predicate SameAt(redact: Redaction, hash: Hash, a: seq<Pending>, b: seq<Pending>, k: nat)
    requires k < |a| && k < |b|
  {
    && FieldsAt(redact, hash, a, k) == FieldsAt(redact, hash, b, k)
    && EventAt(redact, hash, a, k) == EventAt(redact, hash, b, k)
  }

  /** Two exports with the same final hash come from the same hashed fields, whatever was stored. */
  lemma {:induction false} SameFinalHashSameFields(redact: Redaction, hash: Hash, a: seq<Pending>, b: seq<Pending>, i: nat, j: nat)
    requires Injective(hash) && i < |a| && j < |b|
    requires HashAt(redact, hash, a, i) == HashAt(redact, hash, b, j)
    ensures i == j && SameUpTo(redact, hash, a, b, i + 1)
  {
    SameHashSameFields(redact, hash, a, b, i, j);
    if i > 0 { SameFinalHashSameFields(redact, hash, a, b, i - 1, j - 1); }
    SameOneMore(redact, hash, a, b, i);
  }

  lemma SameOneMore(redact: Redaction, hash: Hash, a: seq<Pending>, b: seq<Pending>, i: nat)
    requires i < |a| && i < |b| && SameAt(redact, hash, a, b, i) && (i > 0 ==> SameUpTo(redact, hash, a, b, i))
    ensures SameUpTo(redact, hash, a, b, i + 1)
  {
  }

  lemma SameHashSameFields(redact: Redaction, hash: Hash, a: seq<Pending>, b: seq<Pending>, i: nat, j: nat)
    requires Injective(hash) && i < |a| && j < |b|
    requires HashAt(redact, hash, a, i) == HashAt(redact, hash, b, j)
    ensures i == j && SameAt(redact, hash, a, b, i)
    ensures i > 0 ==> HashAt(redact, hash, a, i - 1) == HashAt(redact, hash, b, i - 1)
  {
    assert FieldsAt(redact, hash, a, i) == FieldsAt(redact, hash, b, j);
  }

  /** So two exports with the same final hash are the same: same length, same events in the same order. */
  lemma SameFinalHashSameExport(redact: Redaction, hash: Hash, a: seq<Pending>, b: seq<Pending>, ea: seq<Event>, eb: seq<Event>)
    requires Injective(hash) && Exported(redact, hash, a, ea) && Exported(redact, hash, b, eb)
    requires FinalHash(ea) == FinalHash(eb)
    ensures |a| == |b| && SameUpTo(redact, hash, a, b, |a|) && ea == eb
  {
    if a != [] {
      var i, j := |a| - 1, |b| - 1;
      assert ExportedAt(redact, hash, a, ea, i) && ExportedAt(redact, hash, b, eb, j);
      SameFinalHashSameFields(redact, hash, a, b, i, j);
      forall k | 0 <= k < |ea| ensures ea[k] == eb[k] {
        assert SameAt(redact, hash, a, b, k) && ExportedAt(redact, hash, a, ea, k) && ExportedAt(redact, hash, b, eb, k);
      }
    }
  }

  /** What the final hash of an export vouches for of a pending event. */
  ghost predicate SameItem(redact: Redaction, a: Pending, b: Pending) {
    && a.timestamp == b.timestamp && redact(a.eventType) == redact(b.eventType)
    && a.actor == b.actor && a.entity == b.entity
    && RedactAndTruncate(redact, a.summary, AUDIT_SUMMARY_MAX_CHARS) == RedactAndTruncate(redact, b.summary, AUDIT_SUMMARY_MAX_CHARS)
  }

  /** ... and their pending events agree, one by one, in everything the hash covers. */
  lemma SameFinalHashSameItems(redact: Redaction, hash: Hash, a: seq<Pending>, b: seq<Pending>, ea: seq<Event>, eb: seq<Event>)
    requires Injective(hash) && Exported(redact, hash, a, ea) && Exported(redact, hash, b, eb)
    requires FinalHash(ea) == FinalHash(eb)
    ensures |a| == |b| && forall k | 0 <= k < |a| :: SameItem(redact, a[k], b[k])
  {
    SameFinalHashSameExport(redact, hash, a, b, ea, eb);
    forall k | 0 <= k < |a| ensures SameItem(redact, a[k], b[k]) {
      assert SameAt(redact, hash, a, b, k);
    }
  }

  /** What an exported event shows of the pending one. */
  ghost predicate Shows(redact: Redaction, hash: Hash, item: Pending, event: Event, i: nat, previous: Option<string>) {
    var once := RedactAndTruncate(redact, item.summary, AUDIT_SUMMARY_MAX_CHARS);
    && event.fields == Fields(i + 1, redact(item.timestamp), redact(redact(item.eventType)), item.actor,
                              RedactAndTruncate(redact, once, AUDIT_SUMMARY_MAX_CHARS), item.entity, previous)
    && event.hash == hash(Fields(i + 1, item.timestamp, redact(item.eventType), item.actor, once, item.entity, previous))
  }

  /** Each event of an export shows its pending event and follows the one before it. */
  lemma ExportShows(redact: Redaction, hash: Hash, pending: seq<Pending>, events: seq<Event>, i: nat)
    requires Exported(redact, hash, pending, events) && i < |pending|
    ensures Shows(redact, hash, pending[i], events[i], i, if i == 0 then None else Some(events[i - 1].hash))
  {
    assert ExportedAt(redact, hash, pending, events, i);
    if i > 0 { assert ExportedAt(redact, hash, pending, events, i - 1); }
  }

  /** Storing an event changes none of its fields. */
  predicate Kept(redact: Redaction, fields: Fields) {
    Stored(redact, fields) == fields
  }

  /** The events are the export of these pending events. */
  ghost predicate Exported(redact: Redaction, hash: Hash, pending: seq<Pending>, events: seq<Event>) {
    && |events| == |pending|
    && forall i | 0 <= i < |pending| :: ExportedAt(redact, hash, pending, events, i)
  }

  ghost predicate ExportedAt(redact: Redaction, hash: Hash, pending: seq<Pending>, events: seq<Event>, i: nat)
    requires i < |events| == |pending|
  {
    events[i] == EventAt(redact, hash, pending, i)
  }

  lemma ExportedEvent(redact: Redaction, hash: Hash, pending: seq<Pending>, events: seq<Event>, i: nat)
    requires Injective(hash) && Exported(redact, hash, pending, events) && i < |pending|
    ensures Linked(events, i)
    ensures Sound(hash, events, i) <==> KeptAt(redact, hash, pending, i)
  {
    assert ExportedAt(redact, hash, pending, events, i);
    if i > 0 { assert ExportedAt(redact, hash, pending, events, i - 1); }
  }

  /** Storing the event changes none of the fields that were hashed. */
  ghost predicate KeptAt(redact: Redaction, hash: Hash, pending: seq<Pending>, i: nat)
    requires i < |pending|
  {
    Kept(redact, FieldsAt(redact, hash, pending, i))
  }

  /**
   An exported chain is always linked; it verifies exactly when cleaning the fields a second time
   changed none of them.
   */
  lemma ExportVerifiesIff(redact: Redaction, hash: Hash, pending: seq<Pending>, events: seq<Event>)
    requires Injective(hash) && Exported(redact, hash, pending, events)
    ensures forall i | 0 <= i < |events| :: Linked(events, i)
    ensures Verifies(hash, events) <==> forall i | 0 <= i < |pending| :: KeptAt(redact, hash, pending, i)
  {
    forall i | 0 <= i < |pending|
      ensures Linked(events, i) && (Sound(hash, events, i) <==> KeptAt(redact, hash, pending, i))
    {
      ExportedEvent(redact, hash, pending, events, i);
    }
  }

  // When a second cleaning changes nothing

  lemma DecimalLength(n: nat)
    ensures n < 10 ==> |Decimal(n)| == 1
    ensures 10 <= n < 100 ==> |Decimal(n)| == 2
    ensures n >= 100 ==> |Decimal(n)| + 32 < n
  {
    if n >= 100 { DecimalLength(n / 10); }
  }

  lemma DecimalLast(n: nat)
    ensures Decimal(n)[|Decimal(n)| - 1] == Digit(n % 10)
    ensures n >= 10 ==> Decimal(n)[..|Decimal(n)| - 1] == Decimal(n / 10)
  {
  }

  lemma {:induction false} DecimalInjective(a: nat, b: nat)
    requires Decimal(a) == Decimal(b)
    ensures a == b
  {
    DecimalLast(a);
    DecimalLast(b);
    if a >= 10 && b >= 10 { DecimalInjective(a / 10, b / 10); }
  }

  lemma SuffixInjective(a: nat, b: nat)
    ensures Suffix(a) == Suffix(b) <==> a == b
  {
    if Suffix(a) == Suffix(b) {
      assert Suffix(a)[13..13 + |Decimal(a)|] == Decimal(a);
      assert Suffix(b)[13..13 + |Decimal(b)|] == Decimal(b);
      DecimalInjective(a, b);
    }
  }

  /** A text that fits is kept; of a longer one the beginning is, and then the number of characters left out. */
  lemma TruncatedKeeps(text: string, maxChars: nat)
    ensures |text| <= maxChars ==> Truncated(text, maxChars) == text
    ensures |text| > maxChars ==>
              Truncated(text, maxChars) ==
              text[..maxChars] + ("\n[TRUNCATED] " + Decimal(|text| - maxChars) + " characters omitted")
  {
    var marker, space := "\n" + TRUNCATION_MARKER + " ", "\n[TRUNCATED] ";
    assert marker == space;
  }

  /** Truncating a truncated text again changes it, unless the first cut left out exactly 34 characters. */
  lemma TruncatedTwice(text: string, maxChars: nat)
    ensures Truncated(Truncated(text, maxChars), maxChars) == Truncated(text, maxChars)
       <==> |text| <= maxChars || |text| == maxChars + 34
  {
    if |text| > maxChars {
      var omitted := |text| - maxChars;
      var once := Truncated(text, maxChars);
      assert once[..maxChars] == text[..maxChars] && once[maxChars..] == Suffix(omitted);
      var twice := Truncated(once, maxChars);
      assert |once| - maxChars == |Suffix(omitted)|;
      assert twice[maxChars..] == Suffix(|Suffix(omitted)|) && twice[..maxChars] == once[..maxChars];
      SuffixInjective(omitted, |Suffix(omitted)|);
      DecimalLength(omitted);
    }
  }

  /**
   When a second redaction leaves an event's cleaned texts alone, storing the event keeps its fields,
   and so its hash verifies, exactly when its redacted summary fits the limit or is 34 characters over it.
   */
  lemma KeptIff(redact: Redaction, item: Pending, sequence: nat, previous: Option<string>)
    requires var fields := HashedFields(redact, item, sequence, previous);
             redact(fields.timestamp) == fields.timestamp && redact(fields.eventType) == fields.eventType
             && redact(fields.summary) == fields.summary
    ensures var n := |redact(item.summary)|;
            Kept(redact, HashedFields(redact, item, sequence, previous))
            <==> n <= AUDIT_SUMMARY_MAX_CHARS || n == AUDIT_SUMMARY_MAX_CHARS + 34
  {
    TruncatedTwice(redact(item.summary), AUDIT_SUMMARY_MAX_CHARS);
  }

  /** An event whose summary is one character over the limit: its stored hash does not match its stored fields. */
  lemma LongSummaryDoesNotVerify(hash: Hash, item: Pending)
    requires Injective(hash) && |item.summary| == AUDIT_SUMMARY_MAX_CHARS + 1
    ensures !HashMatches(hash, EventAt(text => text, hash, [item], 0))
  {
    var redact: Redaction := text => text;
    KeptIff(redact, item, 1, None);
    assert FieldsAt(redact, hash, [item], 0) == HashedFields(redact, item, 1, None);
  }
}
