/** Audit records, the hash chain that links them, signing, and the row form
    in which they are stored (apps/audit-service/app/main.py). */
module AuditEvents {
  import opened Prelude

  /** JSON-native metadata: the values whose text form is lossless. */
  datatype Json =
    | JNull
    | JBool(b: bool)
    | JNum(n: int)
    | JStr(s: string)
    | JArr(items: seq<Json>)
    | JObj(fields: map<string, Json>)

  type Metadata = map<string, Json>

  datatype Event = Event(
    ts: int,
    tenantId: string,
    actor: string,
    action: string,
    resource: string,
    decision: string,
    metadata: Metadata,
    previousHash: Option<string>,
    eventHash: Option<string>,
    signatureKeyId: Option<string>,
    signature: Option<string>)

  /** The fields an event hash covers: everything but the hash and the signature. */
  datatype Payload = Payload(
    ts: int,
    tenantId: string,
    actor: string,
    action: string,
    resource: string,
    decision: string,
    metadata: Metadata,
    previousHash: Option<string>)

  datatype Row = Row(
    ts: int,
    tenantId: string,
    actor: string,
    action: string,
    resource: string,
    decision: string,
    metadata: string,
    previousHash: Option<string>,
    eventHash: string,
    signatureKeyId: Option<string>,
    signature: Option<string>)

  /** KeyMissing: signing is required but no private key is configured. */
  datatype Signing = Unsigned | Signed(keyId: string, sign: Event -> string) | KeyMissing

  /** What the service calls into: the hash of the canonical payload, the signer,
      the metadata codec of a row and the line codec of the disk spool. */
  datatype Config = Config(
    hash: Payload -> string,
    signing: Signing,
    dump: Metadata -> string,
    load: string -> Metadata,
    encode: Event -> string,
    decode: string -> Option<Event>,
    hasSpool: bool)

  /** Digests and signatures are non-empty text; both codecs are lossless. */
  ghost predicate Sound(cfg: Config) {
    && (forall p :: cfg.hash(p) != "")
    && (cfg.signing.Signed? ==> forall e :: cfg.signing.sign(e) != "")
    && (forall m :: cfg.dump(m) != "" && cfg.load(cfg.dump(m)) == m)
    && (forall e :: cfg.decode(cfg.encode(e)) == Some(e))
  }

  function PayloadOf(e: Event): Payload {
    Payload(e.ts, e.tenantId, e.actor, e.action, e.resource, e.decision, e.metadata, e.previousHash)
  }

  // ---------------------------------------------------------------- preparing

  function ChainEvent(cfg: Config, head: Option<string>, e: Event): Event {
    var linked := e.(previousHash := head, eventHash := None);
    linked.(eventHash := Some(cfg.hash(PayloadOf(linked))))
  }

  /** The new chain head and the event, chained unless it already carries a hash. */
  function EnsureChained(cfg: Config, head: Option<string>, e: Event): (Option<string>, Event) {
    if Truthy(e.eventHash) then (head, e)
    else
      var chained := ChainEvent(cfg, head, e);
      (chained.eventHash, chained)
  }

  /** None stands for the RuntimeError raised when the signing key is missing. */
  function SignEvent(cfg: Config, e: Event): Option<Event> {
    if Truthy(e.signature) then Some(e)
    else
      match cfg.signing
      case Unsigned => Some(e)
      case KeyMissing => None
      case Signed(keyId, sign) =>
        var bare := e.(signatureKeyId := None, signature := None);
        Some(e.(signatureKeyId := Some(keyId), signature := Some(sign(bare))))
  }

  function PrepareEvent(cfg: Config, head: Option<string>, e: Event): (Option<string>, Option<Event>) {
    var (head', chained) := EnsureChained(cfg, head, e);
    (head', SignEvent(cfg, chained))
  }

  /** An event that has been through PrepareEvent. */
  ghost predicate Prepared(cfg: Config, e: Event) {
    Truthy(e.eventHash) && SignEvent(cfg, e) == Some(e)
  }

  /** Preparing always yields a prepared event, and preparing a prepared event
      again changes neither the event nor the chain head. */
  lemma PreparingIsStable(cfg: Config, head: Option<string>, e: Event, later: Option<string>)
    requires Sound(cfg)
    ensures var (_, r) := PrepareEvent(cfg, head, e);
            r.Some? ==> Prepared(cfg, r.value) && PrepareEvent(cfg, later, r.value) == (later, r)
  {
    var (_, chained) := EnsureChained(cfg, head, e);
    assert Truthy(chained.eventHash);
  }

  /** What preparing does to an event, field by field: the recorded facts are left
      alone; an event without a hash is linked to the head and becomes the head, one
      with a hash moves nothing; and a signature is added exactly when there is none
      and a key is configured, under the key's id and over the chained event without
      signature fields. Only a missing key refuses, and only an unsigned event. */
  lemma PreparingKeepsTheFacts(cfg: Config, head: Option<string>, e: Event)
    requires Sound(cfg)
    ensures var (head', r) := PrepareEvent(cfg, head, e);
            && (r.None? <==> cfg.signing.KeyMissing? && (e.signature.None? || e.signature.value == ""))
            && (Truthy(e.eventHash) ==> head' == head)
            && (r.Some? ==>
                  var x := r.value;
                  && x.ts == e.ts && x.tenantId == e.tenantId && x.actor == e.actor && x.action == e.action
                  && x.resource == e.resource && x.decision == e.decision && x.metadata == e.metadata
                  && (if Truthy(e.eventHash) then x.previousHash == e.previousHash && x.eventHash == e.eventHash
                      else x.previousHash == head && x.eventHash == head' && head'.Some?)
                  && (if Truthy(e.signature) || !cfg.signing.Signed?
                      then x.signature == e.signature && x.signatureKeyId == e.signatureKeyId
                      else
                        var bare := Event(e.ts, e.tenantId, e.actor, e.action, e.resource, e.decision, e.metadata,
                                          x.previousHash, x.eventHash, None, None);
                        x.signatureKeyId == Some(cfg.signing.keyId) && x.signature == Some(cfg.signing.sign(bare))))
  {
  }

  // ---------------------------------------------------------------- rows

  function RowOf(cfg: Config, e: Event): Row {
    Row(e.ts, e.tenantId, e.actor, e.action, e.resource, e.decision, cfg.dump(e.metadata),
        e.previousHash, if e.eventHash.Some? then e.eventHash.value else "",
        e.signatureKeyId, e.signature)
  }

  function EventFromRow(cfg: Config, r: Row): Event {
    Event(r.ts, r.tenantId, r.actor, r.action, r.resource, r.decision,
          if r.metadata != "" then cfg.load(r.metadata) else map[],
          r.previousHash, Some(r.eventHash), r.signatureKeyId, r.signature)
  }

  /** The row round trip loses nothing exactly when the event carries a hash. */
  lemma RowRoundTrip(cfg: Config, e: Event)
    requires Sound(cfg)
    ensures EventFromRow(cfg, RowOf(cfg, e)) == e <==> e.eventHash.Some?
  {
    assert cfg.load(cfg.dump(e.metadata)) == e.metadata;
  }

  /** Each column holds the field it is named after. */
  lemma RowHoldsTheEvent(cfg: Config, e: Event)
    requires Sound(cfg) && e.eventHash.Some?
    ensures var row := RowOf(cfg, e);
            && row.ts == e.ts && row.tenantId == e.tenantId && row.actor == e.actor && row.action == e.action
            && row.resource == e.resource && row.decision == e.decision && cfg.load(row.metadata) == e.metadata
            && row.previousHash == e.previousHash && Some(row.eventHash) == e.eventHash
            && row.signatureKeyId == e.signatureKeyId && row.signature == e.signature
  {
  }

  function RowsOf(cfg: Config, events: seq<Event>): (rows: seq<Row>)
    ensures |rows| == |events|
  {
    seq(|events|, i requires 0 <= i < |events| => RowOf(cfg, events[i]))
  }

  function EventsOf(cfg: Config, rows: seq<Row>): (events: seq<Event>)
    ensures |events| == |rows|
  {
    seq(|rows|, i requires 0 <= i < |rows| => EventFromRow(cfg, rows[i]))
  }

  ghost predicate AllPrepared(cfg: Config, events: seq<Event>) {
    forall e :: e in events ==> Prepared(cfg, e)
  }

  lemma RowsRoundTrip(cfg: Config, events: seq<Event>)
    requires Sound(cfg) && AllPrepared(cfg, events)
    ensures EventsOf(cfg, RowsOf(cfg, events)) == events
  {
    forall i | 0 <= i < |events|
      ensures EventFromRow(cfg, RowOf(cfg, events[i])) == events[i]
    {
      assert Prepared(cfg, events[i]);
      RowRoundTrip(cfg, events[i]);
    }
  }

  // ---------------------------------------------------------------- the chain

  /** One linear chain: the first link is None, every later link is the hash of
      the predecessor, and every hash is the hash of its own payload. */
  ghost predicate Linear(cfg: Config, log: seq<Event>) {
    log == [] ||
    var n := |log| - 1;
    && log[n].previousHash == HeadOf(log[..n])
    && log[n].eventHash == Some(cfg.hash(PayloadOf(log[n])))
    && Linear(cfg, log[..n])
  }

  function HeadOf(log: seq<Event>): Option<string> {
    if log == [] then None else log[|log| - 1].eventHash
  }

  ghost predicate Injective(cfg: Config) {
    forall p, q :: cfg.hash(p) == cfg.hash(q) ==> p == q
  }

  /** Chaining onto the head extends a linear chain. */
  lemma LinearExtend(cfg: Config, log: seq<Event>, e: Event)
    requires Linear(cfg, log)
    ensures Linear(cfg, log + [ChainEvent(cfg, HeadOf(log), e)])
  {
    var next := ChainEvent(cfg, HeadOf(log), e);
    assert PayloadOf(next) == PayloadOf(e.(previousHash := HeadOf(log), eventHash := None));
    assert (log + [next])[..|log|] == log;
  }

  /** The chain read link by link. */
  lemma {:induction false} LinearLinks(cfg: Config, log: seq<Event>, i: nat)
    requires Linear(cfg, log) && i < |log|
    ensures Linear(cfg, log[..i + 1])
    ensures log[i].previousHash == if i == 0 then None else log[i - 1].eventHash
    ensures log[i].eventHash
            == Some(cfg.hash(Payload(log[i].ts, log[i].tenantId, log[i].actor, log[i].action, log[i].resource,
                                     log[i].decision, log[i].metadata, log[i].previousHash)))
    decreases |log|
  {
    var n := |log| - 1;
    if i < n {
      LinearLinks(cfg, log[..n], i);
      assert log[..n][..i + 1] == log[..i + 1];
    } else {
      assert log[..i + 1] == log;
    }
  }

  /** Everything an audit record says, and where it stands in the chain. */
  predicate SameFacts(a: Event, b: Event) {
    && a.ts == b.ts && a.tenantId == b.tenantId && a.actor == b.actor && a.action == b.action
    && a.resource == b.resource && a.decision == b.decision && a.metadata == b.metadata
    && a.previousHash == b.previousHash
  }

  /** With a collision-free hash the hash of a chained event fixes all its facts. */
  lemma EqualHashesEqualFacts(cfg: Config, head: Option<string>, a: Event, head': Option<string>, b: Event)
    requires Injective(cfg) && ChainEvent(cfg, head, a).eventHash == ChainEvent(cfg, head', b).eventHash
    ensures head == head'
    ensures a.ts == b.ts && a.tenantId == b.tenantId && a.actor == b.actor && a.action == b.action
    ensures a.resource == b.resource && a.decision == b.decision && a.metadata == b.metadata
  {
  }

  /** Tamper evidence: with a collision-free hash, the last hash fixes the whole
      history, its length and every fact in it. */
  lemma {:induction false} LastHashFixesHistory(cfg: Config, a: seq<Event>, b: seq<Event>)
    requires Injective(cfg) && Linear(cfg, a) && Linear(cfg, b)
    requires a != [] && b != [] && HeadOf(a) == HeadOf(b)
    ensures |a| == |b|
    ensures forall i :: 0 <= i < |a| ==>
              && a[i].ts == b[i].ts && a[i].tenantId == b[i].tenantId && a[i].actor == b[i].actor
              && a[i].action == b[i].action && a[i].resource == b[i].resource && a[i].decision == b[i].decision
              && a[i].metadata == b[i].metadata && a[i].previousHash == b[i].previousHash
              && a[i].eventHash == b[i].eventHash
    decreases |a|
  {
    var m, n := |a| - 1, |b| - 1;
    assert PayloadOf(a[m]) == PayloadOf(b[n]);
    assert SameFacts(a[m], b[n]) && a[m].eventHash == b[n].eventHash;
    var a', b' := a[..m], b[..n];
    assert HeadOf(a') == HeadOf(b');
    if m > 0 && n > 0 {
      LastHashFixesHistory(cfg, a', b');
      forall i | 0 <= i < |a| ensures SameFacts(a[i], b[i]) && a[i].eventHash == b[i].eventHash {
        if i < m {
          assert SameFacts(a'[i], b'[i]) && a'[i].eventHash == b'[i].eventHash;
        }
      }
    }
  }

  /** No two events of one chain share a hash. */
  lemma HashesDistinct(cfg: Config, log: seq<Event>, i: nat, j: nat)
    requires Injective(cfg) && Linear(cfg, log) && i < j < |log|
    ensures log[i].eventHash != log[j].eventHash
  {
    LinearLinks(cfg, log, i);
    LinearLinks(cfg, log, j);
    if log[i].eventHash == log[j].eventHash {
      LastHashFixesHistory(cfg, log[..i + 1], log[..j + 1]);
    }
  }
}
