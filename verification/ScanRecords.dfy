/** Validating one event file, and rebuilding the validated record from a cached payload. */
module ScanRecords {
  import opened Results
  import opened Git

  datatype Phase = Active | LegacyReadOnly | DefinedInactive | PhaseDisabled

  datatype Registration = Registration(envelopeSchema: string, domain: string, role: string, phase: Phase, foldEligible: bool)

  datatype Registry = Registry(canonicalization: string, hashAlg: string, roles: seq<Registration>)

  /** The parsed envelope; `body` is None when it is not an object, and `rest` stands for the other members. */
  datatype Envelope = Envelope(schema: string, canonicalization: string, hashAlg: string, eventId: string, bodyHash: string,
                               body: Option<string>, rest: string)

  datatype Validated = Validated(envelope: Envelope, body: string, registration: Registration, eventId: string, bodyHash: string,
                                 envelopeHash: string, relativePath: Path)

  datatype ScanError = EnvelopeInvalid | SchemaUnknown | HashMetadataMismatch | HashMismatch | BodyShapeMismatch | PathMismatch
                     | NonRegular | EventTooLarge | EventDuplicate

  /** JSON, the digests and the body contracts, as one version of the validator has them. */
  datatype Rules = Rules(parse: string -> Option<Envelope>, stringify: Envelope -> string, bodyDigest: string -> string,
                         envelopeDigest: Envelope -> string, bodyOk: (Registration, string) -> bool)

  /** Writing out a parsed envelope and reading it again keeps its strings and its shape, though not every number in
      it (-0 comes back as 0); the envelope digest is a SHA-256 in hex. */
  ghost predicate JsonOk(rules: Rules) {
    && (forall raw | rules.parse(raw).Some? :: KeepsStrings(rules, rules.parse(raw).value))
    && (forall e :: IsSha256(rules.envelopeDigest(e)))
  }

  predicate KeepsStrings(rules: Rules, e: Envelope) {
    var back := rules.parse(rules.stringify(e));
    && back.Some? && (back.value.body.Some? <==> e.body.Some?)
    && back.value.schema == e.schema && back.value.canonicalization == e.canonicalization && back.value.hashAlg == e.hashAlg
    && back.value.eventId == e.eventId && back.value.bodyHash == e.bodyHash
  }

  /** This envelope survives JSON.stringify and JSON.parse, numbers included. */
  predicate RoundTrips(rules: Rules, e: Envelope) {
    rules.parse(rules.stringify(e)) == Some(e)
  }

  predicate IsHex(c: char) { '0' <= c <= '9' || 'a' <= c <= 'f' }

  predicate IsSha256(s: string) { |s| == 64 && forall i | 0 <= i < |s| :: IsHex(s[i]) }

  function ExpectedL1EventRelativePath(eventId: string): Path
    requires IsSha256(eventId)
  {
    "l1/events/sha256/" + eventId[..2] + "/" + eventId[2..4] + "/" + eventId + ".json"
  }

  function Matches(roles: seq<Registration>, schema: string): seq<Registration> {
    if |roles| == 0 then []
    else (if roles[0].envelopeSchema == schema then [roles[0]] else []) + Matches(roles[1..], schema)
  }

  lemma {:induction false} MatchesHave(roles: seq<Registration>, schema: string)
    ensures forall i | 0 <= i < |Matches(roles, schema)| :: Matches(roles, schema)[i].envelopeSchema == schema
  {
    if |roles| > 0 { MatchesHave(roles[1..], schema); }
  }

  /** `resolveL1EnvelopeSchema`. */
  function Resolve(registry: Registry, schema: string): Option<Registration> {
    var found := Matches(registry.roles, schema);
    if |found| == 1 then Some(found[0]) else None
  }

  /** `validateL1Envelope` on the bytes of a file. */
  function Validate(rules: Rules, registry: Registry, raw: string, relativePath: Path): Result<Validated, ScanError> {
    var parsed := rules.parse(raw);
    if parsed.None? then Err(EnvelopeInvalid)
    else
      var e := parsed.value;
      var registration := Resolve(registry, e.schema);
      if e.schema == "" then Err(EnvelopeInvalid)
      else if registration.None? then Err(SchemaUnknown)
      else if e.canonicalization != registry.canonicalization || e.hashAlg != registry.hashAlg then Err(HashMetadataMismatch)
      else if !IsSha256(e.eventId) || !IsSha256(e.bodyHash) || e.eventId != e.bodyHash then Err(HashMismatch)
      else if e.body.None? then Err(EnvelopeInvalid)
      else if rules.bodyDigest(e.body.value) != e.bodyHash then Err(HashMismatch)
      else if !rules.bodyOk(registration.value, e.body.value) then Err(BodyShapeMismatch)
      else if relativePath != ExpectedL1EventRelativePath(e.eventId) then Err(PathMismatch)
      else Ok(Validated(e, e.body.value, registration.value, e.eventId, e.bodyHash, rules.envelopeDigest(e), relativePath))
  }

  /** `role` is the one registration of its schema. */
  ghost predicate OnlyRole(registry: Registry, schema: string, role: Registration) {
    exists i | 0 <= i < |registry.roles| ::
      && registry.roles[i] == role && role.envelopeSchema == schema
      && forall j | 0 <= j < |registry.roles| && j != i :: registry.roles[j].envelopeSchema != schema
  }

  /** A file is valid when it holds an envelope of a schema registered once, whose id is the digest of its body and
      names the path of the file. */
  ghost predicate ValidFile(rules: Rules, registry: Registry, raw: string, relativePath: Path, e: Envelope, role: Registration) {
    && rules.parse(raw) == Some(e) && e.schema != "" && OnlyRole(registry, e.schema, role)
    && e.canonicalization == registry.canonicalization && e.hashAlg == registry.hashAlg
    && |e.eventId| == 64 && (forall c | c in e.eventId :: '0' <= c <= '9' || 'a' <= c <= 'f') && e.bodyHash == e.eventId
    && e.body.Some? && rules.bodyDigest(e.body.value) == e.eventId && rules.bodyOk(role, e.body.value)
    && relativePath == "l1/events/sha256/" + e.eventId[..2] + "/" + e.eventId[2..4] + "/" + e.eventId + ".json"
  }

  /** Validation accepts exactly the valid files, and the record is the envelope's own. */
  lemma ValidatesExactly(rules: Rules, registry: Registry, raw: string, relativePath: Path)
    ensures Validate(rules, registry, raw, relativePath).Ok? <==>
            exists e, role :: ValidFile(rules, registry, raw, relativePath, e, role)
    ensures Validate(rules, registry, raw, relativePath).Ok? ==>
              var v := Validate(rules, registry, raw, relativePath).value;
              && ValidFile(rules, registry, raw, relativePath, v.envelope, v.registration)
              && Some(v.body) == v.envelope.body && v.eventId == v.bodyHash == v.envelope.eventId && v.relativePath == relativePath
  {
    var v := Validate(rules, registry, raw, relativePath);
    if v.Ok? {
      ResolvesOnly(registry, v.value.envelope.schema, v.value.registration);
      assert ValidFile(rules, registry, raw, relativePath, v.value.envelope, v.value.registration);
    }
    if e, role :| ValidFile(rules, registry, raw, relativePath, e, role) {
      ResolvesOnly(registry, e.schema, role);
      assert forall i | 0 <= i < 64 :: e.eventId[i] in e.eventId;
      assert IsSha256(e.eventId);
    }
  }

  lemma ResolvesOnly(registry: Registry, schema: string, role: Registration)
    ensures Resolve(registry, schema) == Some(role) <==> OnlyRole(registry, schema, role)
  {
    if i :| 0 <= i < |registry.roles| && registry.roles[i] == role && role.envelopeSchema == schema
            && forall j | 0 <= j < |registry.roles| && j != i :: registry.roles[j].envelopeSchema != schema {
      OneMatch(registry.roles, schema, i);
    }
    if Resolve(registry, schema) == Some(role) { MatchedOnce(registry.roles, schema, role); }
  }

  lemma {:induction false} NoMatch(roles: seq<Registration>, schema: string)
    requires forall j | 0 <= j < |roles| :: roles[j].envelopeSchema != schema
    ensures Matches(roles, schema) == []
  {
    if |roles| > 0 { NoMatch(roles[1..], schema); }
  }

  lemma {:induction false} OneMatch(roles: seq<Registration>, schema: string, i: nat)
    requires i < |roles| && roles[i].envelopeSchema == schema
    requires forall j | 0 <= j < |roles| && j != i :: roles[j].envelopeSchema != schema
    ensures Matches(roles, schema) == [roles[i]]
  {
    if i == 0 { NoMatch(roles[1..], schema); } else { OneMatch(roles[1..], schema, i - 1); }
  }

  lemma {:induction false} MatchedOnce(roles: seq<Registration>, schema: string, role: Registration)
    requires Matches(roles, schema) == [role]
    ensures exists i | 0 <= i < |roles| :: roles[i] == role && role.envelopeSchema == schema
              && forall j | 0 <= j < |roles| && j != i :: roles[j].envelopeSchema != schema
  {
    if roles[0].envelopeSchema == schema {
      assert Matches(roles, schema) == [roles[0]] + Matches(roles[1..], schema);
      assert Matches(roles, schema)[0] == roles[0] && |Matches(roles[1..], schema)| == 0;
      NoneMatched(roles[1..], schema);
    } else {
      MatchedOnce(roles[1..], schema, role);
      var i :| 0 <= i < |roles| - 1 && roles[1..][i] == role
               && forall j | 0 <= j < |roles| - 1 && j != i :: roles[1..][j].envelopeSchema != schema;
      assert roles[i + 1] == role;
      forall j | 0 <= j < |roles| && j != i + 1 ensures roles[j].envelopeSchema != schema {
        if j > 0 { assert roles[j] == roles[1..][j - 1]; }
      }
    }
  }

  lemma {:induction false} NoneMatched(roles: seq<Registration>, schema: string)
    requires Matches(roles, schema) == []
    ensures forall j | 0 <= j < |roles| :: roles[j].envelopeSchema != schema
  {
    if |roles| > 0 {
      NoneMatched(roles[1..], schema);
      forall j | 0 <= j < |roles| ensures roles[j].envelopeSchema != schema {
        if j > 0 { assert roles[j] == roles[1..][j - 1]; }
      }
    }
  }

  datatype Payload = Payload(relativePath: Path, eventId: string, bodyHash: string, envelopeHash: string, envelopeSchema: string, envelopeJson: string)

  /** `payloadFromValidatedEnvelope`. */
  function PayloadOf(rules: Rules, v: Validated): Payload {
    Payload(v.relativePath, v.eventId, v.bodyHash, v.envelopeHash, v.registration.envelopeSchema, rules.stringify(v.envelope))
  }

  /** `reconstructValidatedFromCache`: no digest is recomputed. */
  function Reconstruct(rules: Rules, registry: Registry, payload: Payload, relativePath: Path): Option<Validated> {
    var parsed := rules.parse(payload.envelopeJson);
    if parsed.None? then None
    else
      var e := parsed.value;
      if e.schema != payload.envelopeSchema || e.canonicalization != registry.canonicalization || e.hashAlg != registry.hashAlg then None
      else if e.eventId != payload.eventId || e.bodyHash != payload.bodyHash || e.body.None? then None
      else if !IsSha256(payload.eventId) || !IsSha256(payload.bodyHash) || !IsSha256(payload.envelopeHash) then None
      else if payload.eventId != payload.bodyHash then None
      else if relativePath != ExpectedL1EventRelativePath(payload.eventId) || payload.relativePath != relativePath then None
      else
        var registration := Resolve(registry, payload.envelopeSchema);
        if registration.None? || registration.value.envelopeSchema != payload.envelopeSchema then None
        else Some(Validated(e, e.body.value, registration.value, payload.eventId, payload.bodyHash, payload.envelopeHash, relativePath))
  }

  /** The record with its envelope written out and read again. */
  function ReadBack(rules: Rules, v: Validated): Validated {
    match rules.parse(rules.stringify(v.envelope))
    case Some(e) => if e.body.Some? then v.(envelope := e, body := e.body.value) else v
    case None => v
  }

  /** The payload of a validated file rebuilds the record that validation gave, read back; that is the record itself
      exactly when its envelope round-trips. */
  lemma ReconstructReadsBack(rules: Rules, registry: Registry, raw: string, relativePath: Path)
    requires JsonOk(rules) && Validate(rules, registry, raw, relativePath).Ok?
    ensures var v := Validate(rules, registry, raw, relativePath).value;
            && Reconstruct(rules, registry, PayloadOf(rules, v), relativePath) == Some(ReadBack(rules, v))
            && (ReadBack(rules, v) == v <==> RoundTrips(rules, v.envelope))
  {
    var v := Validate(rules, registry, raw, relativePath).value;
    MatchesHave(registry.roles, v.envelope.schema);
    assert KeepsStrings(rules, v.envelope);
  }

  // ---------- classification ----------

  datatype Classification = Selected | ForeignSkip | LegacyRecord | DisabledShadow | InactiveShadow

  datatype Filter = Filter(domains: seq<string>, roles: seq<string>)

  /** `classifyScanRecord`: by the live filter, never from the cache. */
  function Classify(registration: Registration, filter: Filter): Classification {
    match registration.phase
    case PhaseDisabled => DisabledShadow
    case DefinedInactive => InactiveShadow
    case LegacyReadOnly => LegacyRecord
    case Active =>
      if (filter.domains == [] || registration.domain in filter.domains) && (filter.roles == [] || registration.role in filter.roles)
      then Selected else ForeignSkip
  }

  /** A record is selected exactly when its role is active and passes both filters, where an empty filter passes all;
      an active role that does not is foreign, and every other phase has its own class. */
  predicate ClassedBy(c: Classification, role: Registration, filter: Filter) {
    && (c == Selected <==> role.phase.Active? && (|filter.domains| == 0 || role.domain in filter.domains)
                           && (|filter.roles| == 0 || role.role in filter.roles))
    && (c == ForeignSkip <==> role.phase.Active? && ((|filter.domains| > 0 && role.domain !in filter.domains)
                                                     || (|filter.roles| > 0 && role.role !in filter.roles)))
    && (c == LegacyRecord <==> role.phase.LegacyReadOnly?)
    && (c == InactiveShadow <==> role.phase.DefinedInactive?)
    && (c == DisabledShadow <==> role.phase.PhaseDisabled?)
  }

  datatype ScanRecord = ScanRecord(validated: Validated, classification: Classification)
}
