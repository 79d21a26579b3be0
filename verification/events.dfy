/** Values of the offline federation: payloads, events and the receiver's configuration. */
module Events {
  import opened Prelude

  /** What `loads_strict` can yield: floats and duplicate keys are refused there. */
  datatype Json =
    | Null
    | Bool(truth: bool)
    | Number(n: int)
    | Text(s: string)
    | List(items: seq<Json>)
    | Object(fields: map<string, Json>)

  /** Payload bytes, whether they are control-free UTF-8 text, and what parsing them yields. */
  datatype Payload = Payload(raw: seq<bv8>, isText: bool, json: Option<Json>)

  /** SHA-256 taken as an injective function of what is hashed. */
  datatype Digest = Sha256(preimage: Payload)

  /** One position in one generation of one replica's log. */
  datatype Slot = Slot(replicaId: string, generation: string, seqNo: nat)

  datatype MediaType = ApplicationJson | TextMarkdown | TextPlain

  datatype Event = Event(
    id: string,
    kind: string,
    subject: string,
    realmId: string,
    slot: Slot,
    parents: seq<string>,
    authority: Option<string>,
    payloadRef: string,
    payloadSha: Digest,
    mediaType: MediaType,
    fabricClass: string,
    correctionOf: Option<string>,
    withdraws: Option<string>,
    claims: string)  // the remaining claimed fields, which nothing branches on

  /** The domain-separated digest of an event, injective like the hash under it. */
  datatype CoreDigest = CoreDigest(core: Event)

  datatype Config = Config(
    realmId: string,
    allowedKinds: set<string>,
    authorityKinds: set<string>,
    allowedAuthorities: set<string>,
    maxPayloadBytes: nat)

  datatype Code =
    | PayloadTooLarge
    | PayloadBinaryUnsupported
    | PayloadIntegrityFailed
    | PayloadMediaMismatch
    | EventKindNotAllowed
    | AuthorityNotAllowed
    | DeliveryIdInvalid
    | EventNotFound
    | EventIndexMismatch
    | StoredEventIntegrityFailed
    | PayloadUnreadable
    | EventContentCollision
    | ReplicaSequenceCollision
    | DuplicateContentCollision
    | ImmutableFileExists
    | FileUnreadable
    | CausalCycle
    | PendingDependencies
    | MissingParentNotAdvertised
    | ObservationContentCollision
    | ConflictContentCollision
    | ConflictPayloadInvalid
    | AuthorityScopeMismatch
    | ConflictNotFound
    | ResolutionSubjectMismatch
    | ResolutionAuthorityUnverified
    | ResolutionPayloadInvalid
    | ConflictMembersIncomplete
    | ResolutionSelectionInvalid
    | ResolutionParentsIncomplete
    | ResolutionContentCollision
    | ProjectionPayloadInvalid
    | ProjectionFieldInvalid

  function Suffix(media: MediaType): string {
    match media
    case ApplicationJson => ".json"
    case TextMarkdown => ".md"
    case TextPlain => ".txt"
  }

  predicate EndsWith(s: string, suffix: string) {
    |suffix| <= |s| && s[|s| - |suffix|..] == suffix
  }

  /** `_validate_submission`: the first objection a receiver raises, if any. */
  function Objection(config: Config, event: Event, payload: Payload): (code: Option<Code>)
    ensures code == None <==>
      && |payload.raw| <= config.maxPayloadBytes && payload.isText && Sha256(payload) == event.payloadSha
      && EndsWith(event.payloadRef, Suffix(event.mediaType)) && event.kind in config.allowedKinds
      && (event.authority.Some? ==> event.authority.value in config.allowedAuthorities)
      && (event.kind in config.authorityKinds ==> event.authority.Some?)
  {
    if |payload.raw| > config.maxPayloadBytes then Some(PayloadTooLarge)
    else if !payload.isText then Some(PayloadBinaryUnsupported)
    else if Sha256(payload) != event.payloadSha then Some(PayloadIntegrityFailed)
    else if !EndsWith(event.payloadRef, Suffix(event.mediaType)) then Some(PayloadMediaMismatch)
    else if event.kind !in config.allowedKinds then Some(EventKindNotAllowed)
    else if event.kind in config.authorityKinds then
      if event.authority.Some? && event.authority.value in config.allowedAuthorities then None
      else Some(AuthorityNotAllowed)
    else if event.authority.Some? && event.authority.value !in config.allowedAuthorities then Some(AuthorityNotAllowed)
    else None
  }
}
