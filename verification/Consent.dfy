/** Import sessions and the append-only ledger of transfer consents.  Times are UTC microseconds. */
module Consent {
  import opened Wrappers
  import Strings
  import ObjectKeys

  datatype State = Draft | Consented | Uploaded | Validating | Finalized | Failed | Cancelled

  datatype Decision = Grant | Revoke

  datatype Error =
    | InvalidState
    | InvalidTransition
    | InvariantViolation
    | WorkspaceScopeViolation
    | DestinationMismatch
    | SessionMismatch
    | ScopeMismatch
    | NotAGrant
    | NoGrant
    | NotYetEffective
    | Expired
    | Revoked
    | ObjectScopeMismatch

  datatype Pins = Pins(workspaceId: string, sourceConnectionId: string, expectedSourceRowVersion: int,
                       expectedCurrentManifestId: Option<string>, localManifestDigest: string, fileDigest: string,
                       expectedUploadDigest: string, selectedScopeDigest: string,
                       parserVersion: string, schemaVersion: string)

  /** The form `sha256:` and 64 lower-case hexadecimal digits. */
  predicate IsDigest(s: string) {
    && |s| == 71 && "sha256:" <= s
    && forall i | 7 <= i < 71 :: Strings.IsDigit(s[i]) || 'a' <= s[i] <= 'f'
  }

  /** A digest made of one digit. */
  function DigestOf(digit: char): (digest: string)
    requires Strings.IsDigit(digit)
    ensures IsDigest(digest)
  {
    "sha256:" + seq(64, _ => digit)
  }

  /** What constructing the pins checks. */
  predicate IsPins(p: Pins) {
    && p.expectedSourceRowVersion >= 1
    && IsDigest(p.localManifestDigest) && IsDigest(p.fileDigest)
    && IsDigest(p.expectedUploadDigest) && IsDigest(p.selectedScopeDigest)
    && p.workspaceId != "" && p.sourceConnectionId != "" && p.parserVersion != "" && p.schemaVersion != ""
  }

  const SOME_PINS := Pins("w", "c", 1, None, DigestOf('1'), DigestOf('2'), DigestOf('2'), DigestOf('3'), "csv-v1",
                          "interview-import-v1")

  datatype RawSession = Session(id: string, pins: Pins, state: State, fileSizeBytes: int, mediaType: string,
                                rowVersion: int, retryable: bool, failureCode: Option<string>)

  /** What constructing a session snapshot checks. */
  predicate IsSession(s: RawSession) {
    && IsPins(s.pins)
    && s.id != "" && s.fileSizeBytes >= 0 && s.mediaType != "" && s.rowVersion >= 1
    && (s.state != Failed ==> !s.retryable)
    && (s.state == Failed ==> s.failureCode.Some? && s.failureCode.value != "")
  }

  type Session = s: RawSession | IsSession(s)
    witness RawSession.Session("i", SOME_PINS, Draft, 0, "text/csv", 1, false, None)

  datatype RawRecord = Record(id: string, workspaceId: string, sessionId: string, decision: Decision,
                              localManifestDigest: string, fileDigest: string, expectedUploadDigest: string,
                              selectedScopeDigest: string, destinationWorkspaceId: string, uploadObjectKey: string,
                              maxBytes: int, mediaType: string, actorId: string,
                              recordedAt: int, expiresAt: Option<int>, supersedesId: Option<string>)

  /** What constructing a consent record checks. */
  predicate IsRecord(r: RawRecord) {
    && r.id != "" && r.sessionId != "" && r.actorId != ""
    && IsDigest(r.localManifestDigest) && IsDigest(r.fileDigest)
    && IsDigest(r.expectedUploadDigest) && IsDigest(r.selectedScopeDigest)
    && match r.decision
       case Grant =>
         && r.expiresAt.Some? && r.expiresAt.value > r.recordedAt && r.supersedesId.None?
         && r.uploadObjectKey != "" && r.maxBytes >= 1 && r.mediaType != ""
         && ObjectKeys.RequirePayloadKey(r.workspaceId, r.sessionId, r.uploadObjectKey).Ok?
       case Revoke => r.supersedesId.Some? && r.supersedesId.value != ""
  }

  type Record = r: RawRecord | IsRecord(r)
    witness RawRecord.Record("r", "w", "i", Revoke, DigestOf('1'), DigestOf('2'), DigestOf('2'), DigestOf('3'),
                             "w", "", 0, "", "a", 0, None, Some("g"))

  datatype Effective = Effective(grant: Record, resolvedAt: int)

  datatype Upload = Upload(objectKey: string, sizeBytes: int, mediaType: string, digest: string, exists_: bool)

  // ---- Transitions

  function NormalTargets(state: State): set<State> {
    match state
    case Draft => {Consented, Cancelled}
    case Consented => {Uploaded, Failed, Cancelled}
    case Uploaded => {Validating, Failed, Cancelled}
    case Validating => {Finalized, Failed, Cancelled}
    case Failed => {Cancelled}
    case Finalized => {}
    case Cancelled => {}
  }

  function Transition(s: Session, target: State, retryable: bool, failureCode: Option<string>,
                      originalPins: Option<Pins>)
    : Result<Session, Error>
  {
    if s.state == Failed && target == Validating && !s.retryable then Err(InvalidTransition)
    else if s.state == Failed && target == Validating && originalPins.Some? && originalPins.value != s.pins
      then Err(InvariantViolation)
    else if !(s.state == Failed && target == Validating) && target !in NormalTargets(s.state)
      then Err(InvalidTransition)
    else if target == Failed && (failureCode.None? || failureCode.value == "") then Err(InvariantViolation)
    else if target != Failed && (retryable || failureCode.Some?) then Err(InvariantViolation)
    else
      Ok(s.(state := target,
            retryable := target == Failed && retryable,
            failureCode := if target == Failed then failureCode else None,
            rowVersion := s.rowVersion + 1))
  }

  // ---- Consent

  /** Why a grant does not fit a session, if it does not. */
  function Mismatch(s: Session, grant: Record): Option<Error> {
    if grant.workspaceId != s.pins.workspaceId then Some(WorkspaceScopeViolation)
    else if grant.destinationWorkspaceId != s.pins.workspaceId then Some(DestinationMismatch)
    else if grant.sessionId != s.id then Some(SessionMismatch)
    else if grant.localManifestDigest != s.pins.localManifestDigest || grant.fileDigest != s.pins.fileDigest
         || grant.expectedUploadDigest != s.pins.expectedUploadDigest
         || grant.selectedScopeDigest != s.pins.selectedScopeDigest then Some(ScopeMismatch)
    else if grant.mediaType != s.mediaType then Some(ScopeMismatch)
    else if grant.maxBytes < s.fileSizeBytes then Some(ScopeMismatch)
    else None
  }

  /** Why a grant is outside its time window, if it is. */
  function OutsideWindow(grant: Record, now: int): Option<Error>
    requires grant.decision == Grant
  {
    if grant.recordedAt > now then Some(NotYetEffective)
    else if now >= grant.expiresAt.value then Some(Expired)
    else None
  }

  function ConsentSession(s: Session, grant: Record, now: int): Result<Session, Error> {
    if s.state != Draft then Err(InvalidTransition)
    else if grant.decision != Grant then Err(NotAGrant)
    else if Mismatch(s, grant).Some? then Err(Mismatch(s, grant).value)
    else if OutsideWindow(grant, now).Some? then Err(OutsideWindow(grant, now).value)
    else Transition(s, Consented, false, None, None)
  }

  function OfSession(s: Session, ledger: seq<Record>): seq<Record> {
    if ledger == [] then []
    else (if ledger[0].sessionId == s.id then [ledger[0]] else []) + OfSession(s, ledger[1..])
  }

  function Grants(records: seq<Record>): (grants: seq<Record>)
    ensures forall g: Record | g in grants :: g.decision == Grant
  {
    if records == [] then []
    else (if records[0].decision == Grant then [records[0]] else []) + Grants(records[1..])
  }

  /** Recorded earlier, or at the same time under a smaller id. */
  predicate Earlier(a: Record, b: Record) {
    a.recordedAt < b.recordedAt || (a.recordedAt == b.recordedAt && Strings.Before(a.id, b.id))
  }

  /** The last record of a stable sort by time and id. */
  function Latest(records: seq<Record>): (latest: Record)
    requires records != []
    ensures latest in records
  {
    var last := records[|records| - 1];
    if |records| == 1 then last
    else
      var before := Latest(records[..|records| - 1]);
      if Earlier(last, before) then before else last
  }

  /** A revocation of exactly this grant, recorded no earlier than it and by now. */
  predicate Revokes(r: Record, grant: Record, now: int) {
    r.decision == Revoke && r.supersedesId == Some(grant.id) && grant.recordedAt <= r.recordedAt <= now
  }

  function Resolve(s: Session, ledger: seq<Record>, now: int): Result<Effective, Error> {
    if s.state == Draft || s.state == Finalized || s.state == Cancelled then Err(InvalidState)
    else
      var records := OfSession(s, ledger);
      if exists r: Record | r in records :: r.workspaceId != s.pins.workspaceId then Err(WorkspaceScopeViolation)
      else if Grants(records) == [] then Err(NoGrant)
      else
        var grant := Latest(Grants(records));
        if Mismatch(s, grant).Some? then Err(Mismatch(s, grant).value)
        else if OutsideWindow(grant, now).Some? then Err(OutsideWindow(grant, now).value)
        else if exists r: Record | r in records :: Revokes(r, grant, now) then Err(Revoked)
        else Ok(Effective(grant, now))
  }

  function VerifyUpload(s: Session, consent: Effective, upload: Upload): Option<Error> {
    var grant := consent.grant;
    if Mismatch(s, grant).Some? then Mismatch(s, grant)
    else if !upload.exists_ || upload.objectKey != grant.uploadObjectKey || upload.sizeBytes > grant.maxBytes
         || upload.sizeBytes != s.fileSizeBytes
         || upload.mediaType != grant.mediaType || upload.mediaType != s.mediaType
         || upload.digest != s.pins.expectedUploadDigest then Some(ObjectScopeMismatch)
    else None
  }

  function CompleteUpload(s: Session, consent: Effective, upload: Upload): Result<Session, Error> {
    if s.state != Consented then Err(InvalidTransition)
    else if VerifyUpload(s, consent, upload).Some? then Err(VerifyUpload(s, consent, upload).value)
    else Transition(s, Uploaded, false, None, None)
  }
}
