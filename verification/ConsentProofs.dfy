/** What the ledger authorises, over every ledger, order and time. */
module ConsentProofs {
  import opened Wrappers
  import Strings
  import ObjectKeys
  import opened Consent

  ghost predicate DistinctIds(ledger: seq<Record>) {
    forall a: Record, b: Record | a in ledger && b in ledger && a.id == b.id :: a == b
  }

  /** A grant of this session in the ledger. */
  predicate IsGrantOf(s: Session, ledger: seq<Record>, g: Record) {
    g in ledger && g.sessionId == s.id && g.decision == Grant
  }

  lemma {:induction false} OfSessionMembers(s: Session, ledger: seq<Record>)
    ensures forall r: Record :: r in OfSession(s, ledger) <==> r in ledger && r.sessionId == s.id
  {
    if ledger != [] {
      OfSessionMembers(s, ledger[1..]);
      assert ledger == [ledger[0]] + ledger[1..];
    }
  }

  lemma {:induction false} GrantsMembers(records: seq<Record>)
    ensures forall r: Record :: r in Grants(records) <==> r in records && r.decision == Grant
  {
    if records != [] {
      GrantsMembers(records[1..]);
      assert records == [records[0]] + records[1..];
    }
  }

  lemma EarlierIsTransitive(a: Record, b: Record, c: Record)
    requires Earlier(a, b) && Earlier(b, c)
    ensures Earlier(a, c)
  {
    if a.recordedAt == b.recordedAt == c.recordedAt {
      Strings.BeforeIsTransitive(a.id, b.id, c.id);
    }
  }

  lemma EarlierIsStrict(a: Record, b: Record)
    ensures !Earlier(a, a)
    ensures a.id != b.id ==> Earlier(a, b) || Earlier(b, a)
    ensures !(Earlier(a, b) && Earlier(b, a))
  {
    Strings.BeforeIsIrreflexive(a.id);
    Strings.BeforeIsTotal(a.id, b.id);
    if Earlier(a, b) && Earlier(b, a) {
      EarlierIsTransitive(a, b, a);
    }
  }

  lemma PickIsMaximal(before: Record, last: Record, r: Record)
    requires r == last || !Earlier(before, r)
    ensures !Earlier(if Earlier(last, before) then before else last, r)
  {
    EarlierIsStrict(last, before);
    if !Earlier(last, before) && Earlier(last, r) {
      NotEarlierChains(before, last, r);
    }
  }

  /** No record is later than the latest. */
  lemma {:induction false} LatestIsMaximal(records: seq<Record>)
    requires records != []
    ensures forall r: Record | r in records :: !Earlier(Latest(records), r)
  {
    hide Earlier;
    var n := |records| - 1;
    var last := records[n];
    EarlierIsStrict(last, last);
    if n > 0 {
      LatestIsMaximal(records[..n]);
      LatestWithLast(records[..n], last);
      assert records == records[..n] + [last];
    }
  }

  lemma LatestWithLast(records: seq<Record>, last: Record)
    requires records != [] && forall r: Record | r in records :: !Earlier(Latest(records), r)
    ensures forall r: Record | r in records + [last] :: !Earlier(Latest(records + [last]), r)
  {
    assert (records + [last])[..|records|] == records;
    var before := Latest(records);
    assert Latest(records + [last]) == if Earlier(last, before) then before else last;
    hide Earlier, Latest;
    forall r: Record | r in records + [last]
      ensures !Earlier(Latest(records + [last]), r)
    {
      PickIsMaximal(before, last, r);
    }
  }

  lemma NotEarlierChains(a: Record, b: Record, c: Record)
    requires !Earlier(b, a) && Earlier(b, c)
    ensures Earlier(a, c)
  {
    Strings.BeforeIsTotal(a.id, b.id);
    if a.recordedAt == b.recordedAt == c.recordedAt && Strings.Before(a.id, b.id) {
      Strings.BeforeIsTransitive(a.id, b.id, c.id);
    }
  }

  /** The grant no other grant of the session is later than. */
  ghost predicate IsLatestGrant(s: Session, ledger: seq<Record>, g: Record) {
    IsGrantOf(s, ledger, g) && forall h: Record | IsGrantOf(s, ledger, h) :: !Earlier(g, h)
  }

  lemma LatestGrantIsUnique(s: Session, ledger: seq<Record>, g: Record, h: Record)
    requires DistinctIds(ledger) && IsLatestGrant(s, ledger, g) && IsLatestGrant(s, ledger, h)
    ensures g == h
  {
    EarlierIsStrict(g, h);
  }

  lemma ResolvedGrants(s: Session, ledger: seq<Record>)
    ensures Grants(OfSession(s, ledger)) == [] <==> forall g: Record :: !IsGrantOf(s, ledger, g)
    ensures Grants(OfSession(s, ledger)) != [] ==> IsLatestGrant(s, ledger, Latest(Grants(OfSession(s, ledger))))
  {
    OfSessionMembers(s, ledger);
    GrantsMembers(OfSession(s, ledger));
    var grants := Grants(OfSession(s, ledger));
    assert forall g: Record :: g in grants <==> IsGrantOf(s, ledger, g);
    if grants != [] {
      LatestIsMaximal(grants);
      assert grants[0] in grants;
    }
  }

  ghost predicate IsRevoked(s: Session, ledger: seq<Record>, g: Record, now: int) {
    exists r: Record :: r in ledger && r.sessionId == s.id
      && r.decision == Revoke && r.supersedesId == Some(g.id) && g.recordedAt <= r.recordedAt <= now
  }

  /** The grant is for this workspace, session, payload and scope, and large enough. */
  predicate Fits(s: Session, g: Record) {
    && g.workspaceId == s.pins.workspaceId && g.destinationWorkspaceId == s.pins.workspaceId
    && g.sessionId == s.id
    && g.localManifestDigest == s.pins.localManifestDigest && g.fileDigest == s.pins.fileDigest
    && g.expectedUploadDigest == s.pins.expectedUploadDigest && g.selectedScopeDigest == s.pins.selectedScopeDigest
    && g.mediaType == s.mediaType && s.fileSizeBytes <= g.maxBytes
  }

  /** A grant is refused for the first of these it breaks: workspace, destination, session, and then scope. */
  lemma MismatchIff(s: Session, g: Record)
    ensures Mismatch(s, g).None? <==> Fits(s, g)
    ensures Mismatch(s, g) == Some(WorkspaceScopeViolation) <==> g.workspaceId != s.pins.workspaceId
    ensures Mismatch(s, g) == Some(DestinationMismatch) <==>
            g.workspaceId == s.pins.workspaceId != g.destinationWorkspaceId
    ensures Mismatch(s, g) == Some(SessionMismatch) <==>
            g.workspaceId == s.pins.workspaceId == g.destinationWorkspaceId && g.sessionId != s.id
    ensures Mismatch(s, g) == Some(ScopeMismatch) <==>
            && g.workspaceId == s.pins.workspaceId == g.destinationWorkspaceId && g.sessionId == s.id && !Fits(s, g)
  {
  }

  /** Everything an authorisation takes. */
  ghost predicate IsAuthorised(s: Session, ledger: seq<Record>, g: Record, now: int) {
    && s.state != Draft && s.state != Finalized && s.state != Cancelled
    && (forall r: Record | r in ledger && r.sessionId == s.id :: r.workspaceId == s.pins.workspaceId)
    && IsLatestGrant(s, ledger, g) && Fits(s, g)
    && g.recordedAt <= now < g.expiresAt.value && !IsRevoked(s, ledger, g, now)
  }

  /** The resolver authorises a grant exactly when it is the session's latest, matches the pins, is in its
      window and has no exact revocation by now. */
  lemma AuthorisesIff(s: Session, ledger: seq<Record>, now: int, g: Record)
    requires DistinctIds(ledger)
    ensures Resolve(s, ledger, now) == Ok(Effective(g, now)) <==> IsAuthorised(s, ledger, g, now)
    ensures Resolve(s, ledger, now).Ok? ==> Resolve(s, ledger, now).value.resolvedAt == now
  {
    hide Mismatch, Fits, IsLatestGrant, Latest, Grants, OfSession, DistinctIds;
    OfSessionMembers(s, ledger);
    ResolvedGrants(s, ledger);
    if Grants(OfSession(s, ledger)) != [] {
      MismatchIff(s, Latest(Grants(OfSession(s, ledger))));
    }
    if IsAuthorised(s, ledger, g, now) {
      LatestGrantIsAGrant(s, ledger, g);
      LatestGrantIsUnique(s, ledger, g, Latest(Grants(OfSession(s, ledger))));
    }
  }

  /** What the resolver refuses a session for, in this order. */
  lemma RefusedFor(s: Session, ledger: seq<Record>, now: int, g: Record)
    requires DistinctIds(ledger) && s.state !in {Draft, Finalized, Cancelled}
    requires forall r: Record | r in ledger && r.sessionId == s.id :: r.workspaceId == s.pins.workspaceId
    ensures (forall h: Record :: !IsGrantOf(s, ledger, h)) ==> Resolve(s, ledger, now) == Err(NoGrant)
    ensures IsLatestGrant(s, ledger, g) ==>
              Resolve(s, ledger, now)
              == if !Fits(s, g) then Err(Mismatch(s, g).value)
                 else if now < g.recordedAt then Err(NotYetEffective)
                 else if g.expiresAt.value <= now then Err(Expired)
                 else if IsRevoked(s, ledger, g, now) then Err(Revoked)
                 else Ok(Effective(g, now))
  {
    hide Mismatch, Fits, IsLatestGrant, Latest, Grants, OfSession, DistinctIds;
    OfSessionMembers(s, ledger);
    ResolvedGrants(s, ledger);
    MismatchIff(s, g);
    if IsLatestGrant(s, ledger, g) {
      LatestGrantIsAGrant(s, ledger, g);
      LatestGrantIsUnique(s, ledger, g, Latest(Grants(OfSession(s, ledger))));
    }
  }

  ghost predicate HasForeignRecord(s: Session, ledger: seq<Record>) {
    exists r: Record :: r in ledger && r.sessionId == s.id && r.workspaceId != s.pins.workspaceId
  }

  /** Before any grant is looked at, a session in the wrong state or a record of another workspace is refused. */
  lemma RefusedAtOnce(s: Session, ledger: seq<Record>, now: int)
    ensures Resolve(s, ledger, now) == Err(InvalidState) <==> s.state in {Draft, Finalized, Cancelled}
    ensures s.state !in {Draft, Finalized, Cancelled} && HasForeignRecord(s, ledger) ==>
              Resolve(s, ledger, now) == Err(WorkspaceScopeViolation)
  {
    OfSessionMembers(s, ledger);
    hide Latest, Grants, OfSession, Revokes;
  }

  /** One grant authorises one payload: two sessions it is ever authorised for have the same id, workspace,
      digests and media type, so changing any pinned digest of a session ends the authorisation. */
  lemma GrantPinsTheSession(s: Session, t: Session, a: seq<Record>, b: seq<Record>, g: Record, now: int, later: int)
    requires DistinctIds(a) && DistinctIds(b)
    requires Resolve(s, a, now) == Ok(Effective(g, now)) && Resolve(t, b, later) == Ok(Effective(g, later))
    ensures s.id == t.id && s.pins.workspaceId == t.pins.workspaceId && s.mediaType == t.mediaType
    ensures s.pins.localManifestDigest == t.pins.localManifestDigest && s.pins.fileDigest == t.pins.fileDigest
    ensures s.pins.expectedUploadDigest == t.pins.expectedUploadDigest
    ensures s.pins.selectedScopeDigest == t.pins.selectedScopeDigest
    ensures s.fileSizeBytes <= g.maxBytes && t.fileSizeBytes <= g.maxBytes
  {
    AuthorisesIff(s, a, now, g);
    AuthorisesIff(t, b, later, g);
    hide Resolve, IsLatestGrant, IsRevoked;
  }

  /** Grants are ordered by time and then by the code points of their ids. */
  lemma EarlierIff(a: Record, b: Record)
    ensures Earlier(a, b) <==>
            a.recordedAt < b.recordedAt || (a.recordedAt == b.recordedAt && Strings.ComesFirst(a.id, b.id))
  {
    Strings.BeforeIff(a.id, b.id);
  }

  lemma LatestGrantIsAGrant(s: Session, ledger: seq<Record>, g: Record)
    requires IsLatestGrant(s, ledger, g)
    ensures IsGrantOf(s, ledger, g)
  {
  }

  /** The result depends on which records the ledger holds, not on their order. */
  lemma LedgerOrderIsIrrelevant(s: Session, a: seq<Record>, b: seq<Record>, now: int)
    requires multiset(a) == multiset(b) && DistinctIds(a)
    ensures Resolve(s, a, now) == Resolve(s, b, now)
  {
    hide Mismatch, Latest, Grants, OfSession, DistinctIds, Earlier, Resolve;
    SameRecords(a, b);
    OfSessionMembers(s, a);
    OfSessionMembers(s, b);
    ResolvedGrants(s, a);
    ResolvedGrants(s, b);
    assert forall g: Record :: IsGrantOf(s, a, g) <==> IsGrantOf(s, b, g);
    if Grants(OfSession(s, a)) != [] {
      var g, h := Latest(Grants(OfSession(s, a))), Latest(Grants(OfSession(s, b)));
      assert IsLatestGrant(s, a, h);
      LatestGrantIsUnique(s, a, g, h);
    }
    SameGrantResolvesAlike(s, a, b, now);
  }

  /** The resolver reads the ledger through its session's records and their latest grant. */
  lemma SameGrantResolvesAlike(s: Session, a: seq<Record>, b: seq<Record>, now: int)
    requires forall r: Record :: r in OfSession(s, a) <==> r in OfSession(s, b)
    requires var g, h := Grants(OfSession(s, a)), Grants(OfSession(s, b));
             (g == [] <==> h == []) && (g != [] ==> Latest(g) == Latest(h))
    ensures Resolve(s, a, now) == Resolve(s, b, now)
  {
    hide Mismatch, Latest, Grants, OfSession, OutsideWindow, Revokes;
  }

  lemma SameRecords(a: seq<Record>, b: seq<Record>)
    requires multiset(a) == multiset(b)
    ensures forall r: Record :: r in a <==> r in b
  {
    assert forall r: Record :: r in a <==> r in multiset(a);
    assert forall r: Record :: r in b <==> r in multiset(b);
  }

  /** Entering consent and resolving it agree: where a grant is its session's latest and not revoked, and no
      other record of the session names another workspace, a draft accepts the grant exactly when the
      consented session may use it. */
  lemma ConsentAgreesWithResolver(s: Session, ledger: seq<Record>, grant: Record, now: int)
    requires s.state == Draft && DistinctIds(ledger)
    requires IsLatestGrant(s, ledger, grant) && !IsRevoked(s, ledger, grant, now)
    requires forall r: Record | r in ledger && r.sessionId == s.id :: r == grant || r.workspaceId == s.pins.workspaceId
    ensures ConsentSession(s, grant, now).Ok?
       <==> Resolve(s.(state := Consented), ledger, now) == Ok(Effective(grant, now))
    ensures ConsentSession(s, grant, now).Ok? ==>
              ConsentSession(s, grant, now).value
              == s.(state := Consented, failureCode := None, rowVersion := s.rowVersion + 1)
  {
    hide Mismatch, Fits, Resolve, DistinctIds;
    var consented: Session := s.(state := Consented);
    SameFit(s, consented, grant);
    MismatchIff(s, grant);
    MismatchIff(consented, grant);
    SameStanding(s, consented, ledger, grant, now);
    AuthorisesIff(consented, ledger, now, grant);
    LatestGrantIsAGrant(s, ledger, grant);
    hide IsLatestGrant, IsRevoked;
  }

  lemma SameFit(s: Session, t: Session, grant: Record)
    requires t == s.(state := t.state)
    ensures Mismatch(s, grant) == Mismatch(t, grant)
    ensures Mismatch(s, grant).None? ==> grant.workspaceId == s.pins.workspaceId
  {
  }

  lemma SameStanding(s: Session, t: Session, ledger: seq<Record>, grant: Record, now: int)
    requires t == s.(state := t.state)
    ensures IsLatestGrant(t, ledger, grant) <==> IsLatestGrant(s, ledger, grant)
    ensures IsRevoked(t, ledger, grant, now) <==> IsRevoked(s, ledger, grant, now)
  {
  }

  // ---- Appending to the ledger

  /** Once a later grant is recorded, an older one never comes back, whatever is appended. */
  lemma OlderGrantNeverReturns(s: Session, ledger: seq<Record>, more: seq<Record>, g: Record, h: Record, now: int)
    requires DistinctIds(ledger + more)
    requires IsGrantOf(s, ledger, g) && IsGrantOf(s, ledger, h) && Earlier(g, h)
    ensures Resolve(s, ledger + more, now) != Ok(Effective(g, now))
  {
    AuthorisesIff(s, ledger + more, now, g);
    assert IsGrantOf(s, ledger + more, h);
  }

  /** After an exact revocation takes effect, only a later grant restores authorisation. */
  lemma OnlyLaterGrantRestores(s: Session, ledger: seq<Record>, more: seq<Record>, g: Record, r: Record,
                               since: int, now: int)
    requires DistinctIds(ledger + more)
    requires IsGrantOf(s, ledger, g) && r in ledger && r.sessionId == s.id && Revokes(r, g, since) && since <= now
    ensures Resolve(s, ledger + more, now).Ok? ==> Earlier(g, Resolve(s, ledger + more, now).value.grant)
  {
    var all := ledger + more;
    if Resolve(s, all, now).Ok? {
      var h := Resolve(s, all, now).value.grant;
      AuthorisesIff(s, all, now, h);
      assert IsGrantOf(s, all, g) && r in all;
      assert Revokes(r, g, now);
      assert h != g;
      EarlierIsStrict(g, h);
    }
  }

  /** On one ledger a grant is authorised over one stretch of time: once lost, it stays lost. */
  lemma AuthorisationIsOneStretch(s: Session, ledger: seq<Record>, g: Record, t1: int, t2: int, t3: int)
    requires DistinctIds(ledger) && t1 <= t2 <= t3
    requires Resolve(s, ledger, t1) == Ok(Effective(g, t1)) && Resolve(s, ledger, t3) == Ok(Effective(g, t3))
    ensures Resolve(s, ledger, t2) == Ok(Effective(g, t2))
  {
    AuthorisesIff(s, ledger, t1, g);
    AuthorisesIff(s, ledger, t2, g);
    AuthorisesIff(s, ledger, t3, g);
    RevokedStaysRevoked(s, ledger, g, t2, t3);
    hide Resolve, IsLatestGrant, Mismatch, IsRevoked;
  }

  lemma RevokedStaysRevoked(s: Session, ledger: seq<Record>, g: Record, t: int, later: int)
    requires t <= later
    ensures IsRevoked(s, ledger, g, t) ==> IsRevoked(s, ledger, g, later)
  {
  }

  /** A draft consents to exactly a grant that fits it and is in its window. */
  lemma ConsentsIff(s: Session, grant: Record, now: int)
    ensures ConsentSession(s, grant, now).Ok? <==>
            && s.state == Draft && grant.decision == Grant && Fits(s, grant)
            && grant.recordedAt <= now < grant.expiresAt.value
  {
    MismatchIff(s, grant);
    hide Mismatch, Fits;
  }

  // ---- Sessions over whole runs

  /** How far along the way from draft to finalized. */
  function Stage(state: State): int {
    match state
    case Draft => 0
    case Consented => 1
    case Uploaded => 2
    case Validating => 3
    case Finalized => 4
    case Failed => -1
    case Cancelled => -1
  }

  /** Cancelled from anywhere that is not an end, failed once consented and before finalized, validating again
      after a retryable failure with the same pins, and otherwise one stage on. */
  predicate MayMove(s: Session, target: State, originalPins: Option<Pins>) {
    match target
    case Cancelled => s.state != Finalized && s.state != Cancelled
    case Failed => 1 <= Stage(s.state) <= 3
    case _ =>
      || (s.state == Failed && target == Validating && s.retryable
          && (originalPins == None || originalPins == Some(s.pins)))
      || (s.state != Failed && s.state != Cancelled && Stage(target) == Stage(s.state) + 1)
  }

  /** A transition is accepted exactly along those moves, with a failure code for a failure and without failure
      details for anything else; it then changes nothing but state, failure details and version. */
  lemma TransitionsIff(s: Session, target: State, retryable: bool, code: Option<string>, pins: Option<Pins>)
    ensures Transition(s, target, retryable, code, pins).Ok? <==>
            && MayMove(s, target, pins)
            && (if target == Failed then code.Some? && code.value != "" else !retryable && code == None)
    ensures Transition(s, target, retryable, code, pins).Ok? ==>
              Transition(s, target, retryable, code, pins).value
              == s.(state := target, retryable := retryable, failureCode := code, rowVersion := s.rowVersion + 1)
  {
  }

  /** A legal run of transitions, each step accepted. */
  ghost predicate IsRun(run: seq<Session>) {
    && run != []
    && forall i | 0 <= i < |run| - 1 :: IsStep(run[i], run[i + 1])
  }

  ghost predicate IsStep(a: Session, b: Session) {
    exists target, retryable, code, pins :: Transition(a, target, retryable, code, pins) == Ok(b)
  }

  lemma StepFacts(a: Session, b: Session)
    requires IsStep(a, b)
    ensures b.pins == a.pins && b.id == a.id && b.fileSizeBytes == a.fileSizeBytes && b.rowVersion == a.rowVersion + 1
    ensures b.state in NormalTargets(a.state) || (a.state == Failed && b.state == Validating && a.retryable)
  {
  }

  /** A run changes no pinned input, counts every step, and leaves no terminal state. */
  lemma {:induction false} RunKeepsPins(run: seq<Session>, i: nat)
    requires IsRun(run) && i < |run|
    ensures run[i].pins == run[0].pins && run[i].id == run[0].id && run[i].fileSizeBytes == run[0].fileSizeBytes
    ensures run[i].rowVersion == run[0].rowVersion + i
    ensures run[i].state == Finalized || run[i].state == Cancelled ==> i == |run| - 1
  {
    if i > 0 {
      RunKeepsPins(run, i - 1);
      StepFacts(run[i - 1], run[i - 1 + 1]);
    }
    if i < |run| - 1 {
      StepFacts(run[i], run[i + 1]);
    }
  }

  ghost predicate Visits(run: seq<Session>, state: State) {
    exists i | 0 <= i < |run| :: run[i].state == state
  }

  /** The run fails straight out of consent, before anything was uploaded. */
  ghost predicate FailsBeforeUpload(run: seq<Session>) {
    exists i | 0 <= i < |run| - 1 :: run[i].state == Consented && run[i + 1].state == Failed
  }

  /** How a run from a draft stands at step `i`. */
  ghost predicate Standing(run: seq<Session>, i: nat)
    requires i < |run|
  {
    match run[i].state
    case Draft => !Visits(run[..i + 1], Uploaded) && !FailsBeforeUpload(run[..i + 1])
    case Consented => !Visits(run[..i + 1], Uploaded) && !FailsBeforeUpload(run[..i + 1])
    case Cancelled => true
    case _ => Visits(run[..i + 1], Uploaded) <==> !FailsBeforeUpload(run[..i + 1])
  }

  lemma VisitsOneMore(run: seq<Session>, s: Session, state: State)
    ensures Visits(run + [s], state) <==> Visits(run, state) || s.state == state
  {
    if i :| 0 <= i < |run| && run[i].state == state {
      assert (run + [s])[i].state == state;
    }
    assert (run + [s])[|run|] == s;
  }

  lemma FailsOneMore(run: seq<Session>, s: Session)
    requires run != []
    ensures FailsBeforeUpload(run + [s]) <==>
            FailsBeforeUpload(run) || (run[|run| - 1].state == Consented && s.state == Failed)
  {
    var more := run + [s];
    if i :| 0 <= i < |run| - 1 && run[i].state == Consented && run[i + 1].state == Failed {
      assert more[i].state == Consented && more[i + 1].state == Failed;
    }
    assert more[|run| - 1] == run[|run| - 1] && more[|run| - 1 + 1] == s;
  }

  lemma StandingStep(run: seq<Session>, i: nat)
    requires 0 < i < |run| && Standing(run, i - 1) && IsStep(run[i - 1], run[i])
    ensures Standing(run, i)
  {
    var before := run[..i];
    assert run[..i + 1] == before + [run[i]] && run[..i - 1 + 1] == before;
    StepFacts(run[i - 1], run[i]);
    hide IsStep, Visits, FailsBeforeUpload;
    VisitsOneMore(before, run[i], Uploaded);
    FailsOneMore(before, run[i]);
  }

  lemma {:induction false} StandingHolds(run: seq<Session>, i: nat)
    requires IsRun(run) && run[0].state == Draft && i < |run|
    ensures Standing(run, i)
  {
    if i > 0 {
      StandingHolds(run, i - 1);
      assert IsStep(run[i - 1], run[i - 1 + 1]);
      StandingStep(run, i);
    }
  }

  /** A run from a draft to finalized has passed through uploaded exactly when it did not fail straight
      out of consent. */
  lemma FinalizedWasUploadedIff(run: seq<Session>)
    requires IsRun(run) && run[0].state == Draft && run[|run| - 1].state == Finalized
    ensures Visits(run, Uploaded) <==> !FailsBeforeUpload(run)
  {
    StandingHolds(run, |run| - 1);
    assert run[..|run| - 1 + 1] == run;
  }

  /** Such a failure can be retried all the way: finalized does not imply uploaded. */
  lemma FinalizedWithoutUpload() returns (run: seq<Session>)
    ensures IsRun(run) && run[0].state == Draft && run[|run| - 1].state == Finalized && !Visits(run, Uploaded)
  {
    var draft: Session := RawSession.Session("i", SOME_PINS, Draft, 0, "text/csv", 1, false, None);
    hide IsPins, IsDigest, DigestOf;
    var consented := Transition(draft, Consented, false, None, None).value;
    var failed := Transition(consented, Failed, true, Some("x"), None).value;
    var validating := Transition(failed, Validating, false, None, None).value;
    var finalized := Transition(validating, Finalized, false, None, None).value;
    assert consented.state == Consented && failed.state == Failed;
    assert validating.state == Validating && finalized.state == Finalized;
    assert IsStep(draft, consented) && IsStep(consented, failed);
    assert IsStep(failed, validating) && IsStep(validating, finalized);
    hide Transition, IsStep;
    run := [draft, consented, failed, validating, finalized];
  }

  /** An upload completes for a consented session exactly when the record it is checked against fits the
      session, and what was observed is the pinned payload, whole, under the key of that record. */
  lemma UploadCompletesIff(s: Session, consent: Effective, upload: Upload)
    ensures CompleteUpload(s, consent, upload).Ok?
       <==> && s.state == Consented && Fits(s, consent.grant)
            && upload == Upload(consent.grant.uploadObjectKey, s.fileSizeBytes, s.mediaType,
                                s.pins.expectedUploadDigest, true)
    ensures CompleteUpload(s, consent, upload).Ok? ==>
              CompleteUpload(s, consent, upload).value
              == s.(state := Uploaded, failureCode := None, rowVersion := s.rowVersion + 1)
  {
  }

  /** From ledger to upload: with what the ledger authorises at any time, an upload completes exactly when
      the session is consented and the object observed is the pinned payload, whole, at the one object key of
      the session. */
  lemma UploadCompletesIffPinned(s: Session, ledger: seq<Record>, now: int, upload: Upload)
    requires Resolve(s, ledger, now).Ok?
    ensures CompleteUpload(s, Resolve(s, ledger, now).value, upload).Ok?
       <==> && s.state == Consented
            && upload == Upload(ObjectKeys.PayloadPath(s.pins.workspaceId, s.id), s.fileSizeBytes, s.mediaType,
                                s.pins.expectedUploadDigest, true)
  {
    var consent := Resolve(s, ledger, now).value;
    ResolvedFits(s, ledger, now);
    hide Resolve, CompleteUpload, Mismatch;
    var grant := consent.grant;
    ObjectKeys.AcceptedKeyIsPayloadPath(grant.workspaceId, grant.sessionId, grant.uploadObjectKey);
    UploadCompletesIff(s, consent, upload);
    hide ObjectKeys.PayloadPath, ObjectKeys.RequirePayloadKey;
  }

  lemma ResolvedFits(s: Session, ledger: seq<Record>, now: int)
    requires Resolve(s, ledger, now).Ok?
    ensures var grant := Resolve(s, ledger, now).value.grant;
            && grant.decision == Grant && Fits(s, grant)
            && grant.workspaceId == s.pins.workspaceId && grant.sessionId == s.id
  {
    ResolvedGrants(s, ledger);
    hide Latest, Grants, OfSession, OutsideWindow, Revokes, Mismatch, Earlier;
    MismatchIff(s, Resolve(s, ledger, now).value.grant);
  }
}
