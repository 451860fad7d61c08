/**
 The adapters that turn AGT approval objects into events, and what the appraisal makes of the
 events they build. A source field that is not a non-empty string, or not an aware datetime,
 is None or empty here. UUIDv5, schema validation and the members that no rule reads are
 parameters.
 */
module AgtApproval {
  import opened Appraisal
  import opened Bytes
  import opened Events
  import opened Prelude

  datatype AgtOutcome = AllowOutcome | DenyOutcome | ExpiredOutcome | OtherOutcome

  /** An AGT PolicyDecisionRecord. Times are nanoseconds since 1970 and may be negative. */
  datatype PolicyRecord = PolicyRecord(requiresApproval: bool, policyDecisionId: Option<string>, policyRuleId: Option<string>,
                                       decidedAt: Option<int>, actionDigest: Option<string>, policyVersion: Option<string>,
                                       chainId: Option<string>, chainVersion: Option<string>)

  datatype Request = Request(approvalRequestId: Option<string>, policyDecisionId: Option<string>, agentId: Option<string>,
                             actionDigest: Option<string>, policyVersion: Option<string>, chainId: Option<string>,
                             chainVersion: Option<string>, requestedAt: Option<int>, expiresAt: Option<int>)

  datatype Resolution = Resolution(approvalRequestId: Option<string>, approvalResolutionId: Option<string>, outcome: AgtOutcome,
                                   actionDigest: Option<string>, policyVersion: Option<string>, chainVersion: Option<string>,
                                   resolvedAt: Option<int>, finalEntryDigest: Option<string>)

  datatype AgtError = WrongVerdict | MissingField | BindingMismatch | UnsupportedOutcome | BadDigest | BadTime | Predated | NotAdmitted

  datatype SourceKind = PolicySource | RequestSource | ResolutionSource

  /** `eventId` is the UUIDv5 of kind and source id; `admits` is schema validation. */
  datatype Factory = Factory(eventId: (SourceKind, string) -> string, admits: Event -> bool)

  predicate Given(field: Option<string>) {
    field.Some? && field.value != ""
  }

  predicate SameGiven(left: Option<string>, right: Option<string>) {
    Given(left) && Given(right) && left == right
  }

  const SHA256_PREFIX: string := "sha256:"

  /** `sha256:` and 64 lower-case hexadecimal digits. */
  function DigestOf(text: string): Option<Digest> {
    if |text| == 71 && SHA256_PREFIX <= text && forall i :: 7 <= i < 71 ==> IsHexDigit(text[i])
    then Some(Digest("sha256", text[7..])) else None
  }

  predicate IsHexDigit(c: char) {
    '0' <= c <= '9' || 'a' <= c <= 'f'
  }

  /** What the event factory takes for a timestamp: a decimal of at most 20 digits. */
  predicate UnixNano(t: Option<int>) {
    t.Some? && 0 <= t.value < 100_000_000_000_000_000_000
  }

  function Build(f: Factory, event: Event): Result<Event, AgtError> {
    if f.admits(event) then Ok(event) else Err(NotAdmitted)
  }

  function PolicyDecisionEvent(f: Factory, source: PolicyRecord, runId: string, bundle: Digest, mode: EnforcementMode, rest: string)
    : Result<Event, AgtError>
  {
    if !source.requiresApproval then Err(WrongVerdict)
    else if !Given(source.policyDecisionId) || !Given(source.policyRuleId) then Err(MissingField)
    else if !UnixNano(source.decidedAt) then Err(BadTime)
    else Build(f, Event(f.eventId(PolicySource, source.policyDecisionId.value), runId, source.decidedAt.value,
                        PolicyDecision(Challenge, Some(bundle), mode), rest))
  }

  /** The five comparisons of `_verify_request_binding`. */
  predicate RequestBinds(request: Request, policy: PolicyRecord) {
    && SameGiven(request.policyDecisionId, policy.policyDecisionId)
    && SameGiven(request.actionDigest, policy.actionDigest)
    && SameGiven(request.policyVersion, policy.policyVersion)
    && SameGiven(request.chainId, policy.chainId)
    && SameGiven(request.chainVersion, policy.chainVersion)
  }

  function ApprovalRequestEvent(f: Factory, request: Request, policy: PolicyRecord, runId: string, rest: string): Result<Event, AgtError> {
    if !RequestBinds(request, policy) then Err(BindingMismatch)
    else if !Given(request.approvalRequestId) || !Given(request.agentId) then Err(MissingField)
    else if DigestOf(request.actionDigest.value).None? then Err(BadDigest)
    else if !UnixNano(request.requestedAt) || !UnixNano(request.expiresAt) then Err(BadTime)
    else Build(f, Event(f.eventId(RequestSource, request.approvalRequestId.value), runId, request.requestedAt.value,
                        Approval(Requested, request.approvalRequestId.value, Some(f.eventId(PolicySource, request.policyDecisionId.value)),
                                 request.chainId, request.chainVersion, DigestOf(request.actionDigest.value).value,
                                 request.requestedAt.value, Some(request.expiresAt.value)), rest))
  }

  /** The four comparisons of `_verify_resolution_binding`. */
  predicate ResolutionBinds(resolution: Resolution, request: Request) {
    && SameGiven(resolution.approvalRequestId, request.approvalRequestId)
    && SameGiven(resolution.actionDigest, request.actionDigest)
    && SameGiven(resolution.policyVersion, request.policyVersion)
    && SameGiven(resolution.chainVersion, request.chainVersion)
  }

  function KindOf(outcome: AgtOutcome): Option<ApprovalKind> {
    match outcome
    case AllowOutcome => Some(Approved)
    case DenyOutcome => Some(Rejected)
    case ExpiredOutcome => Some(Expired)
    case OtherOutcome => None
  }

  function ApprovalResolutionEvent(f: Factory, resolution: Resolution, request: Request, runId: string, rest: string): Result<Event, AgtError> {
    if !ResolutionBinds(resolution, request) then Err(BindingMismatch)
    else if KindOf(resolution.outcome).None? then Err(UnsupportedOutcome)
    else if resolution.resolvedAt.None? || request.requestedAt.None? then Err(BadTime)
    else if resolution.resolvedAt.value < request.requestedAt.value then Err(Predated)
    else if resolution.finalEntryDigest.Some? && DigestOf(resolution.finalEntryDigest.value).None? then Err(BadDigest)
    else if !Given(request.policyDecisionId) || !Given(resolution.approvalResolutionId) || !Given(request.agentId) || !Given(request.chainId)
    then Err(MissingField)
    else if DigestOf(resolution.actionDigest.value).None? then Err(BadDigest)
    else if !UnixNano(resolution.resolvedAt) || !UnixNano(request.requestedAt) || !UnixNano(request.expiresAt) then Err(BadTime)
    else Build(f, Event(f.eventId(ResolutionSource, resolution.approvalResolutionId.value), runId, resolution.resolvedAt.value,
                        Approval(KindOf(resolution.outcome).value, resolution.approvalRequestId.value,
                                 Some(f.eventId(PolicySource, request.policyDecisionId.value)), request.chainId, request.chainVersion,
                                 DigestOf(resolution.actionDigest.value).value, request.requestedAt.value, Some(request.expiresAt.value)),
                        rest))
  }

  // ---- what the events carry ----------------------------------------------------------------

  /** Exactly the texts `sha256:` and 64 lower-case hexadecimal digits are digests. */
  lemma DigestMeans(text: string, digits: string)
    ensures DigestOf(text) == Some(Digest("sha256", digits)) <==>
      && text == "sha256:" + digits && |digits| == 64
      && forall i :: 0 <= i < 64 ==> '0' <= digits[i] <= '9' || 'a' <= digits[i] <= 'f'
    ensures DigestOf(text).Some? ==> DigestOf(text).value.algorithm == "sha256"
  {
    if DigestOf(text) == Some(Digest("sha256", digits)) {
      assert text == text[..7] + text[7..] && text[..7] == SHA256_PREFIX;
      forall i | 0 <= i < 64 ensures IsHexDigit(digits[i]) {
        assert digits[i] == text[i + 7];
      }
    }
    if text == "sha256:" + digits && |digits| == 64 && forall i :: 0 <= i < 64 ==> IsHexDigit(digits[i]) {
      assert text[7..] == digits && text[..7] == SHA256_PREFIX;
      forall i | 7 <= i < 71 ensures IsHexDigit(text[i]) {
        assert text[i] == digits[i - 7];
      }
    }
  }

  /** A field that both sides give, and give alike. */
  predicate GivenAlike(left: Option<string>, right: Option<string>) {
    left == right && left.Some? && left.value != ""
  }

  /** A request event is made only where request and policy record agree on all five members, and carries them. */
  lemma RequestMeans(f: Factory, request: Request, policy: PolicyRecord, runId: string, rest: string)
    ensures var r := ApprovalRequestEvent(f, request, policy, runId, rest);
            (r == Err(BindingMismatch) <==>
              !(GivenAlike(request.policyDecisionId, policy.policyDecisionId) && GivenAlike(request.actionDigest, policy.actionDigest)
                && GivenAlike(request.policyVersion, policy.policyVersion) && GivenAlike(request.chainId, policy.chainId)
                && GivenAlike(request.chainVersion, policy.chainVersion)))
    ensures var r := ApprovalRequestEvent(f, request, policy, runId, rest);
            r.Ok? ==>
              && request.approvalRequestId.Some? && request.approvalRequestId.value != "" && request.agentId.Some? && request.agentId.value != ""
              && r.value.runId == runId && r.value.id == f.eventId(RequestSource, request.approvalRequestId.value)
              && r.value.body.Approval? && r.value.body.kind == Requested && r.value.body.approvalId == request.approvalRequestId.value
              && r.value.body.approvalPolicy == Some(f.eventId(PolicySource, policy.policyDecisionId.value))
              && r.value.body.chainId == policy.chainId && r.value.body.chainVersion == policy.chainVersion
              && DigestOf(policy.actionDigest.value) == Some(r.value.body.approvedDigest)
              && request.requestedAt == Some(r.value.time) && r.value.body.requestedAt == r.value.time && r.value.body.expiresAt == request.expiresAt
              && r.value.time < 100_000_000_000_000_000_000 && request.expiresAt.Some? && request.expiresAt.value < 100_000_000_000_000_000_000
  {
  }

  /** A resolution event is made only where resolution and request agree on all four members, and only after the request. */
  lemma ResolutionMeans(f: Factory, resolution: Resolution, request: Request, runId: string, rest: string)
    ensures var r := ApprovalResolutionEvent(f, resolution, request, runId, rest);
            (r == Err(BindingMismatch) <==>
              !(GivenAlike(resolution.approvalRequestId, request.approvalRequestId) && GivenAlike(resolution.actionDigest, request.actionDigest)
                && GivenAlike(resolution.policyVersion, request.policyVersion) && GivenAlike(resolution.chainVersion, request.chainVersion)))
    ensures var r := ApprovalResolutionEvent(f, resolution, request, runId, rest);
            r.Ok? ==>
              && request.requestedAt.Some? && request.requestedAt.value <= r.value.time && resolution.resolvedAt == Some(r.value.time)
              && (resolution.finalEntryDigest.Some? ==> DigestOf(resolution.finalEntryDigest.value).Some?)
              && resolution.approvalResolutionId.Some? && request.policyDecisionId.Some?
              && r.value.runId == runId && r.value.id == f.eventId(ResolutionSource, resolution.approvalResolutionId.value)
              && r.value.body.Approval? && r.value.body.approvalId == request.approvalRequestId.value
              && r.value.body.approvalPolicy == Some(f.eventId(PolicySource, request.policyDecisionId.value))
              && (r.value.body.kind == Approved <==> resolution.outcome == AllowOutcome)
              && (r.value.body.kind == Rejected <==> resolution.outcome == DenyOutcome)
              && (r.value.body.kind == Expired <==> resolution.outcome == ExpiredOutcome)
              && resolution.outcome != OtherOutcome
              && DigestOf(request.actionDigest.value) == Some(r.value.body.approvedDigest)
              && r.value.body.chainId == request.chainId && r.value.body.chainVersion == request.chainVersion
              && request.requestedAt == Some(r.value.body.requestedAt) && r.value.body.expiresAt == request.expiresAt
  {
  }

  /** A policy decision event is a challenge under the given bundle and mode, and only for records that require approval. */
  lemma DecisionMeans(f: Factory, source: PolicyRecord, runId: string, bundle: Digest, mode: EnforcementMode, rest: string)
    ensures var r := PolicyDecisionEvent(f, source, runId, bundle, mode, rest);
            && (r == Err(WrongVerdict) <==> !source.requiresApproval)
            && (r.Ok? ==>
                  && source.policyDecisionId.Some? && source.policyDecisionId.value != ""
                  && source.policyRuleId.Some? && source.policyRuleId.value != ""
                  && r.value.id == f.eventId(PolicySource, source.policyDecisionId.value) && r.value.runId == runId
                  && source.decidedAt == Some(r.value.time)
                  && r.value.body == PolicyDecision(Challenge, Some(bundle), mode))
  {
  }

  // ---- what the appraisal makes of them -----------------------------------------------------

  /** The three events of one approval, mapped from sources that agree. */
  ghost predicate Mapped(f: Factory, policy: PolicyRecord, request: Request, resolution: Resolution,
                         decided: Event, requested: Event, resolved: Event)
  {
    && (exists runId, bundle, mode, rest :: PolicyDecisionEvent(f, policy, runId, bundle, mode, rest) == Ok(decided))
    && (exists runId, rest :: ApprovalRequestEvent(f, request, policy, runId, rest) == Ok(requested))
    && (exists runId, rest :: ApprovalResolutionEvent(f, resolution, request, runId, rest) == Ok(resolved))
  }

  /** The request and the resolution agree on all seven fields; only the window is left to check. */
  lemma ResolvedInWindow(f: Factory, policy: PolicyRecord, request: Request, resolution: Resolution,
                         decided: Event, requested: Event, resolved: Event)
    requires Mapped(f, policy, request, resolution, decided, requested, resolved)
    ensures Resolves(requested, resolved) <==> resolution.outcome == AllowOutcome && resolution.resolvedAt.value <= request.expiresAt.value
    ensures decided.body.PolicyDecision? && decided.body.decision == Challenge
    ensures requested.IsApprovalOf(Requested) && resolved.IsApproval() && KindOf(resolution.outcome) == Some(resolved.body.kind)
    ensures Some(decided.id) == requested.body.approvalPolicy == resolved.body.approvalPolicy
    ensures resolved.body.expiresAt == request.expiresAt && resolution.resolvedAt == Some(resolved.time)
  {
  }

  /**
   An approval the adapter builds is bound exactly when it was resolved no later than its
   request expires, whatever other requests are present.
   */
  lemma ApprovedIsBoundIffInTime(f: Factory, policy: PolicyRecord, request: Request, resolution: Resolution,
                                 decided: Event, requested: Event, resolved: Event, evs: set<Event>)
    requires Mapped(f, policy, request, resolution, decided, requested, resolved) && requested in evs
    requires resolution.outcome == AllowOutcome
    ensures IsBound(evs, resolved) <==> resolution.resolvedAt.value <= request.expiresAt.value
    ensures resolved in evs && resolution.resolvedAt.value <= request.expiresAt.value ==> ChallengeMet(evs, decided.id)
  {
    ResolvedInWindow(f, policy, request, resolution, decided, requested, resolved);
  }

  /** A challenge, its request and an approval or refusal of it. */
  predicate Triple(decided: Event, requested: Event, resolved: Event) {
    && decided.IsDecision() && decided.body.decision == Challenge
    && requested.IsApprovalOf(Requested) && requested.body.approvalPolicy == Some(decided.id)
    && resolved.IsApproval() && resolved.body.kind in {Approved, Rejected, Expired} && resolved.body.approvalPolicy == Some(decided.id)
  }

  lemma OneApproval(evs: set<Event>, resolved: Event, id: string)
    requires resolved in evs && resolved.IsApproval() && resolved.body.approvalPolicy == Some(id)
    requires forall e :: e in evs && e.IsApprovalOf(Approved) ==> e == resolved
    ensures ChallengeMet(evs, id) <==> IsBound(evs, resolved)
  {
  }

  lemma TripleVerdict(decided: Event, requested: Event, resolved: Event)
    requires Triple(decided, requested, resolved)
    ensures Verdict({decided, requested, resolved}) ==
      if resolved.body.kind != Approved then Contraindicated else if Resolves(requested, resolved) then Affirming else Warning
  {
    var evs := {decided, requested, resolved};
    assert decided in evs && resolved in evs;
    assert !Refused(evs) && !ActionContradicted(evs) && !ActionUnsatisfied(evs) && !ApprovalWithdrawn(evs);
    assert ApprovalFailed(evs) <==> resolved.body.kind != Approved;
    assert IsBound(evs, resolved) <==> Resolves(requested, resolved);
    OneApproval(evs, resolved, decided.id);
  }

  /** An action that names the challenge and carries the approved digest. */
  predicate ActsOn(action: Event, decided: Event, resolved: Event) {
    && action.IsAction() && action.body.outcome != Denied && resolved.IsApproval()
    && action.body.actionDigest == resolved.body.approvedDigest
    && action.body.actionPolicy == Some(decided.id)
    && action.body.actionApproval in {None, Some(resolved.body.approvalId)}
  }

  lemma ActionVerdict(decided: Event, requested: Event, resolved: Event, action: Event)
    requires Triple(decided, requested, resolved) && ActsOn(action, decided, resolved) && resolved.body.kind == Approved
    ensures Verdict({decided, requested, resolved, action}) ==
      if action.time < resolved.time then Contraindicated else if Resolves(requested, resolved) then Affirming else Warning
  {
    var evs := {decided, requested, resolved, action};
    assert decided in evs && resolved in evs && action in evs && requested in evs;
    assert !Refused(evs) && !ApprovalFailed(evs) && !ApprovalWithdrawn(evs) && Governed(evs);
    assert IsBound(evs, resolved) <==> Resolves(requested, resolved);
    OnlyAction(decided, requested, resolved, action);
    OneApproval(evs, resolved, decided.id);
  }

  lemma OnlyAction(decided: Event, requested: Event, resolved: Event, action: Event)
    requires Triple(decided, requested, resolved) && ActsOn(action, decided, resolved) && resolved.body.kind == Approved
    ensures var evs := {decided, requested, resolved, action};
            && (ActionContradicted(evs) <==> action.time < resolved.time)
            && (ActionUnsatisfied(evs) <==> action.time < resolved.time || !IsBound(evs, resolved))
  {
    var evs := {decided, requested, resolved, action};
    assert decided in evs && resolved in evs && action in evs;
    assert Gated(evs, action) && Candidate(action, resolved);
    assert Disagrees(action, resolved) <==> action.time < resolved.time;
    assert Satisfied(evs, action) <==> !Disagrees(action, resolved) && IsBound(evs, resolved);
    assert HasContradiction(evs, action) <==> Disagrees(action, resolved);
  }

  /** A decision, its request and its resolution, and nothing else. */
  lemma ApprovalVerdict(f: Factory, policy: PolicyRecord, request: Request, resolution: Resolution,
                        decided: Event, requested: Event, resolved: Event)
    requires Mapped(f, policy, request, resolution, decided, requested, resolved)
    ensures Verdict({decided, requested, resolved}) ==
      if resolution.outcome != AllowOutcome then Contraindicated
      else if resolution.resolvedAt.value <= request.expiresAt.value then Affirming
      else Warning
  {
    ResolvedInWindow(f, policy, request, resolution, decided, requested, resolved);
    TripleVerdict(decided, requested, resolved);
  }

  /** With the approved action: it must also complete no earlier than the approval. */
  lemma ApprovedActionVerdict(f: Factory, policy: PolicyRecord, request: Request, resolution: Resolution,
                              decided: Event, requested: Event, resolved: Event, action: Event)
    requires Mapped(f, policy, request, resolution, decided, requested, resolved)
    requires resolution.outcome == AllowOutcome && ActsOn(action, decided, resolved)
    ensures Verdict({decided, requested, resolved, action}) ==
      if action.time < resolution.resolvedAt.value then Contraindicated
      else if resolution.resolvedAt.value <= request.expiresAt.value then Affirming
      else Warning
  {
    ResolvedInWindow(f, policy, request, resolution, decided, requested, resolved);
    ActionVerdict(decided, requested, resolved, action);
  }
}
