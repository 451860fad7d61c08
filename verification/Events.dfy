/**
 Normalized telemetry events, as the schemas admit them. Timestamps are canonical decimal
 strings on the wire; without leading zeros they are in bijection with the naturals, so a
 time is a `nat` here. `rest` stands for the members that no rule below reads; they still
 enter the canonical bytes.
 */
module Events {
  import opened Prelude

  datatype Digest = Digest(algorithm: string, value: string)

  datatype Decision = Allow | Deny | Challenge | NotApplicable | DecisionError

  datatype EnforcementMode = Enforce | Monitor | Disabled

  datatype Outcome = Success | Failure | Denied | Cancelled | Timeout

  datatype ApprovalKind =
    | Requested | Approved | Rejected | Expired | Withdrawn
    | ExecutionStarted | ExecutionCompleted | ExecutionFailed

  datatype Body =
    | PolicyDecision(decision: Decision, bundleDigest: Option<Digest>, mode: EnforcementMode)
    | Approval(kind: ApprovalKind, approvalId: string, approvalPolicy: Option<string>,
               chainId: Option<string>, chainVersion: Option<string>, approvedDigest: Digest,
               requestedAt: nat, expiresAt: Option<nat>)
    | Action(outcome: Outcome, actionDigest: Digest, actionPolicy: Option<string>,
             actionApproval: Option<string>)
    | DataFlow(taxonomy: string, dataClass: string)
    | OtherBody

  datatype Event = Event(id: string, runId: string, time: nat, body: Body, rest: string) {
    predicate IsDecision() { body.PolicyDecision? }
    predicate IsApproval() { body.Approval? }
    predicate IsApprovalOf(kind: ApprovalKind) { body.Approval? && body.kind == kind }
    predicate IsAction() { body.Action? }
    predicate IsDataFlow() { body.DataFlow? }
  }
}
