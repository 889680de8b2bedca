/** Rows of the policy tables that several components read. */
module Policy {
  import opened Basics

  datatype Classification = Public | Internal | Confidential | Restricted

  datatype ApprovalStatus = Pending | Approved | Denied

  datatype Approval = Approval(
    id: Str,
    organizationId: Str,
    executionId: Str,
    requestedBy: Str,
    decidedBy: Option<Str>,
    status: ApprovalStatus,
    artifactHash: Option<Str>)
}
