/** Human approvals. */
module Approvals {
  import opened Utf8

  /** Reference ids, environments and people, by their encoded text. */
  datatype Name = Name(bytes: Bytes)

  predicate IsBlank(n: Name) {
    Blank(n.bytes)
  }

  datatype Approval = Approval(approved: bool, approver: Name)

  /** Approved, by someone with a name. */
  predicate Granted(a: Approval) {
    a.approved && !IsBlank(a.approver)
  }

  /** An approval counts if and only if it is approved and the approver's text is not
      white space throughout: nobody's name makes up for a denial. */
  lemma GrantedExactlyWhen(a: Approval)
    ensures Granted(a) <==> a.approved && !OnlySpaces(a.approver.bytes)
  {
    BlankExactlyWhen(a.approver.bytes);
  }
}
