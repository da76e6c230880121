/** Workorders and their status. */
module Workorders {
  type Id = nat

  datatype Status = Pending | Provisioning | Building | Completed | Failed(reason: string) | Cancelled

  predicate Terminal(s: Status) {
    s.Completed? || s.Failed? || s.Cancelled?
  }

  datatype Workorder = Workorder(client: Id, status: Status, createdAt: int, updatedAt: int)
}
