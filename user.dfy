/** The user record (clin/clin/User.swift). */
module Users {

  /** Swift's `UUID`: an opaque identifier. Here it is a number handed out by a UserFactory. */
  type Uuid = nat

  /** Swift's `Date`: an opaque point in time, supplied by whoever creates the user. */
  type Timestamp = int

  /**
   * An immutable user. Datatype values never change and compare structurally, as the
   * struct's `let` fields and synthesised `Equatable` do. The constructor `User(id, email,
   * createdAt)` is the memberwise initializer `init(id:email:createdAt:)`.
   */
  datatype User = User(id: Uuid, email: string, createdAt: Timestamp)

  /**
   * The process-wide source of fresh ids that `UUID()` stands for in `init(email:)`.
   * Every id it hands out is at least `nextId` at the time, so never one handed out before.
   */
  class UserFactory {
    var nextId: Uuid

    constructor ()
      ensures nextId == 0
    {
      nextId := 0;
    }

    /** `User(email:)`: a user with a fresh id, the email kept verbatim, created at `now`. */
    method NewUser(email: string, now: Timestamp) returns (u: User)
      modifies this
      ensures u.email == email && u.createdAt == now
      ensures u.id == old(nextId) && nextId == old(nextId) + 1
    {
      u := User(nextId, email, now);
      nextId := nextId + 1;
    }
  }
}
