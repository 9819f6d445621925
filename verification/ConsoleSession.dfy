/** The session objects that the console, its authority and its organization client share. */
module ConsoleSession {
  type Id = string

  /** A session object; `ref` is its identity, so two objects of the same organization are still different sessions. */
  datatype Session = Session(ref: nat, organization: Id, member: Id)
}
