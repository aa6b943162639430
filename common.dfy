/** Values shared by the whole turn pipeline: message records, the error
    kinds a turn can end with, and the Option/Result wrappers that replace
    the source's exceptions. */
module Common {

  datatype Option<T> = None | Some(value: T)

  /** The value of an option, or `default` when there is none
      (`getenv(name, default)`). */
  function GetOr<T>(o: Option<T>, default: T): T {
    match o
    case Some(v) => v
    case None => default
  }

  /** The role tag of a chat message: only these three ever occur. */
  datatype Role = System | User | Assistant

  /** One chat message, `{"role": ..., "content": ...}` in the source. */
  datatype Message = Message(role: Role, content: string)

  /** The exceptions the core raises, one constructor each. */
  datatype Error =
    | RoleNotFound(roleName: string)          // FileNotFoundError from the role store
    | MissingKey(key: string)                 // KeyError from str.format
    | NoRoleFlag                              // ValueError in message_constructor
    | MalformedJson                           // json.loads rejected an interpolated message
    | CorruptRecord(chatId: string)           // json.loads rejected a stored chat record
    | IdentityConflict(chatId: string, existing: string, requested: string)  // BadArgumentUsage
    | NoSuchRecord(chatId: string)            // unlink of a record that does not exist
    | NotARecord(chatId: string)              // the empty id names the storage directory itself
    | NotImplemented                          // the base handler's get_messages

  datatype Result<T> = Ok(value: T) | Err(error: Error)

  /** The last element of a non-empty sequence. */
  function Last<T>(s: seq<T>): T
    requires s != []
  {
    s[|s| - 1]
  }
}
