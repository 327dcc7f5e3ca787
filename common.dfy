/** Shared vocabulary of the music-catalogue backend: optional values, user
    roles, the symbolic response statuses and messages every service returns,
    and the sequence helper the tables share. */
module Common {

  datatype Option<+T> = None | Some(value: T)

  /** Row keys. The database generates a fresh UUID per insert; each insert
      of the model takes its key as an argument, new in its own table. */
  type Id = nat

  /** The closed set of roles a user row may hold. */
  datatype Role = Admin | Editor | Viewer

  /** The role's name as stored in the table and carried in a token. */
  function RoleName(r: Role): string
  {
    match r
    case Admin => "ADMIN"
    case Editor => "EDITOR"
    case Viewer => "VIEWER"
  }

  /** The symbolic HTTP statuses (`RESPONSES`). */
  datatype Status =
    | Success | Created | NoContent
    | BadRequest | UnAuthorized | AccessForbidden | NotFound | Conflict

  /** The symbolic response messages (`RES_MSG`). */
  datatype Msg =
    | DataSuccess | DataFetchError | SomethingWrong | ActionNotAllowed
    | UserAlreadyExists | UserCreated | UsersRetrieved | UserNotFound
    | InvalidCredentials | LoginSuccess | LogoutSuccess | PasswordChanged
    | OldPasswordIncorrect | OldNewPasswordSame | UserDeleted
    | CreateSuccess | FetchSuccess | RetrieveSuccess | UpdateSuccess | DeleteSuccess
    | ResourceNotFound | ArtistNotFound | AlreadyExists | NotAssociated

  /** What a service method hands back to its controller: the `error` flag,
      the status and the message. A thrown `CustomError(SMTH_WRNG, BADREQUEST)`
      reaches the client as `Reply(true, BadRequest, SomethingWrong)`. */
  datatype Reply = Reply(error: bool, status: Status, msg: Msg)

  const Thrown := Reply(true, BadRequest, SomethingWrong)

  /** The sequence without its element at position `i`, order kept. */
  function RemoveAt<T>(s: seq<T>, i: nat): (r: seq<T>)
    requires i < |s|
    ensures |r| == |s| - 1
    ensures forall k :: 0 <= k < i ==> r[k] == s[k]
    ensures forall k :: i <= k < |r| ==> r[k] == s[k + 1]
  {
    s[..i] + s[i + 1..]
  }
}
