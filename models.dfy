/**
 * The documents the chat backend keeps in its store: users and messages.
 * The mongoose schemas themselves are not part of this model; the fields
 * below are the ones the controllers and the socket handler read and write.
 */
module Models {

  datatype Option<+T> = None | Some(value: T)

  /** A user's id (a Mongo ObjectId, compared by value). */
  type UserId = string

  /** The id socket.io gives a connection. */
  type SocketId = string

  /** JavaScript truthiness of a value that is either undefined or a string:
      both `undefined` and the empty string are falsy. */
  predicate Truthy(o: Option<string>)
  {
    o.Some? && o.value != ""
  }

  /** `map.get(k)` of a JavaScript Map: undefined when the key is absent. */
  function Get<K, V>(m: map<K, V>, k: K): (r: Option<V>)
    ensures r.Some? <==> k in m
    ensures r.Some? ==> r.value == m[k]
  {
    if k in m then Some(m[k]) else None
  }

  /** The reply both upload handlers send when the request carries no file. */
  const FileRequired := "File is required"

  /** A JavaScript template literal renders `undefined` as the text "undefined". */
  function TemplateText(o: Option<string>): string
  {
    match o
    case Some(s) => s
    case None => "undefined"
  }

  datatype MessageType = Text | File

  /** A stored message; `id` is the id the store assigned on creation. */
  datatype Message = Message(
    id: nat,
    sender: UserId,
    recipient: UserId,
    messageType: MessageType,
    content: Option<string>,
    fileUrl: Option<string>,
    timestamp: int)

  /** A stored user account. `password` holds what the schema stores for the
      password (its hash); `color` is the profile colour index. */
  datatype User = User(
    email: string,
    password: string,
    firstName: Option<string>,
    lastName: Option<string>,
    image: Option<string>,
    color: Option<int>,
    profileSetup: bool)

  /** The fields `populate(..., "id email firstName lastName image color")` selects. */
  datatype Profile = Profile(
    id: UserId,
    email: string,
    firstName: Option<string>,
    lastName: Option<string>,
    image: Option<string>,
    color: Option<int>)

  /** The uploaded file `multer` attaches to a request: where it stored the
      upload and the client's file name, either of which may be missing. */
  datatype UploadedFile = UploadedFile(path: Option<string>, originalname: Option<string>)

  function ProfileOf(id: UserId, u: User): Profile
  {
    Profile(id, u.email, u.firstName, u.lastName, u.image, u.color)
  }
}
