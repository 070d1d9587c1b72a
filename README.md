# Chat backend core, modelled in Dafny

This project models the three parts of a small Express and socket.io chat
backend that carry its logic:

- **The socket server** (`socket.js`). Two in-memory maps tie users to their live socket:
  - `userSocketMap` maps a user to a socket;
  - `socketToUserMap` maps a socket to a user.

  The connection and disconnect handlers update both maps. The
  `sendMessage` handler looks up both parties' sockets, stores the message,
  re-reads it joined with both profiles, and emits it to the recipient's
  socket and then to the sender's.
- **The message controller** (`controllers/MessageController.js`). It has three parts:
  - the conversation between two users, oldest first;
  - the direct-message contact list, built by an aggregation pipeline of match, sort, group, lookup, unwind, project and sort;
  - the path an uploaded file is moved to.
- **The account controller** (`controllers/AuthController.js`). It covers:
  - sign-up and login with their checks in source order;
  - the profile read;
  - the profile update;
  - adding and removing the profile image;
  - logout;
  - the session lifetime constant.

Layout:

- `models.dfy` (`Models`): the stored documents (users, messages), JavaScript truthiness of optional strings, and `Map.get`.
- `query.dfy` (`Query`): the two store operators the controllers use.
  - `Where` is the filter.
  - `SortBy` is an insertion sort on an integer key; a descending sort uses the negated key.
  - Lemmas show that sorting is a permutation and that filtering and sorting keep identities distinct.
- `socket.dfy` (`Socket`):
  - the presence maps as a value with the `Connected` and `Disconnected` transition functions, plus lemmas about them;
  - the class `ChatServer`, whose fields are the two maps, the message collection and an outbox of emits, and whose methods are proved against those functions.
- `message_controller.dfy` (`MessageController`): the handlers as pure functions of the request and the collections, with lemmas about grouping, joining and ordering.
- `auth_controller.dfy` (`AuthController`): the class `UserAccounts` holding the user collection as a map, one method per handler.

The model follows the code as written where it differs from the natural reading:

- A reconnect leaves the old socket's reverse entry in place.
- A later disconnect of that stale socket deletes the user's current forward entry.
- `sendMessage` looks the sockets up before the message is stored, not after; in the model's atomic step this order has no observable effect.
- The contact projection reads `lastName` through the path `"$contactInfo. lastName"`, which has a stray space. No contact carries a last name.
- `maxAge` (15552000) is passed both as the token's `expiresIn` and as the cookie's `maxAge`. The token library reads it as seconds (180 days). The cookie library reads it as milliseconds (about 4.3 hours). The model records the number; units are not modelled.

## Model

| member | source | states |
|---|---|---|
| `Models.Get` | socket.js:21-22 | `Map.get` yields a value exactly when the key is present, and that value is the map's entry |
| `Socket.Connected` | socket.js:50-57 | a truthy user id binds user to socket in both maps; a missing or empty id changes nothing; every other user's forward entry and every other socket's reverse entry is unchanged |
| `Socket.Disconnected` | socket.js:40-47 | a socket with no truthy reverse entry changes nothing; otherwise its reverse entry and its user's forward entry are both gone, whatever socket that forward entry named; all other entries are unchanged |
| `Socket.NoSharedSocket` | socket.js:16-17 | while every forward entry is backed by a reverse entry, no two users share a socket |
| `Socket.ConnectKeepsWellformed` | socket.js:52-53 | connecting a socket id never seen before keeps every forward entry backed and every id non-empty |
| `Socket.DisconnectKeepsWellformed` | socket.js:42-45 | disconnecting keeps every forward entry backed and every id non-empty |
| `Socket.DisconnectIdempotent` | socket.js:42-43 | a second disconnect of the same socket leaves the maps as the first left them |
| `Socket.ReconnectKeepsStaleReverse` | socket.js:52-53 | reconnecting a user on a new socket moves the forward entry to the new socket but leaves the old socket's reverse entry naming the user |
| `Socket.StaleDisconnectUnbindsCurrent` | socket.js:42-45 | after such a reconnect, disconnecting the stale socket deletes the user's forward entry while the user is still bound in reverse on the new socket |
| `Socket.FanOut` | socket.js:29-34 | zero, one or two emits (one per truthy socket found), all of event `recieveMessage` with the re-read data, the recipient's first and the sender's last |
| `Socket.DeliveryToBoth` | socket.js:29-34 | two distinct online parties each get exactly one emit on distinct sockets, recipient first |
| `Socket.DeliveryRecipientOffline` | socket.js:29-34 | an offline recipient gets nothing; only the sender's socket, if any, is emitted to |
| `Socket.DeliveryToSelf` | socket.js:29-34 | a message to oneself is emitted twice to the same socket |
| `Socket.SentMessageInConversation` | socket.js:24 | a message stored by `sendMessage` belongs to the conversation that `getMessages` returns for its two parties |
| `Socket.ChatServer.constructor` | socket.js:16-17 | both maps start empty; the outbox is empty; the stored messages are kept |
| `Socket.ChatServer.Connect` | socket.js:49-57 | the maps become `Connected` of the old maps; messages and outbox are unchanged; the maps stay well formed |
| `Socket.ChatServer.Disconnect` | socket.js:40-47 | the maps become `Disconnected` of the old maps; messages and outbox are unchanged; the maps stay well formed |
| `Socket.ChatServer.SendMessage` | socket.js:19-38 | the maps are unchanged. A failed create stores and emits nothing. A successful create appends exactly one message. A failed re-read emits nothing. Otherwise the outbox grows by the fan-out computed from the maps as they stood before the store, carrying the stored message joined with both profiles. Every emitted message is in the store |
| `Query.Where` | controllers/MessageController.js:35-37 | the filter keeps exactly the documents that satisfy the predicate, each with its multiplicity |
| `Query.InsertBy` | controllers/MessageController.js:40 | inserting into a sorted sequence keeps it sorted and adds exactly that document |
| `Query.SortBy` | controllers/MessageController.js:19 | the sort returns a permutation of its input in key order |
| `Query.SortSameElements` | controllers/MessageController.js:77 | sorting keeps exactly the same documents |
| `Query.SortKeepsDistinct` | controllers/MessageController.js:76-78 | sorting never makes two documents share an identity |
| `Query.WhereKeepsDistinct` | controllers/MessageController.js:35-37 | filtering never makes two documents share an identity |
| `MessageController.GetMessages` | controllers/MessageController.js:5-27 | 400 exactly when either user id is missing or empty. Otherwise it returns exactly the messages between the two users in either direction, each with its multiplicity, in non-decreasing timestamp order |
| `MessageController.GroupDistinct` | controllers/MessageController.js:42-50 | the group stage yields each partner at most once |
| `MessageController.GroupFromMessage` | controllers/MessageController.js:42-52 | each group's key and time come from one message: its partner and its timestamp |
| `MessageController.GroupCoversPartners` | controllers/MessageController.js:42-50 | every partner of the matched messages has a group |
| `MessageController.GroupTakesNewest` | controllers/MessageController.js:39-51 | over messages sorted newest first, `$first` gives each partner the newest timestamp of its messages |
| `MessageController.LookupUsers` | controllers/MessageController.js:54-74 | a group whose partner has a user record yields exactly its projection; a group without one yields nothing |
| `MessageController.LookupUsersDistinct` | controllers/MessageController.js:54-64 | the join keeps partners distinct |
| `MessageController.ContactsDistinct` | controllers/MessageController.js:33-79 | each partner appears at most once in the contact list |
| `MessageController.ContactsNewestFirst` | controllers/MessageController.js:76-78 | the contact list is in non-increasing `lastMessageTime` order |
| `MessageController.ContactsCarryLatestTime` | controllers/MessageController.js:33-79 | every contact has a user record, and its `lastMessageTime` is the maximum timestamp of the messages between the viewer and that contact |
| `MessageController.ContactsComplete` | controllers/MessageController.js:33-64 | every partner of the viewer that has a user record is listed |
| `MessageController.JoinedLackLastName` | controllers/MessageController.js:71 | every joined document copies its user's email, first name, image and colour but has no `lastName`, because the path has a stray space |
| `MessageController.ContactsLackLastName` | controllers/MessageController.js:66-74 | every contact carries its user's email, first name, image and colour, but `lastName` is always absent because of the stray space in the path |
| `MessageController.SelfMessageListsViewer` | controllers/MessageController.js:44-50 | a message the viewer sent to itself lists the viewer as its own contact |
| `MessageController.ContactOrderExample` | controllers/MessageController.js:33-79 | messages with `a` at t1 and t3 and with `b` at t2 (t1 < t2 < t3) give exactly the list [a at t3, b at t2] |
| `MessageController.TwoContactsInOrder` | controllers/MessageController.js:76-78 | a distinct, newest-first list drawn from two contacts and holding both lists the newer one first |
| `MessageController.ReplaceColons` | controllers/MessageController.js:96 | every `:` becomes `-`, every other character is kept, the length is kept, and no `:` remains |
| `MessageController.UploadFile` | controllers/MessageController.js:90-104 | 400 exactly when no file was sent. Otherwise the path is `uploads/files/`, then the date with colons replaced (so no `:`), then `/`, then the original name |
| `AuthController.CreateToken` | controllers/AuthController.js:8-10 | the token carries the email and the user id, and expires after `maxAge` = 15552000 |
| `AuthController.SessionCookie` | controllers/AuthController.js:25-29 | the cookie is `jwt`, holds the token for the email and id, and has `maxAge` 15552000 |
| `AuthController.LogOut` | controllers/AuthController.js:196-207 | 200 with "Logged out successfully", and the `jwt` cookie is overwritten with an empty value expiring after 1 |
| `AuthController.Digit` | controllers/AuthController.js:151 | a digit character denotes its digit value |
| `AuthController.Decimal` | controllers/AuthController.js:151 | the rendered time stamp is non-empty and all digits |
| `AuthController.DecimalRoundTrip` | controllers/AuthController.js:151 | the rendered time stamp reads back as the time stamp |
| `AuthController.AfterUnderscoreSkips` | controllers/AuthController.js:151 | the text after the first underscore of an underscore-free prefix, an underscore and a rest is that rest |
| `AuthController.ImagePathKeepsName` | controllers/AuthController.js:151 | the profile image path starts with `uploads/profiles/`, and the text after its first underscore is the uploaded file's original name |
| `AuthController.UserAccounts.constructor` | controllers/AuthController.js:3 | the collection starts as the given accounts, which share no email |
| `AuthController.UserAccounts.FindByEmail` | controllers/AuthController.js:19 | finds an account with the email exactly when one exists |
| `AuthController.UserAccounts.Signup` | controllers/AuthController.js:12-41 | 400 "Email and Password both are required." for a missing or empty field, and 400 "Email already exists." for a taken email; in both cases nothing changes. Otherwise exactly one account is added (given email, stored password, no profile, `profileSetup` false), and the reply is 200 with its id, email and `profileSetup` and the session cookie. Emails stay unique |
| `AuthController.UserAccounts.Login` | controllers/AuthController.js:43-82 | checks in order: missing fields (400), unknown email (400 "Email not found"), rejected password (400 "Incorrect password"). Success is 200 with the full profile and the session cookie. A cookie is set exactly on success |
| `AuthController.UserAccounts.GetUserInfo` | controllers/AuthController.js:84-101 | 400 "User with the given id is not found" for an unknown id; otherwise 200 with every profile field of that user and no cookie |
| `AuthController.UserAccounts.UpdateProfile` | controllers/AuthController.js:104-135 | 400 before touching the store unless both names are present and non-empty. An unknown id gives 500 and no change. Otherwise it sets first name, last name, colour and `profileSetup` true, keeps email, password and image, and leaves every other account unchanged |
| `AuthController.UserAccounts.AddProfileImage` | controllers/AuthController.js:137-168 | 400 with no file. 500 "File upload failed" when the stored path or the original name is missing or empty. 500 for an unknown id. Otherwise it stores `uploads/profiles/<time>_<name>` as that user's image, changes nothing else, and returns it. Nothing changes on any failure |
| `AuthController.UserAccounts.RemoveProfileImage` | controllers/AuthController.js:170-193 | 404 "User not found." for an unknown id with no change; otherwise that user's image is cleared, nothing else changes, and the reply is 200 |

## Left out

- Socket.io server construction, CORS and the transport: an emit is a record appended to `ChatServer.outbox`.
- The `sendMessage` event registration (socket.js:59-62) is not modelled. Each handler runs as one atomic step, so the interleaving of concurrent async handlers is not captured. `Socket.ChatServer.SendMessage` performs the lookups before the store in its body, but as one atomic step nothing can change the maps in between, so the model cannot distinguish lookup-before-store from lookup-after-store.
- Store and file-system failures:
  - In `sendMessage`, the store's create and re-read outcomes are the inputs `createOk` and `readOk`.
  - Elsewhere, store exceptions and the catch branches are not modelled: 500 in most handlers, and 400 "Internal server error" in `signup`, `login` and `getUserInfo`. The one exception kept is dereferencing the null that `findByIdAndUpdate` returns for an unknown id, which gives 500.
- File-system effects are not modelled: `renameSync`, `mkdirSync` and `unlinkSync`. Only the path strings are. Deleting the old image file in `removeProfileImage`, and a throw from it (500, image kept), are not part of this model.
- Clock reads are inputs: `Date.now()`, `new Date().toISOString()`, and the time the store stamps on a message.
- bcrypt: the stored password hash is an input to `Signup`, and the password check is a function given to `Login`.
- jsonwebtoken: a token is its claims and expiry; signing and the secret are not modelled.
- Mongoose internals are not modelled: ObjectId conversion and comparison, schema validation, `runValidators`, and how an undefined `color` is stored. Ids are compared as strings. An update stores `color` as given.
- `Socket.ChatServer.SendMessage`: the payload's validity against the message schema is folded into `createOk`, and the populated re-read is a total join in which a party without a user record becomes null.
- `Socket.ChatServer.Connect`: requires a non-empty socket id never connected before, which socket.io guarantees. Under that assumption every forward entry stays backed by a reverse entry.
- `index.js` and the route files only wire the handlers to the HTTP server.
- These modules are not part of this model: `ContactsControllers.js`, `AuthMiddleware.js`, `MessagesRoute.js` and the schema files under `models/`.
- Logging through `console.log` and `console.error` is not modelled.
- `AuthController.UserAccounts.Signup`: the schema file that sets a new account's defaults is not part of this model; the new account is assumed to have `profileSetup` false and no names, image or colour, and the reply's `profileSetup` is that assumed default.
- `MessageController.UploadFile`: the `request.file.path` the file is renamed from is not modelled; only the target path is.
