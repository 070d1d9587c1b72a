/**
 * The account handlers: sign-up, login, profile reads and updates, the
 * profile image, and logout. The user collection is a map from user id to
 * user document held by one object whose handlers update it in place.
 * Password hashing and comparison, and token signing, are not modelled:
 * the stored password hash is an input to sign-up, the comparison is a
 * function the caller supplies to login, and a token is its claims.
 */
module AuthController {
  import opened Models

  /** The session lifetime: read as seconds by the token and as milliseconds
      by the cookie. */
  const MaxAge: int := 3 * 24 * 60 * 60 * 60

  const Required := "Email and Password both are required."
  const EmailExists := "Email already exists."
  const EmailNotFound := "Email not found"
  const IncorrectPassword := "Incorrect password"
  const UserIdNotFound := "User with the given id is not found"
  const NamesRequired := "Firstname and lastname is required."
  const InternalError := "Internal Server Error"
  const UploadFailed := "File upload failed"
  const UserNotFound := "User not found."
  const ImageRemoved := "Profile removed successfully"
  const LoggedOut := "Logged out successfully"

  /** The claims and expiry of `jwt.sign({ email, userId }, secret, { expiresIn })`. */
  datatype Token = Token(email: string, userId: UserId, expiresIn: int)

  datatype CookieValue = Jwt(token: Token) | Cleared

  datatype Cookie = Cookie(name: string, value: CookieValue, maxAge: int, secure: bool, sameSite: string)

  datatype Body =
    | Plain(text: string)
    | ErrorMessage(message: string)
    | NewAccount(id: UserId, email: string, profileSetup: bool)
    | FullProfile(id: UserId, email: string, profileSetup: bool, firstName: Option<string>,
                  lastName: Option<string>, color: Option<int>, image: Option<string>)
    | UpdatedProfile(id: UserId, email: string, profileSetup: bool, firstName: Option<string>,
                     lastName: Option<string>, color: Option<int>)
    | ImagePath(image: Option<string>)

  /** A reply: status, body, and the `jwt` cookie it sets, if any. */
  datatype Response = Response(status: int, body: Body, cookie: Option<Cookie>)

  function CreateToken(email: string, userId: UserId): (t: Token)
    ensures t.email == email && t.userId == userId && t.expiresIn == 15552000
  {
    Token(email, userId, MaxAge)
  }

  /** The cookie sign-up and login set. */
  function SessionCookie(email: string, userId: UserId): (c: Cookie)
    ensures c.name == "jwt" && c.value == Jwt(CreateToken(email, userId)) && c.maxAge == 15552000
  {
    Cookie("jwt", Jwt(CreateToken(email, userId)), MaxAge, true, "None")
  }

  /** The `logOut` handler: overwrites the session cookie with an empty one
      that expires after one millisecond. */
  function LogOut(): (r: Response)
    ensures r.status == 200 && r.body == Plain(LoggedOut)
    ensures r.cookie.Some? && r.cookie.value.name == "jwt" && r.cookie.value.value == Cleared
    ensures r.cookie.value.maxAge == 1
  {
    Response(200, Plain(LoggedOut), Some(Cookie("jwt", Cleared, 1, true, "None")))
  }

  /** The document `User.create({ email, password })` stores. */
  function NewUser(email: string, storedPassword: string): User
  {
    User(email, storedPassword, None, None, None, None, false)
  }

  function ProfileBody(id: UserId, u: User): Body
  {
    FullProfile(id, u.email, u.profileSetup, u.firstName, u.lastName, u.color, u.image)
  }

  /** No two accounts share an email. */
  ghost predicate EmailsUnique(users: map<UserId, User>)
  {
    forall a, b :: a in users && b in users && users[a].email == users[b].email ==> a == b
  }

  // ---------------------------------------------------------------------------
  // Profile image path

  function Digit(d: nat): (c: char)
    requires d < 10
    ensures '0' <= c <= '9' && c as int - '0' as int == d
  {
    ('0' as int + d) as char
  }

  /** `${n}` for a non-negative integer such as `Date.now()`. */
  function Decimal(n: nat): (s: string)
    ensures |s| >= 1
    ensures forall i :: 0 <= i < |s| ==> '0' <= s[i] <= '9'
  {
    if n < 10 then [Digit(n)] else Decimal(n / 10) + [Digit(n % 10)]
  }

  /** The number a string of decimal digits denotes. */
  function DecimalValue(s: string): nat
    requires forall i :: 0 <= i < |s| ==> '0' <= s[i] <= '9'
  {
    if s == [] then 0
    else DecimalValue(s[..|s| - 1]) * 10 + (s[|s| - 1] as int - '0' as int)
  }

  /** The decimal text of a time stamp reads back as that time stamp. */
  lemma {:induction false} DecimalRoundTrip(n: nat)
    ensures DecimalValue(Decimal(n)) == n
  {
    if n >= 10 {
      DecimalRoundTrip(n / 10);
      var s := Decimal(n);
      assert s[..|s| - 1] == Decimal(n / 10);
    }
  }

  const ProfilesDir := "uploads/profiles/"

  /** `uploads/profiles/${date}_${originalname}`. */
  function ProfileImagePath(now: nat, originalname: string): string
  {
    ProfilesDir + Decimal(now) + "_" + originalname
  }

  /** The text after the first underscore. */
  function AfterUnderscore(s: string): string
  {
    if s == [] then []
    else if s[0] == '_' then s[1..]
    else AfterUnderscore(s[1..])
  }

  lemma {:induction false} AfterUnderscoreSkips(prefix: string, rest: string)
    requires '_' !in prefix
    ensures AfterUnderscore(prefix + "_" + rest) == rest
  {
    if prefix == [] {
      assert prefix + "_" + rest == "_" + rest;
    } else {
      assert (prefix + "_" + rest)[1..] == prefix[1..] + "_" + rest;
      AfterUnderscoreSkips(prefix[1..], rest);
    }
  }

  /** The stored image path gives back the uploaded file's name: neither the
      directory nor the decimal time stamp holds an underscore. */
  lemma ImagePathKeepsName(now: nat, originalname: string)
    ensures AfterUnderscore(ProfileImagePath(now, originalname)) == originalname
    ensures ProfileImagePath(now, originalname)[..|ProfilesDir|] == ProfilesDir
  {
    var digits := Decimal(now);
    assert '_' !in ProfilesDir + digits;
    assert ProfileImagePath(now, originalname) == (ProfilesDir + digits) + "_" + originalname;
    AfterUnderscoreSkips(ProfilesDir + digits, originalname);
  }

  // ---------------------------------------------------------------------------
  // The user collection

  class UserAccounts {
    var users: map<UserId, User>

    ghost predicate Valid()
      reads this
    {
      EmailsUnique(users)
    }

    constructor (existing: map<UserId, User>)
      requires EmailsUnique(existing)
      ensures Valid() && users == existing
    {
      users := existing;
    }

    /** `User.findOne({ email })`. */
    method FindByEmail(email: string) returns (found: Option<UserId>)
      ensures found.None? <==> forall id :: id in users ==> users[id].email != email
      ensures found.Some? ==> found.value in users && users[found.value].email == email
    {
      if exists id :: id in users && users[id].email == email {
        var id :| id in users && users[id].email == email;
        found := Some(id);
      } else {
        found := None;
      }
    }

    /** The `signup` handler. `newId` is the id the store assigns and
        `storedPassword` what the schema stores for `password`. */
    method Signup(email: Option<string>, password: Option<string>, newId: UserId, storedPassword: string)
      returns (res: Response)
      requires Valid()
      requires newId !in users
      modifies this
      ensures Valid()
      ensures !Truthy(email) || !Truthy(password) ==>
        res == Response(400, ErrorMessage(Required), None) && users == old(users)
      ensures Truthy(email) && Truthy(password) && (exists id :: id in old(users) && old(users)[id].email == email.value) ==>
        res == Response(400, ErrorMessage(EmailExists), None) && users == old(users)
      ensures Truthy(email) && Truthy(password) && (forall id :: id in old(users) ==> old(users)[id].email != email.value) ==>
        && users == old(users)[newId := NewUser(email.value, storedPassword)]
        && res == Response(200, NewAccount(newId, email.value, false), Some(SessionCookie(email.value, newId)))
    {
      if !Truthy(email) || !Truthy(password) {
        return Response(400, ErrorMessage(Required), None);
      }
      var existingUser := FindByEmail(email.value);
      if existingUser.Some? {
        return Response(400, ErrorMessage(EmailExists), None);
      }
      var user := NewUser(email.value, storedPassword);
      users := users[newId := user];
      res := Response(200, NewAccount(newId, user.email, user.profileSetup), Some(SessionCookie(email.value, newId)));
    }

    /** The `login` handler. `compare` stands for `bcrypt.compare` of the
        given password against the stored hash. */
    method Login(email: Option<string>, password: Option<string>, compare: (string, string) -> bool)
      returns (res: Response)
      requires Valid()
      ensures !Truthy(email) || !Truthy(password) ==> res == Response(400, ErrorMessage(Required), None)
      ensures Truthy(email) && Truthy(password) && (forall id :: id in users ==> users[id].email != email.value) ==>
        res == Response(400, ErrorMessage(EmailNotFound), None)
      ensures Truthy(email) && Truthy(password) ==>
        forall id :: id in users && users[id].email == email.value ==>
          res == if compare(password.value, users[id].password)
                 then Response(200, ProfileBody(id, users[id]), Some(SessionCookie(email.value, id)))
                 else Response(400, ErrorMessage(IncorrectPassword), None)
      ensures res.cookie.Some? <==> res.status == 200
    {
      if !Truthy(email) || !Truthy(password) {
        return Response(400, ErrorMessage(Required), None);
      }
      var found := FindByEmail(email.value);
      if found.None? {
        return Response(400, ErrorMessage(EmailNotFound), None);
      }
      var id := found.value;
      var user := users[id];
      var isPasswordMatch := compare(password.value, user.password);
      if !isPasswordMatch {
        return Response(400, ErrorMessage(IncorrectPassword), None);
      }
      res := Response(200, ProfileBody(id, user), Some(SessionCookie(email.value, id)));
    }

    /** The `getUserInfo` handler for the authenticated `userId`. */
    method GetUserInfo(userId: UserId) returns (res: Response)
      ensures userId !in users ==> res == Response(400, Plain(UserIdNotFound), None)
      ensures userId in users ==> res.status == 200 && res.cookie.None?
      ensures userId in users ==>
        var u := users[userId];
        res.body.FullProfile? && res.body.id == userId && res.body.email == u.email
        && res.body.profileSetup == u.profileSetup && res.body.firstName == u.firstName
        && res.body.lastName == u.lastName && res.body.color == u.color && res.body.image == u.image
    {
      if userId !in users {
        return Response(400, Plain(UserIdNotFound), None);
      }
      var userData := users[userId];
      res := Response(200, ProfileBody(userId, userData), None);
    }

    /** The `updateProfile` handler. An unknown id makes the update return
        null, and reading its `id` fails with a 500. */
    method UpdateProfile(userId: UserId, firstName: Option<string>, lastName: Option<string>, color: Option<int>)
      returns (res: Response)
      requires Valid()
      modifies this
      ensures Valid()
      ensures !Truthy(firstName) || !Truthy(lastName) ==>
        res == Response(400, Plain(NamesRequired), None) && users == old(users)
      ensures Truthy(firstName) && Truthy(lastName) && userId !in old(users) ==>
        res == Response(500, Plain(InternalError), None) && users == old(users)
      ensures Truthy(firstName) && Truthy(lastName) && userId in old(users) ==>
        var u := old(users)[userId];
        && users.Keys == old(users).Keys
        && (forall id :: id in users && id != userId ==> users[id] == old(users)[id])
        && users[userId] == User(u.email, u.password, firstName, lastName, u.image, color, true)
        && res == Response(200, UpdatedProfile(userId, u.email, true, firstName, lastName, color), None)
    {
      if !Truthy(firstName) || !Truthy(lastName) {
        return Response(400, Plain(NamesRequired), None);
      }
      if userId !in users {
        return Response(500, Plain(InternalError), None);
      }
      var userData := users[userId].(firstName := firstName, lastName := lastName, color := color, profileSetup := true);
      users := users[userId := userData];
      res := Response(200, UpdatedProfile(userId, userData.email, userData.profileSetup,
                                          userData.firstName, userData.lastName, userData.color), None);
    }

    /** The `addProfileImage` handler; `now` is `Date.now()`. */
    method AddProfileImage(userId: UserId, file: Option<UploadedFile>, now: nat) returns (res: Response)
      requires Valid()
      modifies this
      ensures Valid()
      ensures file.None? ==> res == Response(400, Plain(FileRequired), None) && users == old(users)
      ensures file.Some? && (!Truthy(file.value.path) || !Truthy(file.value.originalname)) ==>
        res == Response(500, Plain(UploadFailed), None) && users == old(users)
      ensures file.Some? && Truthy(file.value.path) && Truthy(file.value.originalname) && userId !in old(users) ==>
        res == Response(500, Plain(InternalError), None) && users == old(users)
      ensures file.Some? && Truthy(file.value.path) && Truthy(file.value.originalname) && userId in old(users) ==>
        var image := ProfileImagePath(now, file.value.originalname.value);
        && users == old(users)[userId := old(users)[userId].(image := Some(image))]
        && res == Response(200, ImagePath(Some(image)), None)
    {
      if file.None? {
        return Response(400, Plain(FileRequired), None);
      }
      var f := file.value;
      if !Truthy(f.path) || !Truthy(f.originalname) {
        return Response(500, Plain(UploadFailed), None);
      }
      var fileName := ProfileImagePath(now, f.originalname.value);
      if userId !in users {
        return Response(500, Plain(InternalError), None);
      }
      var updatedUser := users[userId].(image := Some(fileName));
      users := users[userId := updatedUser];
      res := Response(200, ImagePath(updatedUser.image), None);
    }

    /** The `removeProfileImage` handler. */
    method RemoveProfileImage(userId: UserId) returns (res: Response)
      requires Valid()
      modifies this
      ensures Valid()
      ensures userId !in old(users) ==> res == Response(404, Plain(UserNotFound), None) && users == old(users)
      ensures userId in old(users) ==>
        && users == old(users)[userId := old(users)[userId].(image := None)]
        && res == Response(200, Plain(ImageRemoved), None)
    {
      if userId !in users {
        return Response(404, Plain(UserNotFound), None);
      }
      var user := users[userId].(image := None);
      users := users[userId := user];
      res := Response(200, Plain(ImageRemoved), None);
    }
  }
}
