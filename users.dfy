// The users table and the routes that change it: registration and login,
// and the profile routes (profile update, avatar upload and deletion).

module Users {
  import opened Wrappers
  import opened Text
  import opened Http
  import opened NoteTypes

  // ---------------------------------------------------------------------
  // The users table

  datatype User = User(
    id: nat,
    username: string,
    email: string,
    hashedPassword: string,
    fullName: Option<string>,
    bio: Option<string>,
    avatarPath: Option<string>)

  /** The `users` table, plus the set of files present on disk (only the
      avatar files matter here). */
  class UserStore {
    var rows: map<nat, User>
    var nextId: nat
    var files: set<string>

    /** Ids are the keys and below the counter; no two users share a
        username or an email. */
    ghost predicate Valid()
      reads this
    {
      ValidRows(rows, nextId)
    }

    /** The user's avatar path, when set, names a file that exists. */
    ghost predicate AvatarOnDisk(me: nat)
      reads this
    {
      me in rows && (Present(rows[me].avatarPath) ==> rows[me].avatarPath.value in files)
    }

    constructor ()
      ensures Valid() && rows == map[] && files == {}
    {
      rows := map[];
      nextId := 0;
      files := {};
    }
  }

  /** Ids are the keys and below the counter; no two users share a
      username or an email. */
  ghost predicate ValidRows(rows: map<nat, User>, nextId: nat) {
    (forall id :: id in rows ==> rows[id].id == id && id < nextId)
    && (forall a, b :: a in rows && b in rows && a != b ==>
          rows[a].username != rows[b].username && rows[a].email != rows[b].email)
  }

  /** Rewriting a user's own row without touching its id, username or
      email keeps the table valid. */
  lemma SameKeysValid(rows: map<nat, User>, nextId: nat, me: nat, u: User)
    requires ValidRows(rows, nextId) && me in rows
    requires u.id == me && u.username == rows[me].username && u.email == rows[me].email
    ensures ValidRows(rows[me := u], nextId)
  {
  }

  /** The same for a new email that no other user has. */
  lemma NewEmailValid(rows: map<nat, User>, nextId: nat, me: nat, u: User)
    requires ValidRows(rows, nextId) && me in rows
    requires u.id == me && u.username == rows[me].username
    requires forall id :: id in rows && id != me ==> rows[id].email != u.email
    ensures ValidRows(rows[me := u], nextId)
  {
  }

  /** `UserOut`, the shape every user route replies with: the row's id,
      username and email. The password hash and the profile fields are
      never sent. */
  datatype UserOut = UserOut(id: nat, username: string, email: string)

  function Public(u: User): UserOut {
    UserOut(u.id, u.username, u.email)
  }

  /** So a reply is the same whatever full name, bio or avatar the row
      holds, and whatever its password hash is. */
  lemma ReplyHidesProfile(u: User, fullName: Option<string>, bio: Option<string>,
                          avatarPath: Option<string>, hashedPassword: string)
    ensures Public(u.(fullName := fullName, bio := bio, avatarPath := avatarPath, hashedPassword := hashedPassword))
         == Public(u)
  {
  }

  /** Someone already has this username or this email. */
  predicate Taken(rows: map<nat, User>, username: string, email: string) {
    exists id :: id in rows && (rows[id].username == username || rows[id].email == email)
  }

  // ---------------------------------------------------------------------
  // Registration and login

  datatype Registration = Registration(username: string, email: string, password: string)

  /** `register`: 400 when the username or the email is taken; otherwise
      exactly one new row, holding the hash of the password and no
      profile fields. Uniqueness is kept. */
  method Register(db: UserStore, input: Registration, hash: string -> string) returns (r: Result<UserOut, HttpError>)
    requires db.Valid()
    modifies db`rows, db`nextId
    ensures db.Valid()
    ensures r.Failure? <==> Taken(old(db.rows), input.username, input.email)
    ensures r.Failure? ==> r.error == HttpError(BadRequest, "Username or email already registered")
                           && db.rows == old(db.rows)
    ensures r.Success? ==> r.value.id !in old(db.rows)
    ensures r.Success? ==>
      db.rows == old(db.rows)[r.value.id := User(r.value.id, input.username, input.email, hash(input.password), None, None, None)]
    ensures r.Success? ==> r.value.username == input.username && r.value.email == input.email
  {
    if Taken(db.rows, input.username, input.email) {
      return Failure(HttpError(BadRequest, "Username or email already registered"));
    }
    var user := User(db.nextId, input.username, input.email, hash(input.password), None, None, None);
    db.rows := db.rows[user.id := user];
    db.nextId := db.nextId + 1;
    r := Success(Public(user));
  }

  /** The default of the `ACCESS_TOKEN_EXPIRE_MINUTES` setting; the
      environment may override it, so `Login` takes the value in force. */
  const DefaultAccessTokenExpireMinutes: nat := 60

  /** What `create_access_token` is asked to sign: the claims and how long
      the token lives. */
  datatype TokenRequest = TokenRequest(userId: nat, username: string, expiresMinutes: nat)

  datatype TokenResponse = TokenResponse(accessToken: string, tokenType: string)

  const BadCredentials := HttpError(Unauthorized, "Incorrect username or password")

  /** `login`: one 401 for an unknown username and for a wrong password
      alike; otherwise a bearer token carrying the user's id and name and
      the configured lifetime. Nothing is stored. */
  method Login(db: UserStore, username: string, password: string, expireMinutes: nat,
               verify: (string, string) -> bool, sign: TokenRequest -> string)
    returns (r: Result<TokenResponse, HttpError>)
    requires db.Valid()
    ensures r.Failure? <==> !exists id :: id in db.rows && db.rows[id].username == username
                                          && verify(password, db.rows[id].hashedPassword)
    ensures r.Failure? ==> r.error == BadCredentials
    ensures r.Success? ==> r.value.tokenType == "bearer"
    ensures r.Success? ==> exists id :: id in db.rows && db.rows[id].username == username
                                        && r.value.accessToken == sign(TokenRequest(id, username, expireMinutes))
  {
    if !exists id :: id in db.rows && db.rows[id].username == username {
      return Failure(BadCredentials);
    }
    var id :| id in db.rows && db.rows[id].username == username;
    var user := db.rows[id];
    if !verify(password, user.hashedPassword) {
      return Failure(BadCredentials);
    }
    var token := sign(TokenRequest(user.id, user.username, expireMinutes));
    r := Success(TokenResponse(token, "bearer"));
  }

  // ---------------------------------------------------------------------
  // Profile routes. `me` is the authenticated user's id.

  /** `get_profile`: the current user's id, username and email. */
  method GetProfile(db: UserStore, me: nat) returns (u: UserOut)
    requires me in db.rows
    ensures u.id == db.rows[me].id && u.username == db.rows[me].username && u.email == db.rows[me].email
  {
    u := Public(db.rows[me]);
  }

  /** The update body, `UserProfileUpdate`: every field optional. The
      schema module declares no such class; its fields follow the route's
      uses of them. */
  datatype ProfileUpdate = ProfileUpdate(fullName: Option<string>, email: Option<string>, bio: Option<string>)

  /** The email actually requested: a non-empty value different from the
      current one. */
  predicate ChangesEmail(current: User, update: ProfileUpdate) {
    Present(update.email) && update.email.value != current.email
  }

  /** `update_profile`. An email change taken by another user is refused
      with 400 and nothing changes. Otherwise a requested email change is
      made, and full name and bio are set whenever given, even to "". */
  method UpdateProfile(db: UserStore, me: nat, update: ProfileUpdate) returns (r: Result<UserOut, HttpError>)
    requires db.Valid() && me in db.rows
    modifies db`rows
    ensures db.Valid() && me in db.rows
    ensures db.rows == old(db.rows)[me := db.rows[me]]
    ensures r.Failure? <==> ChangesEmail(old(db.rows)[me], update)
                            && exists id :: id in old(db.rows) && id != me && old(db.rows)[id].email == update.email.value
    ensures r.Failure? ==> r.error == HttpError(BadRequest, "Email already registered") && db.rows == old(db.rows)
    ensures r.Success? ==> r.value == Public(db.rows[me])
    ensures r.Success? ==> db.rows[me].email == if ChangesEmail(old(db.rows)[me], update) then update.email.value else old(db.rows)[me].email
    ensures r.Success? ==> db.rows[me].fullName == if update.fullName.Some? then update.fullName else old(db.rows)[me].fullName
    ensures r.Success? ==> db.rows[me].bio == if update.bio.Some? then update.bio else old(db.rows)[me].bio
    ensures r.Success? ==> db.rows[me].id == me && db.rows[me].username == old(db.rows)[me].username
                           && db.rows[me].hashedPassword == old(db.rows)[me].hashedPassword
                           && db.rows[me].avatarPath == old(db.rows)[me].avatarPath
  {
    var user := db.rows[me];
    if ChangesEmail(user, update) {
      if exists id :: id in db.rows && id != me && db.rows[id].email == update.email.value {
        return Failure(HttpError(BadRequest, "Email already registered"));
      }
      user := user.(email := update.email.value);
    }
    if update.fullName.Some? {
      user := user.(fullName := update.fullName);
    }
    if update.bio.Some? {
      user := user.(bio := update.bio);
    }
    if ChangesEmail(db.rows[me], update) {
      NewEmailValid(db.rows, db.nextId, me, user);
    } else {
      SameKeysValid(db.rows, db.nextId, me, user);
    }
    db.rows := db.rows[me := user];
    r := Success(Public(user));
  }

  // ---------------------------------------------------------------------
  // Avatars

  /** `Path(name).suffix`: from the last dot of the last component, when
      that dot is neither the component's first nor its last character. */
  function PathSuffix(filename: string): (ext: string)
    ensures |ext| <= |filename| && ext == filename[|filename| - |ext|..]
    ensures ext != [] ==> |ext| >= 2 && ext[0] == '.' && forall i :: 1 <= i < |ext| ==> ext[i] != '.' && ext[i] != '/'
  {
    var name := filename[LastIndexOf(filename, '/') + 1..];
    var dot := LastIndexOf(name, '.');
    if 0 < dot < |name| - 1 then name[dot..] else ""
  }

  const AvatarDir := "uploads/avatars"

  /** The file a user's avatar path names, if it names one. */
  function AvatarFiles(u: User): (fs: set<string>)
    ensures fs == {} <==> !Present(u.avatarPath)
    ensures Present(u.avatarPath) ==> fs == {u.avatarPath.value}
  {
    if Present(u.avatarPath) then {u.avatarPath.value} else {}
  }

  /** Where a new avatar is stored: the avatar directory, then the UUID,
      then the upload's suffix. */
  function AvatarPath(uuid: string, filename: string): string {
    AvatarDir + "/" + uuid + PathSuffix(filename)
  }

  /** The path starts with the directory and the UUID and ends with the
      upload's suffix, which follows the UUID directly. */
  lemma AvatarPathParts(uuid: string, filename: string)
    ensures var p := AvatarPath(uuid, filename);
      AvatarDir + "/" + uuid <= p
      && p[|AvatarDir| + 1 + |uuid|..] == PathSuffix(filename)
      && p[|p| - |PathSuffix(filename)|..] == PathSuffix(filename)
  {
    var p := AvatarPath(uuid, filename);
    var n := |AvatarDir| + 1 + |uuid|;
    assert p[..n] == AvatarDir + "/" + uuid;
    assert p[n..] == PathSuffix(filename);
  }

  /** Two uploads named by different UUIDs of the same length (as UUID4
      strings are) never share a path, whatever their file names. */
  lemma DistinctUuidsDistinctPaths(u1: string, u2: string, f1: string, f2: string)
    requires |u1| == |u2| && u1 != u2
    ensures AvatarPath(u1, f1) != AvatarPath(u2, f2)
  {
    var p1 := AvatarPath(u1, f1);
    var p2 := AvatarPath(u2, f2);
    var n := |AvatarDir| + 1 + |u1|;
    AvatarPathParts(u1, f1);
    AvatarPathParts(u2, f2);
    assert p1[..n] == AvatarDir + "/" + u1;
    assert p2[..n] == AvatarDir + "/" + u2;
    assert (AvatarDir + "/" + u1)[|AvatarDir| + 1..] == u1;
    assert (AvatarDir + "/" + u2)[|AvatarDir| + 1..] == u2;
  }

  /** The square cut out of a thumbnail: (left, top, right, bottom). */
  datatype CropBox = CropBox(left: nat, top: nat, right: nat, bottom: nat)

  /** The centred square of side min(w, h). */
  function CenteredSquare(width: nat, height: nat): (b: CropBox)
    ensures b.right <= width && b.bottom <= height
    ensures b.right - b.left == b.bottom - b.top == if width < height then width else height
    ensures b.left <= width - b.right <= b.left + 1
    ensures b.top <= height - b.bottom <= b.top + 1
  {
    var side := if width < height then width else height;
    var left := (width - side) / 2;
    var top := (height - side) / 2;
    CropBox(left, top, left + side, top + side)
  }

  /** A square image is left whole: its box is the full image. */
  lemma SquareIsNotCropped(side: nat)
    ensures CenteredSquare(side, side) == CropBox(0, 0, side, side)
  {
  }

  /** The uploaded file as the route sees it. */
  datatype Upload = Upload(filename: string, contentType: string)

  /** Writing, opening and thumbnailing the file: either the thumbnail's
      size, or the exception's text. */
  datatype Processing = Processed(width: nat, height: nat) | ProcessingFailed(message: string)

  /** The crop applied to a thumbnail, if any: only a non-square one. */
  function CropFor(p: Processing): (c: Option<CropBox>)
    requires p.Processed?
    ensures c.Some? <==> p.width != p.height
    ensures c.Some? ==> c.value == CenteredSquare(p.width, p.height)
  {
    if p.width != p.height then Some(CenteredSquare(p.width, p.height)) else None
  }

  /** `upload_avatar`, in the order the route runs. The type check comes
      first. Then the old avatar file is deleted, before anything else can
      fail. The new file is written and processed. On success the user
      points at it. On failure the new file is removed and 500 is
      returned, with the user still pointing at the old, now deleted, file. */
  method UploadAvatar(db: UserStore, me: nat, file: Upload, uuid: string, processing: Processing)
    returns (r: Result<UserOut, HttpError>, crop: Option<CropBox>)
    requires db.Valid() && me in db.rows
    modifies db`rows, db`files
    ensures db.Valid()
    ensures !("image/" <= file.contentType) ==>
      r == Failure(HttpError(BadRequest, "File must be an image")) && db.rows == old(db.rows) && db.files == old(db.files)
    ensures "image/" <= file.contentType && processing.ProcessingFailed? ==>
      r == Failure(HttpError(ServerError, "Failed to process image: " + processing.message))
      && db.rows == old(db.rows)
      && db.files == old(db.files) - {AvatarPath(uuid, file.filename)}
                     - AvatarFiles(old(db.rows)[me])
    ensures "image/" <= file.contentType && processing.Processed? ==>
      r == Success(Public(old(db.rows)[me]))
      && db.rows == old(db.rows)[me := old(db.rows)[me].(avatarPath := Some(AvatarPath(uuid, file.filename)))]
      && crop == CropFor(processing)
      && db.files == (old(db.files)
                      - AvatarFiles(old(db.rows)[me]))
                     + {AvatarPath(uuid, file.filename)}
    ensures r.Failure? ==> crop == None
    ensures "image/" <= file.contentType && processing.ProcessingFailed? && Present(old(db.rows)[me].avatarPath)
            ==> !db.AvatarOnDisk(me)
  {
    crop := None;
    if !("image/" <= file.contentType) {
      return Failure(HttpError(BadRequest, "File must be an image")), None;
    }
    var user := db.rows[me];
    db.files := db.files - AvatarFiles(user);
    var path := AvatarPath(uuid, file.filename);
    match processing {
      case ProcessingFailed(message) =>
        db.files := db.files - {path};
        return Failure(HttpError(ServerError, "Failed to process image: " + message)), None;
      case Processed(width, height) =>
        db.files := db.files + {path};
        crop := CropFor(processing);
        user := user.(avatarPath := Some(path));
        SameKeysValid(db.rows, db.nextId, me, user);
        db.rows := db.rows[me := user];
        r := Success(Public(user));
    }
  }

  /** The upload with the old file deleted only once the new one is in
      place. It keeps AvatarOnDisk: on failure the user and the old file
      are both untouched. The UUID names a file not yet on disk. */
  method UploadAvatarKeepingOld(db: UserStore, me: nat, file: Upload, uuid: string, processing: Processing)
    returns (r: Result<UserOut, HttpError>, crop: Option<CropBox>)
    requires db.Valid() && me in db.rows && db.AvatarOnDisk(me)
    requires AvatarPath(uuid, file.filename) !in db.files
    modifies db`rows, db`files
    ensures db.Valid() && db.AvatarOnDisk(me)
    ensures r.Failure? ==> db.rows == old(db.rows) && db.files == old(db.files) && crop == None
    ensures !("image/" <= file.contentType) ==> r == Failure(HttpError(BadRequest, "File must be an image"))
    ensures "image/" <= file.contentType && processing.ProcessingFailed? ==>
      r == Failure(HttpError(ServerError, "Failed to process image: " + processing.message))
    ensures "image/" <= file.contentType && processing.Processed? ==>
      r == Success(Public(old(db.rows)[me]))
      && db.rows == old(db.rows)[me := old(db.rows)[me].(avatarPath := Some(AvatarPath(uuid, file.filename)))]
      && crop == CropFor(processing)
      && db.files == (old(db.files)
                      - AvatarFiles(old(db.rows)[me]))
                     + {AvatarPath(uuid, file.filename)}
  {
    crop := None;
    if !("image/" <= file.contentType) {
      return Failure(HttpError(BadRequest, "File must be an image")), None;
    }
    var user := db.rows[me];
    var path := AvatarPath(uuid, file.filename);
    match processing {
      case ProcessingFailed(message) =>
        return Failure(HttpError(ServerError, "Failed to process image: " + message)), None;
      case Processed(width, height) =>
        db.files := db.files - AvatarFiles(user) + {path};
        crop := CropFor(processing);
        user := user.(avatarPath := Some(path));
        SameKeysValid(db.rows, db.nextId, me, user);
        db.rows := db.rows[me := user];
        r := Success(Public(user));
    }
  }

  /** `delete_avatar`: 404 when there is no avatar (none or empty);
      otherwise the file is removed and the path cleared, nothing else. */
  method DeleteAvatar(db: UserStore, me: nat) returns (r: Result<UserOut, HttpError>)
    requires db.Valid() && me in db.rows
    modifies db`rows, db`files
    ensures db.Valid()
    ensures r.Failure? <==> !Present(old(db.rows)[me].avatarPath)
    ensures r.Failure? ==> r.error == HttpError(NotFound, "No avatar to delete")
                           && db.rows == old(db.rows) && db.files == old(db.files)
    ensures r.Success? ==> r.value == Public(old(db.rows)[me])
                           && db.rows == old(db.rows)[me := old(db.rows)[me].(avatarPath := None)]
                           && db.files == old(db.files) - {old(db.rows)[me].avatarPath.value}
    ensures db.AvatarOnDisk(me)
  {
    var user := db.rows[me];
    if !Present(user.avatarPath) {
      return Failure(HttpError(NotFound, "No avatar to delete"));
    }
    db.files := db.files - {user.avatarPath.value};
    user := user.(avatarPath := None);
    SameKeysValid(db.rows, db.nextId, me, user);
    db.rows := db.rows[me := user];
    r := Success(Public(user));
  }
}
