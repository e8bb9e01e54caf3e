/** The User schema of src/model/User.model.js: its declared paths, the
    pre-save hook that hashes the password, `verifyPassword`, and the
    claims, secrets and expiries of the two tokens. bcrypt and jwt are
    abstract: a hash is an oracle function and signing is not performed. */
module UserModel {
  import opened Js
  import opened Mongoose

  /** A stored user record. */
  datatype User = User(name: string, username: string, email: string, image: string,
                       password: string, accessToken: Option<string>,
                       refreshToken: Option<string>)

  /** The schema as declared, option names as written: the username path
      carries `unqiue`, which Mongoose ignores. */
  const UserSchema: Schema := map[
    "name" := map["required" := true],
    "username" := map["required" := true, "unqiue" := true],
    "email" := map["required" := true, "unique" := true],
    "image" := map["required" := true],
    "password" := map["required" := true],
    "access_token" := map[],
    "refresh_token" := map[]
  ]

  /** The value a user holds at a schema path (`None` when unset or undeclared). */
  function PathValue(u: User, path: string): Option<string> {
    if path == "name" then Some(u.name)
    else if path == "username" then Some(u.username)
    else if path == "email" then Some(u.email)
    else if path == "image" then Some(u.image)
    else if path == "password" then Some(u.password)
    else if path == "access_token" then u.accessToken
    else if path == "refresh_token" then u.refreshToken
    else None
  }

  /** Only `email` gets a unique index: username's option is misspelt. */
  lemma OnlyEmailIsUnique()
    ensures PathsDeclaring(UserSchema, "unique") == {"email"}
    ensures "username" !in PathsDeclaring(UserSchema, "unique")
  {
    assert Declares(UserSchema["email"], "unique");
    forall p | p in PathsDeclaring(UserSchema, "unique") ensures p == "email" {
      assert p in UserSchema;
    }
  }

  /** name, username, email, image and password are required; the two token
      paths are optional. */
  lemma RequiredUserPaths()
    ensures PathsDeclaring(UserSchema, "required") == {"name", "username", "email", "image", "password"}
  {
    var expected := {"name", "username", "email", "image", "password"};
    assert Declares(UserSchema["name"], "required");
    assert Declares(UserSchema["username"], "required");
    assert Declares(UserSchema["email"], "required");
    assert Declares(UserSchema["image"], "required");
    assert Declares(UserSchema["password"], "required");
    forall p | p in PathsDeclaring(UserSchema, "required") ensures p in expected {
      assert p in UserSchema.Keys;
      assert p != "access_token" && p != "refresh_token" by {
        assert !Declares(UserSchema["access_token"], "required");
        assert !Declares(UserSchema["refresh_token"], "required");
      }
    }
  }

  /** What the validator rejects at save, read off the schema: a required
      path left empty. */
  ghost predicate MissesRequiredPath(u: User) {
    exists p :: p in PathsDeclaring(UserSchema, "required") && !(PathValue(u, p).Some? && RequiredStringPresent(PathValue(u, p).value))
  }

  /** The same rule spelt out on the record's fields. */
  predicate LacksRequiredField(u: User) {
    u.name == "" || u.username == "" || u.email == "" || u.image == "" || u.password == ""
  }

  /** The schema's required paths reject exactly the records with one of the
      five strings empty. */
  lemma MissesRequiredPathIff(u: User)
    ensures MissesRequiredPath(u) <==> LacksRequiredField(u)
  {
    RequiredUserPaths();
    if u.name == "" { assert "name" in PathsDeclaring(UserSchema, "required"); }
    if u.username == "" { assert "username" in PathsDeclaring(UserSchema, "required"); }
    if u.email == "" { assert "email" in PathsDeclaring(UserSchema, "required"); }
    if u.image == "" { assert "image" in PathsDeclaring(UserSchema, "required"); }
    if u.password == "" { assert "password" in PathsDeclaring(UserSchema, "required"); }
  }

  /** What a unique index rejects at insert, read off the schema: a stored
      user with the same value at a unique path. */
  ghost predicate ViolatesUniqueIndex(users: map<ObjectId, User>, u: User) {
    exists id, p :: id in users && p in PathsDeclaring(UserSchema, "unique")
                    && PathValue(users[id], p).Some? && PathValue(users[id], p) == PathValue(u, p)
  }

  /** An email already stored. */
  predicate EmailTaken(users: map<ObjectId, User>, email: string) {
    exists id :: id in users && users[id].email == email
  }

  /** The unique indexes collide exactly on an equal email; equal usernames pass. */
  lemma ViolatesUniqueIndexIff(users: map<ObjectId, User>, u: User)
    ensures ViolatesUniqueIndex(users, u) <==> EmailTaken(users, u.email)
  {
    OnlyEmailIsUnique();
    if exists id :: id in users && users[id].email == u.email {
      var id :| id in users && users[id].email == u.email;
      assert PathValue(users[id], "email") == PathValue(u, "email");
    }
  }

  // ---------------------------------------------------------------------------
  // Password hashing (bcrypt abstracted)
  // ---------------------------------------------------------------------------

  /** bcrypt's cost factor as passed to `bcrypt.hash`. */
  const SaltRounds := 1

  /** bcrypt.hash(password, rounds), as an oracle. */
  type Hasher = (string, nat) -> string

  /** A hash that never maps two passwords to the same digest. */
  ghost predicate CollisionFree(hash: Hasher) {
    forall a, b, n :: hash(a, n) == hash(b, n) ==> a == b
  }

  /** `bcrypt.compare(candidate, digest)` with the oracle: the candidate hashes to the digest. */
  predicate Compare(candidate: string, digest: string, hash: Hasher) {
    hash(candidate, SaltRounds) == digest
  }

  /** The password a save leaves behind: the pre-save hook re-hashes only a
      modified password. */
  function PasswordAfterSave(password: string, modified: bool, hash: Hasher): string {
    if modified then hash(password, SaltRounds) else password
  }

  /** After a save that hashed password `p`, `verifyPassword` accepts exactly `p`;
      a later save without a new password keeps that digest, so it still does. */
  lemma VerifyAfterSave(p: string, c: string, hash: Hasher)
    requires CollisionFree(hash)
    ensures Compare(c, PasswordAfterSave(p, true, hash), hash) <==> c == p
    ensures PasswordAfterSave(PasswordAfterSave(p, true, hash), false, hash)
            == PasswordAfterSave(p, true, hash)
  {
    if Compare(c, PasswordAfterSave(p, true, hash), hash) {
      assert hash(c, SaltRounds) == hash(p, SaltRounds);
    }
  }

  /** A user document, whose `password` path the pre-save hook overwrites in place. */
  class UserDocument {
    const id: ObjectId
    var name: string
    var username: string
    var email: string
    var image: string
    var password: string
    var accessToken: Option<string>
    var refreshToken: Option<string>
    /** Mongoose's dirty flag for the `password` path. */
    var passwordModified: bool

    /** `new User({...})`: every path assigned so far counts as modified. */
    constructor (id: ObjectId, name: string, username: string, email: string, image: string,
                 password: string)
      ensures this.id == id && this.name == name && this.username == username
      ensures this.email == email && this.image == image && this.password == password
      ensures accessToken == None && refreshToken == None && passwordModified
    {
      this.id := id;
      this.name, this.username, this.email, this.image := name, username, email, image;
      this.password := password;
      accessToken, refreshToken := None, None;
      passwordModified := true;
    }

    /** The stored record this document represents. */
    function Value(): User
      reads this
    {
      User(name, username, email, image, password, accessToken, refreshToken)
    }

    /** The `pre("save")` hook: hash the password iff it was modified. */
    method PreSave(hash: Hasher)
      modifies this`password
      ensures password == PasswordAfterSave(old(password), passwordModified, hash)
    {
      if passwordModified {
        password := hash(password, SaltRounds);
      }
    }

    /** `doc.save()`: the hook runs, the document is written, and its dirty flags are reset. */
    method Save(hash: Hasher)
      modifies this`password, this`passwordModified
      ensures password == PasswordAfterSave(old(password), old(passwordModified), hash)
      ensures !passwordModified
      ensures old(passwordModified) && CollisionFree(hash) ==>
                forall c :: VerifyPassword(c, hash) <==> c == old(password)
    {
      PreSave(hash);
      passwordModified := false;
      if old(passwordModified) && CollisionFree(hash) {
        forall c ensures VerifyPassword(c, hash) <==> c == old(password) {
          VerifyAfterSave(old(password), c, hash);
        }
      }
    }

    /** `doc.verifyPassword(candidate)`: bcrypt.compare against the stored digest. */
    predicate VerifyPassword(candidate: string, hash: Hasher)
      reads this
    {
      Compare(candidate, password, hash)
    }
  }

  // ---------------------------------------------------------------------------
  // Tokens (jwt abstracted: the arguments passed to jwt.sign)
  // ---------------------------------------------------------------------------

  /** The token payload `{_id, email, userId}`. The schema has no `userId`
      path, so that claim is always `undefined`. */
  datatype Claims = Claims(id: ObjectId, email: string, userId: Option<ObjectId>)

  /** Which environment secret signs a token. */
  datatype Secret = AccessTokenSecret | RefreshTokenSecret

  /** `expiresIn` written as a number of days ('7d', '30d'). */
  datatype Expiry = Days(days: nat)

  /** The arguments of one `jwt.sign(payload, secret, {expiresIn})` call. */
  datatype SignRequest = SignRequest(payload: Claims, secret: Secret, expiresIn: Expiry)

  function TokenClaims(id: ObjectId, email: string): Claims {
    Claims(id, email, None)
  }

  /** `generateAccessToken`: the user's claims, the access secret, seven days. */
  function AccessTokenRequest(id: ObjectId, email: string): SignRequest {
    SignRequest(TokenClaims(id, email), AccessTokenSecret, Days(7))
  }

  /** `generateRefreshToken`: the same claims, the refresh secret, thirty days. */
  function RefreshTokenRequest(id: ObjectId, email: string): SignRequest {
    SignRequest(TokenClaims(id, email), RefreshTokenSecret, Days(30))
  }

  /** The two tokens carry the same claims naming the user, use different
      secrets, and the refresh token outlives the access token. */
  lemma TokenPairShape(id: ObjectId, email: string)
    ensures AccessTokenRequest(id, email).payload == RefreshTokenRequest(id, email).payload
    ensures AccessTokenRequest(id, email).payload.id == id
    ensures AccessTokenRequest(id, email).payload.email == email
    ensures AccessTokenRequest(id, email).payload.userId == None
    ensures AccessTokenRequest(id, email).secret != RefreshTokenRequest(id, email).secret
    ensures AccessTokenRequest(id, email).expiresIn.days == 7
    ensures RefreshTokenRequest(id, email).expiresIn.days == 30
  {
  }
}
