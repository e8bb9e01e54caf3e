/** `RegisterUser` of src/controller/User.controller.js over an in-memory user
    collection: the ordered checks (fields, duplicate, image, upload), the
    normalised insert through a User document whose pre-save hook hashes the
    password, the token cookies and the response without the password. */
module UserController {
  import opened Js
  import opened Mongoose
  import opened UserModel
  import opened Http

  /** `req.body` fields the handler reads; `None` is an absent field. */
  datatype RegisterBody = RegisterBody(name: Option<string>, email: Option<string>,
                                       username: Option<string>, password: Option<string>)

  /** `generateToken(user._id)` (src/util/TokenGeneration.js, not part of this
      model) as an oracle: the access and the refresh token. */
  type TokenIssuer = ObjectId -> (string, string)

  datatype Cookie = Cookie(name: string, value: string, httpOnly: bool, secure: bool)

  /** `{...newUser._doc, accessToken, refreshToken}`: the user as re-read with
      `.select("-password -__v -_id")`, plus the two tokens. */
  datatype RegisteredView = RegisteredView(name: string, username: string, email: string,
                                           image: string, access_token: Option<string>,
                                           refresh_token: Option<string>,
                                           accessToken: string, refreshToken: string)

  datatype RegisterReply = RegisterReply(status: int, data: Option<RegisteredView>, cookies: seq<Cookie>)

  /** The user collection and the next id to hand out. */
  datatype UserState = UserState(users: map<ObjectId, User>, nextId: ObjectId)

  datatype Registration = Registration(reply: RegisterReply, state: UserState)

  /** `!name || !email || !username || !password`. */
  predicate MissingField(body: RegisterBody) {
    !Truthy(body.name) || !Truthy(body.email) || !Truthy(body.username) || !Truthy(body.password)
  }

  /** `User.findOne({$or: [{email}, {username}]})` with the RAW input. */
  predicate DuplicateAsWritten(users: map<ObjectId, User>, email: string, username: string) {
    exists id :: id in users && (users[id].email == email || users[id].username == username)
  }

  /** The outcome of `req?.files?.image[0]?.path`. */
  datatype ImagePathLookup = PathFound(path: string) | PathFalsy | LookupThrew

  /** Optional chaining guards `req.files` and the entry, but not `image`
      itself: a files object without `image` throws a TypeError. */
  function RegisterImagePath(files: Option<Files>): (r: ImagePathLookup)
    ensures r == LookupThrew <==> files.Some? && files.value.image.None?
    ensures r.PathFound? <==> files.Some? && files.value.image.Some? && files.value.image.value != []
                              && files.value.image.value[0].path != ""
    ensures r.PathFound? ==> r.path == files.value.image.value[0].path && r.path != ""
  {
    match files
    case None => PathFalsy
    case Some(f) =>
      match f.image
      case None => LookupThrew
      case Some(list) =>
        if list == [] || list[0].path == "" then PathFalsy else PathFound(list[0].path)
  }

  /** The record `User.create` is given: trimmed name, trimmed lower-case email,
      trimmed upper-case username, the password as sent. */
  function Normalised(name: string, email: string, username: string, password: string,
                      image: string): (u: User)
    ensures u.password == password && u.image == image
    ensures u.accessToken == None && u.refreshToken == None
  {
    User(Trim(name), ToUpperCase(Trim(username)), ToLowerCase(Trim(email)), image, password, None, None)
  }

  function CookieOptions(name: string, value: string, nodeEnv: Option<string>): Cookie {
    Cookie(name, value, true, nodeEnv == Some("production"))
  }

  function ViewOf(u: User, tokens: (string, string)): RegisteredView {
    RegisteredView(u.name, u.username, u.email, u.image, u.accessToken, u.refreshToken,
                   tokens.0, tokens.1)
  }

  function Fail(s: UserState, status: int): Registration {
    Registration(RegisterReply(status, None, []), s)
  }

  /** The handler as a function of the collection before the request. */
  function RegisterSpec(s: UserState, body: RegisterBody, files: Option<Files>, cloud: CloudUpload,
                        hash: Hasher, issue: TokenIssuer, nodeEnv: Option<string>): (r: Registration)
    ensures r.reply.status == 201 || r.reply.status == 400 || r.reply.status == 500
    ensures r.reply.status == 400 <==>
              MissingField(body) || DuplicateAsWritten(s.users, body.email.value, body.username.value)
              || RegisterImagePath(files).PathFalsy?
    ensures r.reply.status != 201 ==> r == Fail(s, r.reply.status)
    ensures r.reply.status == 201 ==>
              r.state.nextId == s.nextId + 1 && r.state.users.Keys == s.users.Keys + {s.nextId}
  {
    if MissingField(body) then Fail(s, 400)
    else if DuplicateAsWritten(s.users, body.email.value, body.username.value) then Fail(s, 400)
    else match RegisterImagePath(files)
      case PathFalsy => Fail(s, 400)
      case LookupThrew => Fail(s, 500)
      case PathFound(path) =>
        match UploadOnCloudinary(Some(path), cloud)
        case None => Fail(s, 500)
        case Some(url) =>
          Create(s, Normalised(body.name.value, body.email.value, body.username.value,
                               body.password.value, url), hash, issue, nodeEnv)
  }

  /** `User.create(u)` and what follows it: the schema's validation and its
      unique index (`MissesRequiredPathIff`, `ViolatesUniqueIndexIff`) refuse
      with 500; otherwise the hashed record is inserted and announced. */
  function Create(s: UserState, u: User, hash: Hasher, issue: TokenIssuer,
                  nodeEnv: Option<string>): (r: Registration)
    ensures r.reply.status == 201 || r.reply.status == 500
    ensures r.reply.status == 500 <==> LacksRequiredField(u) || EmailTaken(s.users, u.email)
    ensures r.reply.status == 500 ==> r == Fail(s, 500)
    ensures r.reply.status == 201 ==>
              r.state.nextId == s.nextId + 1 && r.state.users.Keys == s.users.Keys + {s.nextId}
  {
    if LacksRequiredField(u) || EmailTaken(s.users, u.email) then Fail(s, 500)
    else
      var stored := u.(password := PasswordAfterSave(u.password, true, hash));
      var tokens := issue(s.nextId);
      Registration(
        RegisterReply(201, Some(ViewOf(stored, tokens)),
                      [CookieOptions("accessToken", tokens.0, nodeEnv),
                       CookieOptions("refreshToken", tokens.1, nodeEnv)]),
        UserState(s.users[s.nextId := stored], s.nextId + 1))
  }

  /** Every stored id is below the next id to hand out. */
  predicate IdsBelow(s: UserState) {
    forall id :: id in s.users ==> id < s.nextId
  }

  /** The user collection. */
  class UserStore {
    var users: map<ObjectId, User>
    var nextId: ObjectId

    constructor ()
      ensures users == map[] && nextId == 0
    {
      users := map[];
      nextId := 0;
    }

    function State(): UserState
      reads this
    {
      UserState(users, nextId)
    }

    /** `RegisterUser`: checks in the source's order, then `User.create`
        (validation, pre-save hash, insert), token issue and the 201 reply. */
    method RegisterUser(body: RegisterBody, files: Option<Files>, cloud: CloudUpload,
                        hash: Hasher, issue: TokenIssuer, nodeEnv: Option<string>)
      returns (reply: RegisterReply)
      modifies this
      ensures IdsBelow(old(State())) ==> IdsBelow(State())
      ensures Registration(reply, State())
              == RegisterSpec(old(State()), body, files, cloud, hash, issue, nodeEnv)
    {
      ghost var s0 := State();
      if MissingField(body) {
        return RegisterReply(400, None, []);
      }
      var name, email, username, password :=
        body.name.value, body.email.value, body.username.value, body.password.value;
      if DuplicateAsWritten(users, email, username) {
        return RegisterReply(400, None, []);
      }
      var lookup := RegisterImagePath(files);
      if lookup.PathFalsy? {
        return RegisterReply(400, None, []);
      } else if lookup.LookupThrew? {
        return RegisterReply(500, None, []);
      }
      var image := UploadOnCloudinary(Some(lookup.path), cloud);
      if image.None? {
        return RegisterReply(500, None, []);
      }
      var candidate := Normalised(name, email, username, password, image.value);
      assert RegisterSpec(s0, body, files, cloud, hash, issue, nodeEnv)
             == Create(s0, candidate, hash, issue, nodeEnv);
      reply := CreateUser(candidate, hash, issue, nodeEnv);
    }

    /** `User.create(candidate)` and the rest of the handler: validation and
        the unique index refuse with 500; otherwise the document is saved (its
        hook hashes the password), inserted under the next id, and announced
        with the tokens and cookies. The handler builds the record as an object
        literal of the submitted fields, so it carries no tokens. */
    method CreateUser(candidate: User, hash: Hasher, issue: TokenIssuer, nodeEnv: Option<string>)
      returns (reply: RegisterReply)
      requires candidate.accessToken == None && candidate.refreshToken == None
      modifies this
      ensures IdsBelow(old(State())) ==> IdsBelow(State())
      ensures Registration(reply, State()) == Create(old(State()), candidate, hash, issue, nodeEnv)
    {
      var current, id := users, nextId;
      if LacksRequiredField(candidate) || EmailTaken(current, candidate.email) {
        return RegisterReply(500, None, []);
      }
      var doc := new UserDocument(id, candidate.name, candidate.username, candidate.email,
                                  candidate.image, candidate.password);
      doc.Save(hash);
      var stored := doc.Value();
      assert stored == candidate.(password := PasswordAfterSave(candidate.password, true, hash));
      users, nextId := current[id := stored], id + 1;
      var tokens := issue(doc.id);
      var view := ViewOf(stored, tokens);
      reply := RegisterReply(201, Some(view),
                             [CookieOptions("accessToken", tokens.0, nodeEnv),
                              CookieOptions("refreshToken", tokens.1, nodeEnv)]);
      if IdsBelow(UserState(current, id)) {
        IdsBelowAfterInsert(UserState(current, id), stored);
      }
    }
  }

  /** Inserting under the next id and advancing it keeps every id below it. */
  lemma IdsBelowAfterInsert(s: UserState, u: User)
    requires IdsBelow(s)
    ensures IdsBelow(UserState(s.users[s.nextId := u], s.nextId + 1))
  {
  }

  // ---------------------------------------------------------------------------
  // Properties of the handler
  // ---------------------------------------------------------------------------

  /** A missing or empty field is answered 400 and nothing is stored. */
  lemma MissingFieldRejected(s: UserState, body: RegisterBody, files: Option<Files>, cloud: CloudUpload,
                             hash: Hasher, issue: TokenIssuer, nodeEnv: Option<string>)
    requires MissingField(body)
    ensures RegisterSpec(s, body, files, cloud, hash, issue, nodeEnv).reply.status == 400
    ensures RegisterSpec(s, body, files, cloud, hash, issue, nodeEnv).state == s
  {
  }

  /** A stored user with exactly the submitted email or exactly the submitted
      username makes the handler answer 400 and store nothing. */
  lemma ExactDuplicateRejected(s: UserState, body: RegisterBody, files: Option<Files>, cloud: CloudUpload,
                               hash: Hasher, issue: TokenIssuer, nodeEnv: Option<string>, id: ObjectId)
    requires !MissingField(body) && id in s.users
    requires s.users[id].email == body.email.value || s.users[id].username == body.username.value
    ensures RegisterSpec(s, body, files, cloud, hash, issue, nodeEnv).reply.status == 400
    ensures RegisterSpec(s, body, files, cloud, hash, issue, nodeEnv).state == s
  {
  }

  /** The checks run in order fields, duplicate, image, upload: the image and
      upload outcomes decide only once the earlier checks have passed. */
  lemma CheckOrder(s: UserState, body: RegisterBody, files: Option<Files>, cloud: CloudUpload,
                   hash: Hasher, issue: TokenIssuer, nodeEnv: Option<string>)
    requires !MissingField(body)
    requires !DuplicateAsWritten(s.users, body.email.value, body.username.value)
    ensures RegisterImagePath(files).PathFalsy? ==>
              RegisterSpec(s, body, files, cloud, hash, issue, nodeEnv).reply.status == 400
    ensures RegisterImagePath(files).LookupThrew? ==>
              RegisterSpec(s, body, files, cloud, hash, issue, nodeEnv).reply.status == 500
    ensures RegisterImagePath(files).PathFound? && cloud(RegisterImagePath(files).path).None? ==>
              RegisterSpec(s, body, files, cloud, hash, issue, nodeEnv) == Fail(s, 500)
  {
  }

  /** What a request may do to the collection: nothing unless it answers 201,
      and then add exactly one user under the next id, touching no other entry. */
  ghost predicate StoresOnlyOnSuccess(s: UserState, r: Registration) {
    (r.reply.status != 201 <==> r.state == s)
    && (r.reply.status == 201 ==>
          r.state.nextId == s.nextId + 1
          && s.nextId !in s.users
          && r.state.users.Keys == s.users.Keys + {s.nextId}
          && forall id :: id in s.users ==> r.state.users[id] == s.users[id])
  }

  lemma CreateStoresOnlyOnSuccess(s: UserState, u: User, hash: Hasher, issue: TokenIssuer,
                                  nodeEnv: Option<string>)
    requires IdsBelow(s)
    ensures StoresOnlyOnSuccess(s, Create(s, u, hash, issue, nodeEnv))
  {
  }

  /** Any answer but 201 leaves the collection as it was; a 201 adds exactly
      one user, under the next id, and touches no other entry. */
  lemma OnlySuccessStores(s: UserState, body: RegisterBody, files: Option<Files>, cloud: CloudUpload,
                          hash: Hasher, issue: TokenIssuer, nodeEnv: Option<string>)
    requires IdsBelow(s)
    ensures StoresOnlyOnSuccess(s, RegisterSpec(s, body, files, cloud, hash, issue, nodeEnv))
  {
    if !MissingField(body) && !DuplicateAsWritten(s.users, body.email.value, body.username.value) {
      var lookup := RegisterImagePath(files);
      if lookup.PathFound? && cloud(lookup.path).Some? {
        var u := Normalised(body.name.value, body.email.value, body.username.value,
                            body.password.value, cloud(lookup.path).value);
        assert RegisterSpec(s, body, files, cloud, hash, issue, nodeEnv) == Create(s, u, hash, issue, nodeEnv);
        CreateStoresOnlyOnSuccess(s, u, hash, issue, nodeEnv);
      }
    }
  }

  /** A registered user is stored normalised: trimmed name, trimmed lower-case
      email, trimmed upper-case username, and the hash of the password as sent. */
  lemma RegisteredUserShape(s: UserState, body: RegisterBody, files: Option<Files>, cloud: CloudUpload,
                            hash: Hasher, issue: TokenIssuer, nodeEnv: Option<string>)
    requires RegisterSpec(s, body, files, cloud, hash, issue, nodeEnv).reply.status == 201
    ensures !MissingField(body)
    ensures s.nextId in RegisterSpec(s, body, files, cloud, hash, issue, nodeEnv).state.users
    ensures var u := RegisterSpec(s, body, files, cloud, hash, issue, nodeEnv).state.users[s.nextId];
            && u.name == Trim(body.name.value)
            && u.email == ToLowerCase(Trim(body.email.value))
            && u.username == ToUpperCase(Trim(body.username.value))
            && u.password == hash(body.password.value, SaltRounds)
  {
    var url := RegisteredThroughCreate(s, body, files, cloud, hash, issue, nodeEnv);
    var u := Normalised(body.name.value, body.email.value, body.username.value, body.password.value, url);
    CreatedShape(s, u, hash, issue, nodeEnv);
  }

  /** The reply to a registration repeats the stored fields without the
      password, adds the two tokens, and sets two http-only cookies that are
      secure exactly in production. */
  lemma RegisteredReplyShape(s: UserState, body: RegisterBody, files: Option<Files>, cloud: CloudUpload,
                             hash: Hasher, issue: TokenIssuer, nodeEnv: Option<string>)
    requires RegisterSpec(s, body, files, cloud, hash, issue, nodeEnv).reply.status == 201
    ensures Announced(RegisterSpec(s, body, files, cloud, hash, issue, nodeEnv), s.nextId,
                      issue(s.nextId), nodeEnv)
  {
    var url := RegisteredThroughCreate(s, body, files, cloud, hash, issue, nodeEnv);
    var u := Normalised(body.name.value, body.email.value, body.username.value, body.password.value, url);
    CreatedShape(s, u, hash, issue, nodeEnv);
  }

  /** A 201 comes from the insert step, given the normalised record and the
      uploaded image's URL. */
  lemma RegisteredThroughCreate(s: UserState, body: RegisterBody, files: Option<Files>, cloud: CloudUpload,
                                hash: Hasher, issue: TokenIssuer, nodeEnv: Option<string>)
    returns (url: string)
    requires RegisterSpec(s, body, files, cloud, hash, issue, nodeEnv).reply.status == 201
    ensures !MissingField(body)
    ensures RegisterSpec(s, body, files, cloud, hash, issue, nodeEnv)
            == Create(s, Normalised(body.name.value, body.email.value, body.username.value,
                                    body.password.value, url), hash, issue, nodeEnv)
  {
    var lookup := RegisterImagePath(files);
    url := cloud(lookup.path).value;
  }

  /** The success reply for the user stored under `id`: its fields without the
      password, the two tokens, and two http-only cookies that are secure
      exactly in production. */
  predicate Announced(r: Registration, id: ObjectId, tokens: (string, string), nodeEnv: Option<string>) {
    && id in r.state.users
    && r.reply.data.Some?
    && r.reply.data.value.name == r.state.users[id].name
    && r.reply.data.value.email == r.state.users[id].email
    && r.reply.data.value.username == r.state.users[id].username
    && r.reply.data.value.image == r.state.users[id].image
    && r.reply.data.value.accessToken == tokens.0
    && r.reply.data.value.refreshToken == tokens.1
    && |r.reply.cookies| == 2
    && r.reply.cookies[0].name == "accessToken" && r.reply.cookies[1].name == "refreshToken"
    && (forall c :: c in r.reply.cookies ==> c.httpOnly && (c.secure <==> nodeEnv == Some("production")))
  }

  /** The insert step's success answer: the hashed record under the next id,
      its view, and the two cookies. */
  lemma CreatedShape(s: UserState, u: User, hash: Hasher, issue: TokenIssuer, nodeEnv: Option<string>)
    requires Create(s, u, hash, issue, nodeEnv).reply.status == 201
    ensures var r := Create(s, u, hash, issue, nodeEnv);
            var v := r.state.users[s.nextId];
            && v == u.(password := hash(u.password, SaltRounds))
            && r.reply.data == Some(ViewOf(v, issue(s.nextId)))
            && r.reply.cookies == [CookieOptions("accessToken", issue(s.nextId).0, nodeEnv),
                                   CookieOptions("refreshToken", issue(s.nextId).1, nodeEnv)]
            && Announced(r, s.nextId, issue(s.nextId), nodeEnv)
  {
  }

  /** A registered user verifies with exactly the password sent, provided the
      hash has no collisions. */
  lemma RegisteredPasswordVerifies(s: UserState, body: RegisterBody, files: Option<Files>,
                                   cloud: CloudUpload, hash: Hasher, issue: TokenIssuer,
                                   nodeEnv: Option<string>, candidate: string)
    requires CollisionFree(hash)
    requires RegisterSpec(s, body, files, cloud, hash, issue, nodeEnv).reply.status == 201
    ensures Compare(candidate, RegisterSpec(s, body, files, cloud, hash, issue, nodeEnv).state.users[s.nextId].password, hash)
            <==> candidate == body.password.value
  {
    VerifyAfterSave(body.password.value, candidate, hash);
  }

  // ---------------------------------------------------------------------------
  // The duplicate check compares raw input with normalised stored values
  // ---------------------------------------------------------------------------

  const AnyUpload: CloudUpload := (p: string) => Some("https://img")
  const AnyIssuer: TokenIssuer := (id: ObjectId) => ("access", "refresh")
  const OneImage := Some(Files(Some([UploadedFile("/tmp/a.png")])))

  /** The collection after one registration of "al" (`AlStateRegistered`). */
  const AlState := UserState(map[0 := User("Al", "AL", "a@x", "https://img", "h", None, None)], 1)

  /** A string without white space is its own trim. */
  lemma TrimUnspaced(s: string)
    requires forall i :: 0 <= i < |s| ==> !IsWhiteSpace(s[i])
    ensures Trim(s) == s
  {
    TrimUnpadded(s);
  }

  /** Past the checks that come before it, the handler is `Create` on the
      normalised record. */
  lemma ReachesCreate(s: UserState, body: RegisterBody, hash: Hasher, nodeEnv: Option<string>)
    requires !MissingField(body)
    requires !DuplicateAsWritten(s.users, body.email.value, body.username.value)
    ensures RegisterSpec(s, body, OneImage, AnyUpload, hash, AnyIssuer, nodeEnv)
            == Create(s, Normalised(body.name.value, body.email.value, body.username.value,
                                    body.password.value, "https://img"), hash, AnyIssuer, nodeEnv)
  {
    assert RegisterImagePath(OneImage) == PathFound("/tmp/a.png");
    assert UploadOnCloudinary(Some("/tmp/a.png"), AnyUpload) == Some("https://img");
  }

  /** A record that passes validation and the unique index is inserted under
      the next id with its password hashed. */
  lemma CreateAccepts(s: UserState, u: User, hash: Hasher, issue: TokenIssuer, nodeEnv: Option<string>)
    requires !LacksRequiredField(u) && !EmailTaken(s.users, u.email)
    ensures Create(s, u, hash, issue, nodeEnv).reply.status == 201
    ensures Create(s, u, hash, issue, nodeEnv).state
            == UserState(s.users[s.nextId := u.(password := hash(u.password, SaltRounds))], s.nextId + 1)
  {
  }

  lemma TrimNames()
    ensures Trim("Al") == "Al" && Trim("al") == "al"
  {
    TrimUnspaced("Al");
    TrimUnspaced("al");
  }

  lemma TrimEmails()
    ensures Trim("b@x") == "b@x" && Trim("A@x") == "A@x"
  {
    TrimUnspaced("b@x");
    TrimUnspaced("A@x");
  }

  lemma CaseLiterals()
    ensures ToUpperCase("al") == "AL" && ToLowerCase("b@x") == "b@x" && ToLowerCase("A@x") == "a@x"
  {
  }

  lemma NormaliseSecondAl()
    ensures Normalised("Al", "b@x", "al", "pw", "https://img")
            == User("Al", "AL", "b@x", "https://img", "pw", None, None)
  {
    TrimNames();
    TrimEmails();
    CaseLiterals();
  }

  lemma NormaliseBo()
    ensures Normalised("Bo", "A@x", "bo", "pw", "https://img").email == "a@x"
  {
    TrimEmails();
    CaseLiterals();
  }

  /** Past the duplicate check, registering "al" again is `Create` on the
      record with username "AL". */
  lemma SecondAlReachesCreate(s: UserState, hash: Hasher, nodeEnv: Option<string>)
    requires forall k :: k in s.users ==> s.users[k].email != "b@x" && s.users[k].username != "al"
    ensures !DuplicateAsWritten(s.users, "b@x", "al")
    ensures RegisterSpec(s, RegisterBody(Some("Al"), Some("b@x"), Some("al"), Some("pw")),
                         OneImage, AnyUpload, hash, AnyIssuer, nodeEnv)
            == Create(s, User("Al", "AL", "b@x", "https://img", "pw", None, None), hash, AnyIssuer, nodeEnv)
  {
    ReachesCreate(s, RegisterBody(Some("Al"), Some("b@x"), Some("al"), Some("pw")), hash, nodeEnv);
    NormaliseSecondAl();
  }

  /** Registering "al" again, with an email nobody has, passes the duplicate
      check whenever no stored username is the lower-case "al", and stores a
      second user named "AL" next to the first: the check sees only the raw
      input, and the schema enforces no unique username. */
  lemma CaseVariantUsernameRegistered(s: UserState, id: ObjectId, hash: Hasher, nodeEnv: Option<string>)
    requires IdsBelow(s) && id in s.users && s.users[id].username == "AL"
    requires forall k :: k in s.users ==> s.users[k].email != "b@x" && s.users[k].username != "al"
    ensures var body := RegisterBody(Some("Al"), Some("b@x"), Some("al"), Some("pw"));
            var r := RegisterSpec(s, body, OneImage, AnyUpload, hash, AnyIssuer, nodeEnv);
            && !DuplicateAsWritten(s.users, "b@x", "al")
            && r.reply.status == 201
            && id in r.state.users && s.nextId in r.state.users && id != s.nextId
            && r.state.users[id].username == r.state.users[s.nextId].username == "AL"
  {
    SecondAlReachesCreate(s, hash, nodeEnv);
    var u := User("Al", "AL", "b@x", "https://img", "pw", None, None);
    assert !EmailTaken(s.users, u.email);
    CreateAccepts(s, u, hash, AnyIssuer, nodeEnv);
  }

  lemma TrimFirstEmail()
    ensures Trim("a@x") == "a@x"
  {
    TrimUnspaced("a@x");
  }

  lemma LowerFirstEmail()
    ensures ToLowerCase("a@x") == "a@x"
  {
  }

  lemma NormaliseFirstAl()
    ensures Normalised("Al", "a@x", "al", "pw", "https://img")
            == User("Al", "AL", "a@x", "https://img", "pw", None, None)
  {
    TrimNames();
    TrimFirstEmail();
    LowerFirstEmail();
    CaseLiterals();
  }

  /** Past the checks, the first registration of "al" is `Create` on the
      normalised record. */
  lemma FirstAlReachesCreate(hash: Hasher, nodeEnv: Option<string>)
    ensures RegisterSpec(UserState(map[], 0), RegisterBody(Some("Al"), Some("a@x"), Some("al"), Some("pw")),
                         OneImage, AnyUpload, hash, AnyIssuer, nodeEnv)
            == Create(UserState(map[], 0), User("Al", "AL", "a@x", "https://img", "pw", None, None),
                      hash, AnyIssuer, nodeEnv)
  {
    var body := RegisterBody(Some("Al"), Some("a@x"), Some("al"), Some("pw"));
    assert !MissingField(body);
    ReachesCreate(UserState(map[], 0), body, hash, nodeEnv);
    NormaliseFirstAl();
  }

  /** Registering "al" with email "a@x" into an empty collection gives
      `AlState`, once the hasher turns "pw" into "h". */
  lemma AlStateRegistered(hash: Hasher, nodeEnv: Option<string>)
    requires hash("pw", SaltRounds) == "h"
    ensures var body := RegisterBody(Some("Al"), Some("a@x"), Some("al"), Some("pw"));
            var r := RegisterSpec(UserState(map[], 0), body, OneImage, AnyUpload, hash, AnyIssuer, nodeEnv);
            r.reply.status == 201 && r.state == AlState
  {
    var u := User("Al", "AL", "a@x", "https://img", "pw", None, None);
    FirstAlReachesCreate(hash, nodeEnv);
    CreateAccepts(UserState(map[], 0), u, hash, AnyIssuer, nodeEnv);
    assert u.(password := hash(u.password, SaltRounds)) == AlState.users[0];
  }

  /** The collection after one registration of "al" satisfies the premises above. */
  lemma AlStateAdmitsVariant()
    ensures IdsBelow(AlState) && 0 in AlState.users && AlState.users[0].username == "AL"
    ensures forall k :: k in AlState.users ==>
              AlState.users[k].email != "b@x" && AlState.users[k].username != "al"
  {
    assert AlState.users.Keys == {0};
    assert "b@x"[0] != "a@x"[0] && "al"[0] != "AL"[0];
  }

  /** The same email in another case passes the duplicate check too, but the
      unique email index then rejects the insert, so the client gets 500. */
  lemma CaseVariantEmailAnswered500(hash: Hasher, nodeEnv: Option<string>)
    ensures var body := RegisterBody(Some("Bo"), Some("A@x"), Some("bo"), Some("pw"));
            var r := RegisterSpec(AlState, body, OneImage, AnyUpload, hash, AnyIssuer, nodeEnv);
            && !DuplicateAsWritten(AlState.users, "A@x", "bo")
            && r.reply.status == 500 && r.state == AlState
  {
    var body := RegisterBody(Some("Bo"), Some("A@x"), Some("bo"), Some("pw"));
    var users := AlState.users;
    assert users.Keys == {0};
    assert "A@x"[0] != users[0].email[0];
    assert !DuplicateAsWritten(users, "A@x", "bo");
    ReachesCreate(AlState, body, hash, nodeEnv);
    NormaliseBo();
    var u := Normalised("Bo", "A@x", "bo", "pw", "https://img");
    assert EmailTaken(users, u.email) by {
      assert users[0].email == u.email;
    }
    assert Create(AlState, u, hash, AnyIssuer, nodeEnv) == Fail(AlState, 500);
  }

  /** The evidently intended duplicate check: compare the normalised input with
      the stored, normalised values. */
  predicate DuplicateNormalised(users: map<ObjectId, User>, email: string, username: string) {
    exists id :: id in users && (users[id].email == ToLowerCase(Trim(email))
                                 || users[id].username == ToUpperCase(Trim(username)))
  }

  /** With the intended check, a username that differs from a stored user's
      original input only in letter case or surrounding white space is
      rejected. */
  lemma NormalisedCheckRejectsVariants(users: map<ObjectId, User>, id: ObjectId, original: string,
                                       email: string, username: string, pre: string, suf: string)
    requires id in users && users[id].username == ToUpperCase(Trim(original))
    requires AllWhiteSpace(pre) && AllWhiteSpace(suf)
    requires SameIgnoringCase(Trim(username), Trim(original))
    ensures DuplicateNormalised(users, email, username)
    ensures DuplicateNormalised(users, email, pre + username + suf)
  {
    UpperCaseIdentifiesCaseVariants(Trim(username), Trim(original));
    var padded := pre + username + suf;
    TrimAbsorbsPadding(pre, username, suf);
    assert users[id].username == ToUpperCase(Trim(padded));
  }

  /** Every stored email and username is already in normalised form, as
      `User.create` stores them. */
  predicate StoredNormalised(users: map<ObjectId, User>) {
    forall id :: id in users ==>
      ToLowerCase(Trim(users[id].email)) == users[id].email
      && ToUpperCase(Trim(users[id].username)) == users[id].username
  }

  /** The intended check loses nothing: over normalised stored values, every
      input the raw check rejects is rejected by the normalised one too. */
  lemma RawDuplicateStillCaught(users: map<ObjectId, User>, email: string, username: string)
    requires StoredNormalised(users)
    requires DuplicateAsWritten(users, email, username)
    ensures DuplicateNormalised(users, email, username)
  {
    var id :| id in users && (users[id].email == email || users[id].username == username);
    assert users[id].email == ToLowerCase(Trim(users[id].email));
  }
}
