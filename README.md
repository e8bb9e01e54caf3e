# Blog API handlers — a Dafny model

This project models the request-handling core of a small Express/Mongoose/Redis
blog API:

- the blog handlers (create, read, list, update, delete, like, unlike, comment,
  delete comment) and the merge loop that maintains the cached `TAG` list;
- user registration, with its ordered checks, input normalisation, the User
  schema's `required`/`unique` rules and the password-hashing pre-save hook;
- the `auth` gate, which picks a token, verifies it and attaches `req.user`;
- the `ApiError`/`ApiResponse` envelopes and the `AsyncHandler` wrapper, which
  turns a throw into a status code.

The database, Redis, Cloudinary, bcrypt and jwt are replaced by in-memory maps
and oracle functions passed as parameters.

Each handler is a method of a store class (`BlogController.BlogStore`,
`UserController.UserStore`). Its postcondition pins the status it answers and
the store it leaves to a function of the store before the request
(`CreateSpec`, `UpdateSpec`, …, `RegisterSpec`). What the handlers promise is
proved about those functions: the status codes and the states left unchanged,
exactly what is added or removed, the invariants kept, and the round trips.
The actor of every blog handler is `req.user._id`, as the `auth` gate attached it.

The model follows the code as written, defects included. The blog documents
carry one `owner` field, set at creation and compared on update and delete. The
controller writes and reads `author`, while the schema declares `createdBy`
(src/model/Blog.model.js:46). Comments form a recursive tree, as the
`replies: [this]` declaration intends. In an ES module `this` at top level is
`undefined`, so that declaration does not actually give the schema its own type.

Modules: `Js` (JavaScript truthiness and the `trim`, `toLowerCase`,
`toUpperCase`, `indexOf` and `replace` built-ins), `Mongoose` (schema options),
`Http` (request files and the upload oracle), `Util`, `BlogModel`, `UserModel`,
`AuthMiddleware`, `UserController` and `BlogController`.

## Model

| member | source | states |
|---|---|---|
| Util.NewApiError | src/util/index.js:1-14 | an ApiError keeps its status code, is never successful, has null data, and defaults its message to "Something went wrong" and its errors to [] |
| Util.NewApiResponse | src/util/index.js:23-29 | success holds exactly when the status is below 400; data is kept; the message defaults to "Success" |
| Util.StatusProperty | src/util/index.js:9 | a thrown ApiError carries no `status` property (it sets `statusCode`) |
| Util.ErrorStatus | src/util/index.js:36 | `error.status \|\| 500`: the status when set and non-zero, 500 when absent, never 0 |
| Util.Response.AsyncHandler | src/util/index.js:32-40 | a returned value passes through and the response is untouched; a throw writes status `error.status \|\| 500` and body `{success: false, message}` |
| Util.ThrownApiErrorAnswered500 | src/util/index.js:36 | every thrown ApiError, whatever its code, is answered 500 with its own message |
| Util.Thrown401Becomes500 | src/middleware/auth.middleware.js:26 | the 401 ApiError the gate throws comes back as 500 |
| Util.IntendedErrorStatus | src/util/index.js:36 | corrected rule: an ApiError is answered with its own statusCode; other errors as before |
| Util.IntendedStatusKeepsApiErrorCode | src/util/index.js:36 | under the corrected rule a thrown ApiError keeps its code; the two rules agree exactly on code 500 |
| Js.Trim | src/controller/User.controller.js:31-33 | `trim` yields a string with no white space at either end, no longer than the input |
| Js.TrimPadded | src/controller/User.controller.js:31-33 | trimming white-space padding around an unpadded core gives exactly the core |
| Js.TrimAbsorbsPadding | src/controller/User.controller.js:31-33 | extra white space around a string does not change its trim |
| Js.TrimIdempotent | src/controller/User.controller.js:31-33 | trimming twice is trimming once |
| Js.TrimUnpadded | src/controller/User.controller.js:31-33 | a string with no white space at either end is its own trim |
| Js.ToLowerCase | src/controller/User.controller.js:32 | same length, each character mapped by the ASCII lower-case map, so no upper-case ASCII letter is left and every other character is unchanged |
| Js.ToUpperCase | src/controller/User.controller.js:33 | same length, each character mapped by the ASCII upper-case map, so no lower-case ASCII letter is left and every other character is unchanged |
| Js.UpperCaseIdentifiesCaseVariants | src/controller/User.controller.js:33 | two strings upper-case to the same string exactly when they differ only in letter case |
| Js.IndexOf | src/middleware/auth.middleware.js:7 | `indexOf` finds the first occurrence, and finds none exactly when there is no occurrence |
| Js.RemoveFirst | src/middleware/auth.middleware.js:7 | `replace` with a string pattern cuts out the first occurrence wherever it stands, and leaves a string without one unchanged |
| Js.RemoveFirstPrefix | src/middleware/auth.middleware.js:7 | removing a prefix from prefix + rest gives rest |
| Http.UploadOnCloudinary | src/util/cloudinary.js:10-24 | nothing is uploaded for a falsy path; otherwise the result is the upload's |
| Http.FirstImagePath | src/controller/Blog.controller.js:27 | `req.files.image[0].path` has a value exactly when files, `image` and its first entry all exist, and the value is that first entry's path |
| BlogModel.NewComment | src/model/Blog.model.js:3-15 | a new comment holds its content and user, and its replies default to [] |
| BlogModel.CommentValid | src/model/Blog.model.js:3-15 | a comment tree validates when every node has non-empty content |
| BlogModel.NewBlog | src/model/Blog.model.js:20-45 | a new blog holds its title, content, image and owner; tags default to [] and likes and comments are empty |
| BlogModel.BlogValid | src/model/Blog.model.js:20-45 | a blog validates when its title, content and image are non-empty strings |
| BlogModel.BlogRequiredFields | src/model/Blog.model.js:21-32 | a blog validates exactly when title, content and image are non-empty; tags, likes and comments play no part |
| BlogModel.SchemaAllowsRepeatedLikes | src/model/Blog.model.js:37-41 | the schema accepts a blog liked twice by the same user |
| BlogModel.NestedReplyInvalidates | src/model/Blog.model.js:12-15 | a direct reply without valid content invalidates its parent, whose tree is strictly larger than the reply's |
| BlogModel.InvalidDescendantInvalidates | src/model/Blog.model.js:3-15 | an invalid comment at any depth of the reply tree invalidates the root, whose tree is strictly larger |
| UserModel.OnlyEmailIsUnique | src/model/User.model.js:13-18 | email is the only unique path; username's misspelt `unqiue` option creates no index |
| UserModel.RequiredUserPaths | src/model/User.model.js:5-36 | the required paths are exactly name, username, email, image and password |
| UserModel.MissesRequiredPathIff | src/model/User.model.js:5-36 | the schema's required rule refuses exactly the records with one of the five required strings empty |
| UserModel.ViolatesUniqueIndexIff | src/model/User.model.js:15-19 | an insert collides with the unique indexes exactly when a stored user has the same email; equal usernames pass |
| UserModel.VerifyAfterSave | src/model/User.model.js:38-47 | with a collision-free hash, after a hashing save the comparison accepts exactly the password that was set, and a later save without a new password keeps the digest |
| UserModel.Compare | src/model/User.model.js:45-47 | `bcrypt.compare` accepts a candidate exactly when it hashes to the stored digest |
| UserModel.UserDocument.VerifyPassword | src/model/User.model.js:45-47 | `verifyPassword` compares the candidate with the document's stored password digest |
| UserModel.AccessTokenRequest | src/model/User.model.js:49-61 | `generateAccessToken` signs the claims `{_id, email, userId}` with the access secret for seven days |
| UserModel.RefreshTokenRequest | src/model/User.model.js:64-76 | `generateRefreshToken` signs the same claims with the refresh secret for thirty days |
| UserModel.UserDocument.constructor | src/controller/User.controller.js:30-36 | a new document holds the given fields and counts its password as modified |
| UserModel.UserDocument.PreSave | src/model/User.model.js:38-43 | the hook re-hashes the password exactly when it was modified, and leaves it as it was otherwise |
| UserModel.UserDocument.Save | src/model/User.model.js:38-47 | saving runs the hook and clears the modified flag; after a save that hashed, `verifyPassword` accepts exactly the old password (hash collision-free) |
| UserModel.TokenPairShape | src/model/User.model.js:49-76 | both tokens carry the same claims `{_id, email, userId}` with `userId` undefined, use different secrets, and expire in 7 and 30 days |
| AuthMiddleware.SelectedUser | src/middleware/auth.middleware.js:15 | `req.user` drops the password but keeps `access_token` and `refresh_token`, which the deselection misnames |
| AuthMiddleware.SelectToken | src/middleware/auth.middleware.js:7 | the token is the cookie when there is no header, and otherwise either the cookie or the header with its first "Bearer " cut out, the latter only when non-empty |
| AuthMiddleware.Resolve | src/middleware/auth.middleware.js:7-22 | no truthy token fails with "no token"; a resolved user comes from a truthy token that verifies to the id of a stored user, and is that user with its selected fields |
| AuthMiddleware.Authenticate | src/middleware/auth.middleware.js:5-28 | the gate rejects exactly when token selection, verification or the user lookup fails, and every rejection is the same ApiError(401, "Unable to authenticate") |
| AuthMiddleware.Request.Auth | src/middleware/auth.middleware.js:21-27 | on success `req.user` is set and `next` is called exactly once; on failure the 401 error is thrown, `req.user` is untouched and `next` is not called |
| AuthMiddleware.BearerHeaderToken | src/middleware/auth.middleware.js:7 | "Bearer " + token yields the token |
| AuthMiddleware.UnprefixedHeaderUsedAsIs | src/middleware/auth.middleware.js:7 | a non-empty header without "Bearer " is used unchanged as the token |
| AuthMiddleware.BasicHeaderUsedAsToken | src/middleware/auth.middleware.js:7 | "Basic x" is passed on as the token |
| AuthMiddleware.RemovalNotAnchored | src/middleware/auth.middleware.js:7 | "xBearer y" yields "xy": the first "Bearer " is cut out wherever it stands |
| AuthMiddleware.CookieFallback | src/middleware/auth.middleware.js:7 | the cookie is used exactly when the header is absent or empties out; otherwise the stripped header is |
| AuthMiddleware.PassedIff | src/middleware/auth.middleware.js:7-22 | the gate passes exactly when a truthy token verifies to the id of a stored user, and then attaches that user |
| AuthMiddleware.RejectionAnswered500 | src/middleware/auth.middleware.js:24-27 | every rejection is a 401 ApiError with "Unable to authenticate", answered 500 by AsyncHandler |
| AuthMiddleware.NoCredentialRejected | src/middleware/auth.middleware.js:9-11 | with neither header nor cookie the gate rejects before verification |
| UserController.RegisterImagePath | src/controller/User.controller.js:20 | `req?.files?.image[0]?.path` throws exactly when files exist without an `image` key, and finds a path exactly when the first entry exists with a non-empty path, which it returns |
| UserController.MissingField | src/controller/User.controller.js:10 | a request lacks a field when name, email, username or password is absent or empty |
| UserController.DuplicateAsWritten | src/controller/User.controller.js:14 | the lookup matches when some stored user has exactly the submitted email or exactly the submitted username |
| UserController.RegisterSpec | src/controller/User.controller.js:6-59 | the answer is 201, 400 or 500; 400 exactly when a field is missing, a stored user matches, or the image path is falsy; any answer but 201 stores nothing and sends no data or cookies; 201 adds exactly the next id |
| UserController.Create | src/controller/User.controller.js:30-54 | the insert answers 201 or 500; 500 exactly when a required path is empty or the email is taken, storing nothing; 201 adds exactly the next id |
| UserController.Normalised | src/controller/User.controller.js:30-36 | the record given to `User.create` keeps the password and image as sent and has no tokens |
| UserController.UserStore.RegisterUser | src/controller/User.controller.js:6-59 | the reply and the new collection are `RegisterSpec` (the registration rules) applied to the old collection, and stored ids stay below the counter |
| UserController.UserStore.CreateUser | src/controller/User.controller.js:30-54 | the insert step as a state change: reply and new collection are `Create` applied to the old collection (a 500 refusal, or the hashed record inserted under the next id with its reply), ids kept below the counter |
| UserController.MissingFieldRejected | src/controller/User.controller.js:10-12 | a missing or empty field is answered 400 and nothing is stored |
| UserController.ExactDuplicateRejected | src/controller/User.controller.js:14-18 | a stored user with exactly the submitted email or username makes the answer 400, storing nothing |
| UserController.CheckOrder | src/controller/User.controller.js:10-28 | once the field and duplicate checks pass, a falsy image path gives 400, a missing `image` key 500 and a failed upload 500, in that order |
| UserController.CreateStoresOnlyOnSuccess | src/controller/User.controller.js:30-40 | the insert step changes the collection exactly when it answers 201, and then adds one user under the next id |
| UserController.OnlySuccessStores | src/controller/User.controller.js:10-54 | any answer but 201 leaves the collection as it was; a 201 adds exactly one user under the next id and touches no other |
| UserController.RegisteredUserShape | src/controller/User.controller.js:30-36 | a registered user is stored under the next id with the trimmed name, trimmed lower-case email, trimmed upper-case username and hashed password |
| UserController.RegisteredReplyShape | src/controller/User.controller.js:44-54 | the 201 reply repeats the stored fields without the password, adds both tokens, and sets two http-only cookies, secure exactly in production |
| UserController.RegisteredThroughCreate | src/controller/User.controller.js:10-36 | a 201 means every field was present and the answer is the insert step's on the normalised record with the uploaded image's URL |
| UserController.CreatedShape | src/controller/User.controller.js:30-54 | a successful insert stores the record with its password hashed under the next id and announces it with its view and the two cookies |
| UserController.RegisteredPasswordVerifies | src/controller/User.controller.js:30-36 | a registered user's stored digest accepts exactly the password sent (hash collision-free) |
| UserController.CreateAccepts | src/controller/User.controller.js:30-36 | a record that passes validation and the unique index is inserted under the next id with its password hashed |
| UserController.CaseVariantUsernameRegistered | src/controller/User.controller.js:14 | registering "al" next to a stored "AL" passes the duplicate check and stores a second "AL" user |
| UserController.AlStateRegistered | src/controller/User.controller.js:6-54 | registering "al" with email "a@x" into an empty collection answers 201 and leaves exactly the one-user collection the case-variant lemmas start from |
| UserController.AlStateAdmitsVariant | src/controller/User.controller.js:14 | the collection after one registration of "al" meets the premises of the case-variant lemma: its one user is "AL" and no stored username is "al" |
| UserController.CaseVariantEmailAnswered500 | src/controller/User.controller.js:14 | an email differing only in case passes the duplicate check and then fails the unique index with 500, storing nothing |
| UserController.NormalisedCheckRejectsVariants | src/controller/User.controller.js:14 | corrected check: a username differing from a stored one only in case or surrounding white space is caught |
| UserController.RawDuplicateStillCaught | src/controller/User.controller.js:14-18 | corrected check loses nothing: over normalised stored values, every input the raw lookup matches is matched by the normalised lookup too |
| BlogController.LastMissing | src/controller/Blog.controller.js:35-39 | the result is absent exactly when every tag is cached, and is otherwise the last uncached tag of the request |
| BlogController.TagsAfterMerge | src/controller/Blog.controller.js:33-39 | with the key unset the cache stays unset; otherwise the old cache stays a prefix and at most one tag is added |
| BlogController.MergeShape | src/controller/Blog.controller.js:33-39 | the merge leaves the cache as it was or appends one new requested tag; it changes nothing exactly when every tag was cached |
| BlogController.MergeLosesTag | src/controller/Blog.controller.js:33-39 | with an empty cache, tags ["a", "b"] leave ["b"]: "a" is lost |
| BlogController.UnionTags | src/controller/Blog.controller.js:33-39 | corrected merge: the cache stays a prefix, every requested tag is present, and nothing else is added |
| BlogController.UnionTagsKeepsEveryTag | src/controller/Blog.controller.js:33-39 | the corrected merge loses no tag and keeps a repeat-free cache repeat-free |
| BlogController.MergeAgreesWhenOneTagIsNew | src/controller/Blog.controller.js:33-39 | for a single requested tag the merge as written and the corrected one agree |
| BlogController.BlogStore.MergeTags | src/controller/Blog.controller.js:33-39 | the loop over the tags leaves the cache as the snapshot-based merge prescribes |
| BlogController.RemoveAll | src/controller/Blog.controller.js:219-221 | `$pull` leaves no occurrence of the actor and adds no one |
| BlogController.RemoveAllConcat | src/controller/Blog.controller.js:219-221 | removal distributes over concatenation, so the remaining likers keep their order |
| BlogController.RemoveAllMultiset | src/controller/Blog.controller.js:219-221 | removal takes out exactly the actor's occurrences: the multiset loses the actor and nothing else |
| BlogController.RemoveAllAbsent | src/controller/Blog.controller.js:219-221 | a list without the actor is left as it is |
| BlogController.FindComment | src/controller/Blog.controller.js:272 | `find` yields nothing exactly when no comment has the id, and otherwise the first comment that has it |
| BlogController.RemoveComment | src/controller/Blog.controller.js:282-284 | `$pull` by id keeps exactly the comments with another id |
| BlogController.RemoveCommentAt | src/controller/Blog.controller.js:282-284 | with unique ids, removing a comment by its id removes that one comment and keeps the rest in order |
| BlogController.RemoveCommentConcat | src/controller/Blog.controller.js:282-284 | removal by id distributes over concatenation |
| BlogController.GetBlog | src/controller/Blog.controller.js:86-100 | 404 exactly for an unknown id, otherwise 200 with the stored blog |
| BlogController.GetBlogs | src/controller/Blog.controller.js:62-84 | always 200; the listing holds exactly the stored blogs whose tags meet the requested tags, unchanged |
| BlogController.GetBlogsFilters | src/controller/Blog.controller.js:66-72 | without a tags query every blog is listed; with an empty list none is |
| BlogController.CreateSpec | src/controller/Blog.controller.js:19-60 | the answer is 201, 400 or 500; a 400 changes nothing; any answer but 201 adds no blog |
| BlogController.Insert | src/controller/Blog.controller.js:33-54 | after the upload the cache is always merged; the answer is 201 or 500; 500 adds no blog; 201 adds the next id, owned by the actor |
| BlogController.Patched | src/controller/Blog.controller.js:114-143 | the patch keeps likes, comments and owner, and an empty patch without an image changes nothing |
| BlogController.UpdateSpec | src/controller/Blog.controller.js:102-155 | the answer is 200, 403, 404 or 500; 403 and 404 change nothing; any answer but 200 changes no blog; no blog is added or removed; once the owner check passes, the `TAG` cache is merged with the body's tags when it has them, even when the image step then answers 500 |
| BlogController.DeleteSpec | src/controller/Blog.controller.js:157-177 | the answer is 200, 403 or 404; any answer but 200 changes nothing; the cache and counter never change |
| BlogController.LikeSpec | src/controller/Blog.controller.js:179-205 | the answer is 200, 400 or 404; any answer but 200 changes nothing; after 200 the actor is among the likers; no blog is added or removed |
| BlogController.UnlikeSpec | src/controller/Blog.controller.js:207-233 | the answer is 200, 400 or 404; any answer but 200 changes nothing; after 200 the actor is not among the likers; no blog is added or removed |
| BlogController.CommentSpec | src/controller/Blog.controller.js:235-262 | 200 exactly for an existing blog, otherwise 404 with nothing changed; no blog is added or removed |
| BlogController.MayDeleteCommentAsWritten | src/controller/Blog.controller.js:278 | the condition as written admits exactly an actor who is both the comment's author and the blog's owner |
| BlogController.DeleteCommentSpec | src/controller/Blog.controller.js:264-296 | the answer is 200, 403, 404 or 500; any answer but 200 changes nothing; no blog is added or removed and the cache and counter never change |
| BlogController.MatchesTags | src/controller/Blog.controller.js:66-72 | a blog matches when there is no tags query, or when it shares a tag with the requested list |
| BlogController.BlogStore.CreateBlog | src/controller/Blog.controller.js:19-60 | status and new store are `CreateSpec` (the creation rules) applied to the old store, and a store meeting the store invariant still meets it |
| BlogController.BlogStore.UpdateBlog | src/controller/Blog.controller.js:102-155 | status and new store are `UpdateSpec` (the update rules) applied to the old store, and a store meeting the store invariant still meets it |
| BlogController.BlogStore.DeleteBlog | src/controller/Blog.controller.js:157-177 | status and new store are `DeleteSpec` (the delete rules) applied to the old store, and a store meeting the store invariant still meets it |
| BlogController.BlogStore.LikeBlog | src/controller/Blog.controller.js:179-205 | status and new store are `LikeSpec` (the like rules) applied to the old store, and a store meeting the store invariant still meets it |
| BlogController.BlogStore.UnlikeBlog | src/controller/Blog.controller.js:207-233 | status and new store are `UnlikeSpec` (the unlike rules) applied to the old store, and a store meeting the store invariant still meets it |
| BlogController.BlogStore.CommentOnBlog | src/controller/Blog.controller.js:235-262 | status and new store are `CommentSpec` (the comment rules) applied to the old store, and a store meeting the store invariant still meets it |
| BlogController.BlogStore.DeleteComment | src/controller/Blog.controller.js:264-296 | status and new store are `DeleteCommentSpec` (the delete-comment rules) applied to the old store, and a store meeting the store invariant still meets it |
| BlogController.CreateRejectsMissingFields | src/controller/Blog.controller.js:23-25 | a falsy title, content or tags is answered 400 and changes nothing, the cache included |
| BlogController.CreateOutcome | src/controller/Blog.controller.js:23-54 | 201 exactly when the fields are present, an image was sent and uploaded to a non-empty URL; then exactly one blog is added under the next id, owned by the actor, with the given fields and empty likes and comments, and in a valid store that id was free, so the keys grow by exactly that id; any other answer adds nothing |
| BlogController.RefusedBlogStillMergesTags | src/controller/Blog.controller.js:33-47 | a blog the validator refuses is answered 500 and not stored, but its tags have already reached the cache |
| BlogController.UpdateDeleteGuards | src/controller/Blog.controller.js:104-112 | update and delete answer 404 for an unknown id and 403 for a blog the actor does not own, changing nothing |
| BlogController.DeleteRemovesExactlyThatBlog | src/controller/Blog.controller.js:159-169 | delete succeeds exactly for an existing blog the actor owns, and then removes that blog and no other |
| BlogController.UpdateTouchesOnlyPatch | src/controller/Blog.controller.js:114-143 | a successful update changes only that blog, and in it only the title, content and tags present in the body and the image when one was uploaded; the `TAG` cache is merged with the body's tags when it has them and unchanged otherwise |
| BlogController.UpdateWithoutFilesFails | src/controller/Blog.controller.js:133 | an update without multipart files is answered 500 and changes no blog |
| BlogController.LikeOutcome | src/controller/Blog.controller.js:181-193 | 404 for an unknown blog; 400 and no change when already liked; otherwise the actor is appended and the likes grow by one |
| BlogController.LikeTwiceRejected | src/controller/Blog.controller.js:187-193 | a second like by the same actor is refused with 400 and the first stays |
| BlogController.UnlikeOutcome | src/controller/Blog.controller.js:209-221 | 404 for an unknown blog; 400 and no change when not liked; otherwise every occurrence of the actor goes, the others stay, and nothing else changes |
| BlogController.LikeThenUnlikeRestores | src/controller/Blog.controller.js:187-221 | like followed by unlike gives back the store as it was |
| BlogController.CommentAppends | src/controller/Blog.controller.js:237-250 | 404 for an unknown blog; otherwise exactly one comment with the next id, the given content and the actor as user is appended at the end, and nothing else changes; in a valid store no comment of that blog already has that id |
| BlogController.EmptyCommentStored | src/controller/Blog.controller.js:243-250 | a comment without content is stored although the schema requires content |
| BlogController.DeleteCommentRejections | src/controller/Blog.controller.js:266-280 | 404 for a missing blog or comment id; 500 for a comment without a user; for a comment with a user, 200 exactly when the actor is both its author and the blog's owner and 403 otherwise; any answer but 200 changes nothing |
| BlogController.DeleteCommentPullsById | src/controller/Blog.controller.js:282-284 | a successful delete pulls the comments with that id from that blog and changes no other blog |
| BlogController.DeleteCommentRemovesOne | src/controller/Blog.controller.js:272-284 | when comment ids are unique, a successful delete removes exactly one comment with that id, the others keeping their order |
| BlogController.IntendedRuleAdmitsEitherParty | src/controller/Blog.controller.js:278 | corrected rule: the deletion succeeds exactly for the comment's author or the blog's owner, and the id is then gone |
| BlogController.WrittenRuleStricterThanIntended | src/controller/Blog.controller.js:278 | every deletion the written rule allows, the corrected one allows with the same result, but not conversely |
| BlogController.AuthorCannotDeleteOwnComment | src/controller/Blog.controller.js:278 | user 2 cannot delete their own comment on user 1's blog (403), where the corrected rule answers 200 |
| BlogController.CreatePreservesValid | src/controller/Blog.controller.js:41-47 | creation keeps the store invariant: ids below the counter, no repeated likers, unique comment ids |
| BlogController.UpdatePreservesValid | src/controller/Blog.controller.js:143 | update keeps the store invariant |
| BlogController.DeletePreservesValid | src/controller/Blog.controller.js:169 | delete keeps the store invariant |
| BlogController.LikePreservesValid | src/controller/Blog.controller.js:187-193 | like keeps the likers repeat-free: the duplicate check makes the push safe |
| BlogController.UnlikePreservesValid | src/controller/Blog.controller.js:219-221 | unlike keeps the store invariant |
| BlogController.CommentPreservesValid | src/controller/Blog.controller.js:243-250 | a comment with a fresh id keeps the comment ids unique and below the counter |
| BlogController.DeleteCommentPreservesValid | src/controller/Blog.controller.js:282-284 | deleting comments keeps the comment ids unique |

## Left out

- Concurrency is not modelled; requests run one after another. This leaves out the unawaited Redis writes racing each other and the window between `findById` and the update, which lets concurrent likes both pass the duplicate check.
- Redis stores the `TAG` value as a string, so `includes` is really a substring test. The model keeps a list of tags and tests membership.
- With `TAG` unset, each merge callback rejects and nothing is written. The unhandled rejection this leaves (which can stop the Node process) is not modelled.
- Cloudinary and the file system are reduced to an oracle from a local path to an optional URL. Deleting the local file is not modelled.
- bcrypt is a deterministic hash oracle, and `compare` is equality of digests. Salts are not modelled.
- jwt signing is recorded as the arguments of `jwt.sign`: claims, secret and expiry. Verification is an oracle, and no clock is modelled.
- src/util/TokenGeneration.js is not part of this model. `generateToken` is an oracle that always returns a token pair, so a failure after the user is inserted is not modelled. The model also assumes that it does not write the stored user's `access_token` and `refresh_token` paths: the reply's view reports the stored values, which stay absent.
- Mongoose `populate`, timestamps, `__v` and ObjectId casting are not modelled. A malformed id raises a CastError, which is answered 500. Ids are compared by plain equality instead of through `toString()`.
- Mongoose's strict schema would drop the `author` field that the controller writes, since the schema names it `createdBy`. Reading `blog.author.toString()` would then throw. The model keeps a single `owner` field and does not model that drop.
- The CommentSchema's `replies: [this]` is modelled as the recursive tree it is meant to declare.
- The `if (!blog)`, `if (!updatedBlog)` and `if (!user)` branches that answer 500 cannot be reached when requests run one after another, so they are not modelled.
- Some request shapes are left out:
  - `tags` given as a single string in a body (its `forEach` throws). A single string in a query is cast by Mongoose to a one-element list, which the model's list of wanted tags already covers;
  - `null` field values;
  - any value that is neither absent nor a string (or a list of strings for tags).
- Response messages and JSON bodies are not modelled, except RegisterUser's data and cookies. Logging and `Error.captureStackTrace` are not modelled either.
- `GetTags` is left out: it passes the raw Redis value through.
- `toLowerCase` and `toUpperCase` map ASCII letters only. White space follows the ECMAScript WhiteSpace and LineTerminator set.
- Express wiring, routing and start-up are not modelled. The `actor` parameter stands for the `req.user._id` that the routes' `auth` gate provides.
- The order of the blogs that `GetBlogs` lists is not modelled; the result is a map.
- `req.user` is a record of the selected fields, not a Mongoose document.

## Findings

| source | as written | input that shows it | evidently intended | confidence | as-written member | corrected member |
|---|---|---|---|---|---|---|
| src/util/index.js:36 | AsyncHandler answers with `error.status \|\| 500`, but ApiError only sets `statusCode` | the auth gate's `new ApiError(401, "Unable to authenticate")` is answered 500 | answer an ApiError with its own statusCode | not executed | Util.Thrown401Becomes500 | Util.IntendedStatusKeepsApiErrorCode |
| src/controller/User.controller.js:14 | the duplicate lookup uses the raw email and username, while stored values are trimmed and case-normalised | registering "al" when "AL" is stored is accepted and creates a second "AL" user | compare the normalised input with the stored values | not executed | UserController.CaseVariantUsernameRegistered | UserController.NormalisedCheckRejectsVariants |
| src/controller/Blog.controller.js:33-39 | every write of `TAG` is the one snapshot plus one tag, so the writes overwrite each other | cache [] and tags ["a", "b"] leave ["b"] | add every missing tag | not executed | BlogController.MergeLosesTag | BlogController.UnionTagsKeepsEveryTag |
| src/controller/Blog.controller.js:278 | `author !== actor \|\| owner !== actor` refuses unless the actor is both | user 2 deleting their own comment on user 1's blog gets 403 | allow the comment's author or the blog's owner | not executed | BlogController.AuthorCannotDeleteOwnComment | BlogController.IntendedRuleAdmitsEitherParty |
