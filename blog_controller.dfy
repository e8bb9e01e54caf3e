/** The blog handlers of src/controller/Blog.controller.js over an in-memory
    store: the blog collection, the cached `TAG` list and an id counter. Each
    handler is a method of `BlogStore` whose effect is pinned to a function of
    the store before the request; the properties are lemmas about those
    functions. The actor is `req.user._id`, as the `auth` gate attached it. */
module BlogController {
  import opened Js
  import opened Mongoose
  import opened Http
  import opened BlogModel

  /** Everything the handlers read and write. Blog and comment ids come from
      one counter, as ObjectIds are never reused. `tagCache` is the `TAG`
      value: `None` when the key is unset (`redisClient.get` gives `null`). */
  datatype BlogState = BlogState(blogs: map<ObjectId, Blog>, tagCache: Option<seq<string>>,
                                 nextId: ObjectId)

  /** The status a handler answers with and the store it leaves behind. */
  datatype Outcome = Outcome(status: int, state: BlogState)

  /** The `req.body` fields the create and update handlers read. For create,
      `None` is a missing value; for update, `None` is a key absent from the
      body (`"title" in req.body` is false). */
  datatype BlogBody = BlogBody(title: Option<string>, content: Option<string>,
                               tags: Option<seq<string>>)

  // ---------------------------------------------------------------------------
  // The tag-cache merge (`tags.forEach(... redisClient.set('TAG', [...oldTags, tag]))`)
  // ---------------------------------------------------------------------------

  /** The last tag of `tags` that the snapshot lacks. */
  function LastMissing(snapshot: seq<string>, tags: seq<string>): (r: Option<string>)
    ensures r.None? <==> forall t :: t in tags ==> t in snapshot
    ensures r.Some? ==> r.value !in snapshot
    ensures r.Some? ==> exists k :: 0 <= k < |tags| && tags[k] == r.value
                                    && forall j :: k < j < |tags| ==> tags[j] in snapshot
  {
    if tags == [] then None
    else
      var n := |tags| - 1;
      assert tags == tags[..n] + [tags[n]];
      if tags[n] !in snapshot then Some(tags[n]) else LastMissing(snapshot, tags[..n])
  }

  /** The cache after the merge: every write is the SNAPSHOT plus one tag, and
      the writes land in order, so only the last missing tag survives. With the
      key unset, `oldTags.includes` throws inside each callback and nothing is
      written. */
  function TagsAfterMerge(cache: Option<seq<string>>, tags: seq<string>): (r: Option<seq<string>>)
    ensures r.None? <==> cache.None?
    ensures r.Some? ==> |cache.value| <= |r.value| <= |cache.value| + 1
                        && r.value[..|cache.value|] == cache.value
  {
    match cache
    case None => None
    case Some(cached) =>
      match LastMissing(cached, tags)
      case None => cache
      case Some(t) => Some(cached + [t])
  }

  /** The merge adds at most one tag, a new one from the request, at the end;
      it changes nothing exactly when every requested tag was already cached. */
  lemma MergeShape(cached: seq<string>, tags: seq<string>)
    ensures TagsAfterMerge(Some(cached), tags) == Some(cached)
            || exists t :: t in tags && t !in cached && TagsAfterMerge(Some(cached), tags) == Some(cached + [t])
    ensures TagsAfterMerge(Some(cached), tags) == Some(cached) <==> forall t :: t in tags ==> t in cached
  {
    var r := LastMissing(cached, tags);
    if r.Some? {
      var k :| 0 <= k < |tags| && tags[k] == r.value && forall j :: k < j < |tags| ==> tags[j] in cached;
      assert tags[k] in tags;
      assert |cached + [r.value]| != |cached|;
    }
  }

  /** The lost update: two new tags "a" and "b" leave only "b" in the cache. */
  lemma MergeLosesTag()
    ensures TagsAfterMerge(Some([]), ["a", "b"]) == Some(["b"])
    ensures "a" !in TagsAfterMerge(Some([]), ["a", "b"]).value
  {
    assert LastMissing([], ["a", "b"]) == Some("b");
    assert [] + ["b"] == ["b"];
  }

  /** The evidently intended merge: the cached tags followed by every requested
      tag not yet present, once each, in request order. */
  function UnionTags(cached: seq<string>, tags: seq<string>): (r: seq<string>)
    ensures |r| >= |cached| && r[..|cached|] == cached
    ensures forall t :: t in tags ==> t in r
    ensures forall t :: t in r ==> t in cached || t in tags
    decreases |tags|
  {
    if tags == [] then cached
    else
      var next := if tags[0] in cached then cached else cached + [tags[0]];
      var r := UnionTags(next, tags[1..]);
      assert r[..|cached|] == r[..|next|][..|cached|];
      assert tags[0] in next;
      assert tags[0] in r[..|next|];
      assert forall t :: t in tags ==> t == tags[0] || t in tags[1..];
      r
  }

  /** With the intended merge no requested tag is lost, and a cache holding each
      tag once still holds each tag once. */
  lemma {:induction false} UnionTagsKeepsEveryTag(cached: seq<string>, tags: seq<string>)
    requires NoRepeats(cached)
    ensures forall t :: t in tags ==> t in UnionTags(cached, tags)
    ensures NoRepeats(UnionTags(cached, tags))
    decreases |tags|
  {
    if tags != [] {
      var next := if tags[0] in cached then cached else cached + [tags[0]];
      if tags[0] !in cached {
        AppendNewKeepsNoRepeats(cached, tags[0]);
      }
      UnionTagsKeepsEveryTag(next, tags[1..]);
      assert UnionTags(cached, tags) == UnionTags(next, tags[1..]);
    }
  }

  /** No element occurs twice. */
  predicate NoRepeats<T(==)>(xs: seq<T>) {
    forall i, j :: 0 <= i < j < |xs| ==> xs[i] != xs[j]
  }

  lemma AppendNewKeepsNoRepeats<T>(xs: seq<T>, x: T)
    requires NoRepeats(xs) && x !in xs
    ensures NoRepeats(xs + [x])
  {
    var ys := xs + [x];
    forall i, j | 0 <= i < j < |ys| ensures ys[i] != ys[j] {
      assert ys[i] == xs[i];
      if j == |xs| { assert ys[j] == x; } else { assert ys[j] == xs[j]; }
    }
  }

  /** Where the request brings at most one new tag, the merge as written and
      the intended one agree. */
  lemma MergeAgreesWhenOneTagIsNew(cached: seq<string>, t: string)
    ensures TagsAfterMerge(Some(cached), [t]) == Some(UnionTags(cached, [t]))
  {
    assert [t][1..] == [];
    if t !in cached {
      assert [t][..0] == [];
    }
  }

  // ---------------------------------------------------------------------------
  // List updates on a stored blog
  // ---------------------------------------------------------------------------

  /** `$pull: {likes: actor}`: every occurrence removed, the rest in order. */
  function RemoveAll(xs: seq<ObjectId>, x: ObjectId): (r: seq<ObjectId>)
    ensures x !in r && |r| <= |xs|
    ensures forall y :: y in r ==> y in xs
  {
    if xs == [] then [] else (if xs[0] == x then [] else [xs[0]]) + RemoveAll(xs[1..], x)
  }

  /** Removal distributes over concatenation, so the other likers keep their order. */
  lemma {:induction false} RemoveAllConcat(a: seq<ObjectId>, b: seq<ObjectId>, x: ObjectId)
    ensures RemoveAll(a + b, x) == RemoveAll(a, x) + RemoveAll(b, x)
  {
    if a != [] {
      var head := if a[0] == x then [] else [a[0]];
      assert (a + b)[0] == a[0];
      assert (a + b)[1..] == a[1..] + b;
      RemoveAllConcat(a[1..], b, x);
      assert RemoveAll(a + b, x) == head + (RemoveAll(a[1..], x) + RemoveAll(b, x));
      assert RemoveAll(a, x) == head + RemoveAll(a[1..], x);
    } else {
      assert a + b == b;
    }
  }

  /** Removal takes out exactly the occurrences of `x`: as multisets, the
      result is the list with the count of `x` set to zero. */
  lemma {:induction false} RemoveAllMultiset(xs: seq<ObjectId>, x: ObjectId)
    ensures multiset(RemoveAll(xs, x)) == multiset(xs)[x := 0]
  {
    if xs != [] {
      var tail := xs[1..];
      RemoveAllMultiset(tail, x);
      assert xs == [xs[0]] + tail;
      assert multiset(xs) == multiset{xs[0]} + multiset(tail);
      if xs[0] == x {
        assert RemoveAll(xs, x) == RemoveAll(tail, x);
        AddThenClear(multiset(tail), x);
      } else {
        assert RemoveAll(xs, x) == [xs[0]] + RemoveAll(tail, x);
        assert multiset(RemoveAll(xs, x)) == multiset{xs[0]} + multiset(RemoveAll(tail, x));
        ClearCommutes(multiset(tail), xs[0], x);
      }
    }
  }

  lemma AddThenClear(m: multiset<ObjectId>, x: ObjectId)
    ensures (multiset{x} + m)[x := 0] == m[x := 0]
  {
  }

  lemma ClearCommutes(m: multiset<ObjectId>, y: ObjectId, x: ObjectId)
    requires y != x
    ensures (multiset{y} + m)[x := 0] == multiset{y} + m[x := 0]
  {
  }

  /** A list without `x` is left as it is. */
  lemma {:induction false} RemoveAllAbsent(xs: seq<ObjectId>, x: ObjectId)
    requires x !in xs
    ensures RemoveAll(xs, x) == xs
  {
    if xs != [] {
      RemoveAllAbsent(xs[1..], x);
      assert xs == [xs[0]] + xs[1..];
    }
  }

  /** `blog.comments.find(c => c._id == commentId)`: the first comment with that id. */
  function FindComment(cs: seq<Comment>, id: ObjectId): (r: Option<Comment>)
    ensures r.None? <==> forall i :: 0 <= i < |cs| ==> cs[i].id != id
    ensures r.Some? ==> exists i :: 0 <= i < |cs| && cs[i] == r.value && r.value.id == id
                                    && forall j :: 0 <= j < i ==> cs[j].id != id
  {
    if cs == [] then None
    else if cs[0].id == id then Some(cs[0])
    else
      var r := FindComment(cs[1..], id);
      assert forall i :: 1 <= i < |cs| ==> cs[i] == cs[1..][i - 1];
      r
  }

  /** `$pull: {comments: {_id: commentId}}`: every comment with that id removed. */
  function RemoveComment(cs: seq<Comment>, id: ObjectId): (r: seq<Comment>)
    ensures |r| <= |cs|
    ensures forall c :: c in r ==> c in cs && c.id != id
    ensures forall c :: c in cs && c.id != id ==> c in r
  {
    if cs == [] then []
    else (if cs[0].id == id then [] else [cs[0]]) + RemoveComment(cs[1..], id)
  }

  /** No two comments of the list share an id. */
  predicate UniqueCommentIds(cs: seq<Comment>) {
    forall i, j :: 0 <= i < j < |cs| ==> cs[i].id != cs[j].id
  }

  /** With unique ids, deleting the comment at position `i` by its id removes
      that one comment and keeps the others in order. */
  lemma RemoveCommentAt(cs: seq<Comment>, i: nat)
    requires UniqueCommentIds(cs) && i < |cs|
    ensures RemoveComment(cs, cs[i].id) == cs[..i] + cs[i + 1..]
  {
    var id := cs[i].id;
    var a, b := cs[..i], cs[i + 1..];
    SplitAt(cs, i);
    RemoveCommentConcat(a, [cs[i]] + b, id);
    RemoveCommentConcat([cs[i]], b, id);
    RemoveCommentSingle(cs[i]);
    forall k | 0 <= k < |a| ensures a[k].id != id {
      assert a[k] == cs[k];
    }
    forall k | 0 <= k < |b| ensures b[k].id != id {
      assert b[k] == cs[i + 1 + k];
    }
    RemoveCommentNone(a, id);
    RemoveCommentNone(b, id);
    EmptyPrefix(b);
  }

  /** With unique ids, pulling a comment that is present removes exactly it. */
  lemma RemoveCommentFound(cs: seq<Comment>, id: ObjectId)
    requires UniqueCommentIds(cs) && FindComment(cs, id).Some?
    ensures exists i :: 0 <= i < |cs| && cs[i].id == id && RemoveComment(cs, id) == cs[..i] + cs[i + 1..]
  {
    var i :| 0 <= i < |cs| && cs[i] == FindComment(cs, id).value && cs[i].id == id;
    RemoveCommentAt(cs, i);
  }

  lemma SplitAt(cs: seq<Comment>, i: nat)
    requires i < |cs|
    ensures cs == cs[..i] + ([cs[i]] + cs[i + 1..])
  {
  }

  lemma RemoveCommentSingle(c: Comment)
    ensures RemoveComment([c], c.id) == []
  {
    assert [c][1..] == [];
  }

  lemma EmptyPrefix(b: seq<Comment>)
    ensures [] + b == b
  {
  }

  /** Removal by id distributes over concatenation. */
  lemma {:induction false} RemoveCommentConcat(a: seq<Comment>, b: seq<Comment>, id: ObjectId)
    ensures RemoveComment(a + b, id) == RemoveComment(a, id) + RemoveComment(b, id)
  {
    if a != [] {
      var head := if a[0].id == id then [] else [a[0]];
      assert (a + b)[0] == a[0];
      assert (a + b)[1..] == a[1..] + b;
      RemoveCommentConcat(a[1..], b, id);
      assert RemoveComment(a + b, id) == head + (RemoveComment(a[1..], id) + RemoveComment(b, id));
      assert RemoveComment(a, id) == head + RemoveComment(a[1..], id);
    } else {
      assert a + b == b;
    }
  }

  lemma {:induction false} RemoveCommentNone(cs: seq<Comment>, id: ObjectId)
    requires forall k :: 0 <= k < |cs| ==> cs[k].id != id
    ensures RemoveComment(cs, id) == cs
  {
    if cs != [] {
      RemoveCommentNone(cs[1..], id);
      assert cs == [cs[0]] + cs[1..];
    }
  }

  // ---------------------------------------------------------------------------
  // The handlers as functions of the store
  // ---------------------------------------------------------------------------

  /** `CreateBlog`. */
  function CreateSpec(s: BlogState, actor: ObjectId, body: BlogBody, files: Option<Files>,
                      cloud: CloudUpload): (r: Outcome)
    ensures r.status == 201 || r.status == 400 || r.status == 500
    ensures r.status == 400 ==> r.state == s
    ensures r.status != 201 ==> r.state.blogs == s.blogs && r.state.nextId == s.nextId
  {
    if !Truthy(body.title) || !Truthy(body.content) || body.tags.None? then Outcome(400, s)
    else match FirstImagePath(files)
      case None => Outcome(500, s)
      case Some(path) =>
        match UploadOnCloudinary(Some(path), cloud)
        case None => Outcome(500, s)
        case Some(url) => Insert(s, actor, body, url)
  }

  /** The tail of `CreateBlog` once the image is uploaded: the merge is issued
      first, so a blog the validator refuses still leaves the cache changed. */
  function Insert(s: BlogState, actor: ObjectId, body: BlogBody, url: string): (r: Outcome)
    requires body.title.Some? && body.content.Some? && body.tags.Some?
    ensures r.status == 201 || r.status == 500
    ensures r.state.tagCache == TagsAfterMerge(s.tagCache, body.tags.value)
    ensures r.status == 500 ==> r.state.blogs == s.blogs && r.state.nextId == s.nextId
    ensures r.status == 201 ==> r.state.nextId == s.nextId + 1
                                && r.state.blogs.Keys == s.blogs.Keys + {s.nextId}
                                && r.state.blogs[s.nextId].owner == actor
  {
    var merged := s.(tagCache := TagsAfterMerge(s.tagCache, body.tags.value));
    var b := NewBlog(body.title.value, body.content.value, url, body.tags, actor);
    if !BlogValid(b) then Outcome(500, merged)
    else Outcome(201, merged.(blogs := s.blogs[s.nextId := b], nextId := s.nextId + 1))
  }

  /** `data` as UpdateBlog assembles it, applied to the stored blog: present
      keys overwrite, absent ones keep the stored value; nothing is validated. */
  function Patched(b: Blog, body: BlogBody, image: Option<string>): (r: Blog)
    ensures r.likes == b.likes && r.comments == b.comments && r.owner == b.owner
    ensures body == BlogBody(None, None, None) && image.None? ==> r == b
  {
    b.(title := if body.title.Some? then body.title.value else b.title,
       content := if body.content.Some? then body.content.value else b.content,
       tags := if body.tags.Some? then body.tags.value else b.tags,
       image := if image.Some? then image.value else b.image)
  }

  /** `UpdateBlog`. The tag merge comes before the image handling, so it has
      happened even when the image step then fails with 500. `"image" in
      req.files` throws when the request carried no multipart files at all. */
  function UpdateSpec(s: BlogState, actor: ObjectId, id: ObjectId, body: BlogBody,
                      files: Option<Files>, cloud: CloudUpload): (r: Outcome)
    ensures r.status == 200 || r.status == 403 || r.status == 404 || r.status == 500
    ensures r.status == 403 || r.status == 404 ==> r.state == s
    ensures r.status != 200 ==> r.state.blogs == s.blogs
    ensures r.state.blogs.Keys == s.blogs.Keys && r.state.nextId == s.nextId
    ensures id in s.blogs && s.blogs[id].owner == actor ==>
              r.state.tagCache == (if body.tags.Some? then TagsAfterMerge(s.tagCache, body.tags.value)
                                   else s.tagCache)
  {
    if id !in s.blogs then Outcome(404, s)
    else if s.blogs[id].owner != actor then Outcome(403, s)
    else
      var s1 := if body.tags.Some? then s.(tagCache := TagsAfterMerge(s.tagCache, body.tags.value)) else s;
      if files.None? then Outcome(500, s1)
      else if files.value.image.None? then
        Outcome(200, s1.(blogs := s.blogs[id := Patched(s.blogs[id], body, None)]))
      else match FirstImagePath(files)
        case None => Outcome(500, s1)
        case Some(path) =>
          match UploadOnCloudinary(Some(path), cloud)
          case None => Outcome(500, s1)
          case Some(url) =>
            Outcome(200, s1.(blogs := s.blogs[id := Patched(s.blogs[id], body, Some(url))]))
  }

  /** `DeleteBlog`. */
  function DeleteSpec(s: BlogState, actor: ObjectId, id: ObjectId): (r: Outcome)
    ensures r.status == 200 || r.status == 403 || r.status == 404
    ensures r.status != 200 ==> r.state == s
    ensures r.state.tagCache == s.tagCache && r.state.nextId == s.nextId
  {
    if id !in s.blogs then Outcome(404, s)
    else if s.blogs[id].owner != actor then Outcome(403, s)
    else Outcome(200, s.(blogs := s.blogs - {id}))
  }

  /** `LikeBlog`. */
  function LikeSpec(s: BlogState, actor: ObjectId, id: ObjectId): (r: Outcome)
    ensures r.status == 200 || r.status == 400 || r.status == 404
    ensures r.status != 200 ==> r.state == s
    ensures r.status == 200 ==> id in r.state.blogs && actor in r.state.blogs[id].likes
    ensures r.state.blogs.Keys == s.blogs.Keys
  {
    if id !in s.blogs then Outcome(404, s)
    else if actor in s.blogs[id].likes then Outcome(400, s)
    else Outcome(200, s.(blogs := s.blogs[id := s.blogs[id].(likes := s.blogs[id].likes + [actor])]))
  }

  /** `UnLikeBlog`. */
  function UnlikeSpec(s: BlogState, actor: ObjectId, id: ObjectId): (r: Outcome)
    ensures r.status == 200 || r.status == 400 || r.status == 404
    ensures r.status != 200 ==> r.state == s
    ensures r.status == 200 ==> id in r.state.blogs && actor !in r.state.blogs[id].likes
    ensures r.state.blogs.Keys == s.blogs.Keys
  {
    if id !in s.blogs then Outcome(404, s)
    else if actor !in s.blogs[id].likes then Outcome(400, s)
    else Outcome(200, s.(blogs := s.blogs[id := s.blogs[id].(likes := RemoveAll(s.blogs[id].likes, actor))]))
  }

  /** `CommentOnBlog`: the comment gets a fresh id; `findByIdAndUpdate` runs no
      validator, so a missing `content` is stored as it is. */
  function CommentSpec(s: BlogState, actor: ObjectId, id: ObjectId, content: Option<string>): (r: Outcome)
    ensures r.status == 200 <==> id in s.blogs
    ensures r.status != 200 ==> r.status == 404 && r.state == s
    ensures r.state.blogs.Keys == s.blogs.Keys
  {
    if id !in s.blogs then Outcome(404, s)
    else
      var c := NewComment(s.nextId, content, Some(actor));
      Outcome(200, s.(blogs := s.blogs[id := s.blogs[id].(comments := s.blogs[id].comments + [c])],
                      nextId := s.nextId + 1))
  }

  /** The authorisation rule as written: the actor must be the comment's author
      AND the blog's owner. */
  predicate MayDeleteCommentAsWritten(author: ObjectId, owner: ObjectId, actor: ObjectId)
    ensures MayDeleteCommentAsWritten(author, owner, actor) <==> author == actor && owner == actor
  {
    !(author != actor || owner != actor)
  }

  /** `DeleteComment`. A comment without a user makes `comment.user.toString()`
      throw, which the handler answers with 500. */
  function DeleteCommentSpec(s: BlogState, actor: ObjectId, id: ObjectId, commentId: ObjectId): (r: Outcome)
    ensures r.status == 200 || r.status == 403 || r.status == 404 || r.status == 500
    ensures r.status != 200 ==> r.state == s
    ensures r.state.blogs.Keys == s.blogs.Keys
            && r.state.tagCache == s.tagCache && r.state.nextId == s.nextId
  {
    if id !in s.blogs then Outcome(404, s)
    else match FindComment(s.blogs[id].comments, commentId)
      case None => Outcome(404, s)
      case Some(c) =>
        if c.user.None? then Outcome(500, s)
        else if !MayDeleteCommentAsWritten(c.user.value, s.blogs[id].owner, actor) then Outcome(403, s)
        else Outcome(200, s.(blogs := s.blogs[id := s.blogs[id].(comments := RemoveComment(s.blogs[id].comments, commentId))]))
  }

  /** `GetBlog`: 404 or the stored blog (author population is not modelled). */
  function GetBlog(s: BlogState, id: ObjectId): (r: (int, Option<Blog>))
    ensures r.0 == 404 <==> id !in s.blogs
    ensures r.0 == 200 <==> id in s.blogs
    ensures r.1.Some? <==> id in s.blogs
    ensures id in s.blogs ==> r.1.value == s.blogs[id]
  {
    if id !in s.blogs then (404, None) else (200, Some(s.blogs[id]))
  }

  /** Blog `b` matches the query: no `tags` key, or `tags: {$in: wanted}`. */
  predicate MatchesTags(b: Blog, wanted: Option<seq<string>>) {
    wanted.None? || exists t :: t in b.tags && t in wanted.value
  }

  /** `GetBlogs`: every blog whose tags meet the requested ones. `Blog.find`
      yields an array, never a falsy value, so the 404 branch is never taken. */
  function GetBlogs(s: BlogState, wanted: Option<seq<string>>): (r: (int, map<ObjectId, Blog>))
    ensures r.0 == 200
    ensures forall id :: id in r.1 <==> id in s.blogs && MatchesTags(s.blogs[id], wanted)
    ensures forall id :: id in r.1 ==> r.1[id] == s.blogs[id]
  {
    (200, map id | id in s.blogs && MatchesTags(s.blogs[id], wanted) :: s.blogs[id])
  }

  /** Without a `tags` query every blog is listed; with an empty list none is. */
  lemma GetBlogsFilters(s: BlogState)
    ensures GetBlogs(s, None).1 == s.blogs
    ensures GetBlogs(s, Some([])).1 == map[]
  {
  }

  // ---------------------------------------------------------------------------
  // The store
  // ---------------------------------------------------------------------------

  class BlogStore {
    var blogs: map<ObjectId, Blog>
    var tagCache: Option<seq<string>>
    var nextId: ObjectId

    constructor (tagCache: Option<seq<string>>)
      ensures blogs == map[] && this.tagCache == tagCache && nextId == 0
      ensures StoreValid(State())
    {
      blogs := map[];
      this.tagCache := tagCache;
      nextId := 0;
    }

    function State(): BlogState
      reads this
    {
      BlogState(blogs, tagCache, nextId)
    }

    /** The `forEach` over the request's tags, each callback comparing with
        the one snapshot read before the loop and writing snapshot + tag. */
    method MergeTags(tags: seq<string>)
      modifies this`tagCache
      ensures tagCache == TagsAfterMerge(old(tagCache), tags)
    {
      var oldTags := tagCache;
      var i := 0;
      while i < |tags|
        invariant 0 <= i <= |tags|
        invariant tagCache == TagsAfterMerge(oldTags, tags[..i])
      {
        var tag := tags[i];
        assert tags[..i + 1][..i] == tags[..i];
        if oldTags.Some? && tag !in oldTags.value {
          tagCache := Some(oldTags.value + [tag]);
        }
        i := i + 1;
      }
      assert tags[..|tags|] == tags;
    }

    method CreateBlog(actor: ObjectId, body: BlogBody, files: Option<Files>, cloud: CloudUpload)
      returns (status: int)
      modifies this
      ensures Outcome(status, State()) == CreateSpec(old(State()), actor, body, files, cloud)
      ensures StoreValid(old(State())) ==> StoreValid(State())
    {
      if StoreValid(State()) {
        CreatePreservesValid(State(), actor, body, files, cloud);
      }
      if !Truthy(body.title) || !Truthy(body.content) || body.tags.None? {
        return 400;
      }
      var path := FirstImagePath(files);
      if path.None? {
        return 500;
      }
      var uploaded := UploadOnCloudinary(Some(path.value), cloud);
      if uploaded.None? {
        return 500;
      }
      ghost var s0 := State();
      MergeTags(body.tags.value);
      var blog := NewBlog(body.title.value, body.content.value, uploaded.value, body.tags, actor);
      if !BlogValid(blog) {
        return 500;
      }
      blogs := blogs[nextId := blog];
      nextId := nextId + 1;
      status := 201;
      assert State() == Insert(s0, actor, body, uploaded.value).state;
    }

    method UpdateBlog(actor: ObjectId, id: ObjectId, body: BlogBody, files: Option<Files>,
                      cloud: CloudUpload)
      returns (status: int)
      modifies this
      ensures Outcome(status, State()) == UpdateSpec(old(State()), actor, id, body, files, cloud)
      ensures StoreValid(old(State())) ==> StoreValid(State())
    {
      if StoreValid(State()) {
        UpdatePreservesValid(State(), actor, id, body, files, cloud);
      }
      if id !in blogs {
        return 404;
      }
      var blog := blogs[id];
      if blog.owner != actor {
        return 403;
      }
      if body.tags.Some? {
        MergeTags(body.tags.value);
      }
      var image: Option<string> := None;
      if files.None? {
        return 500;
      }
      if files.value.image.Some? {
        var path := FirstImagePath(files);
        if path.None? {
          return 500;
        }
        var uploaded := UploadOnCloudinary(Some(path.value), cloud);
        if uploaded.None? {
          return 500;
        }
        image := uploaded;
      }
      blogs := blogs[id := Patched(blog, body, image)];
      status := 200;
    }

    method DeleteBlog(actor: ObjectId, id: ObjectId) returns (status: int)
      modifies this
      ensures Outcome(status, State()) == DeleteSpec(old(State()), actor, id)
      ensures StoreValid(old(State())) ==> StoreValid(State())
    {
      if StoreValid(State()) {
        DeletePreservesValid(State(), actor, id);
      }
      if id !in blogs {
        return 404;
      }
      if blogs[id].owner != actor {
        return 403;
      }
      blogs := blogs - {id};
      status := 200;
    }

    method LikeBlog(actor: ObjectId, id: ObjectId) returns (status: int)
      modifies this
      ensures Outcome(status, State()) == LikeSpec(old(State()), actor, id)
      ensures StoreValid(old(State())) ==> StoreValid(State())
    {
      if StoreValid(State()) {
        LikePreservesValid(State(), actor, id);
      }
      if id !in blogs {
        return 404;
      }
      var blog := blogs[id];
      if actor in blog.likes {
        return 400;
      }
      blogs := blogs[id := blog.(likes := blog.likes + [actor])];
      status := 200;
    }

    method UnlikeBlog(actor: ObjectId, id: ObjectId) returns (status: int)
      modifies this
      ensures Outcome(status, State()) == UnlikeSpec(old(State()), actor, id)
      ensures StoreValid(old(State())) ==> StoreValid(State())
    {
      if StoreValid(State()) {
        UnlikePreservesValid(State(), actor, id);
      }
      if id !in blogs {
        return 404;
      }
      var blog := blogs[id];
      if actor !in blog.likes {
        return 400;
      }
      blogs := blogs[id := blog.(likes := RemoveAll(blog.likes, actor))];
      status := 200;
    }

    method CommentOnBlog(actor: ObjectId, id: ObjectId, content: Option<string>) returns (status: int)
      modifies this
      ensures Outcome(status, State()) == CommentSpec(old(State()), actor, id, content)
      ensures StoreValid(old(State())) ==> StoreValid(State())
    {
      if StoreValid(State()) {
        CommentPreservesValid(State(), actor, id, content);
      }
      if id !in blogs {
        return 404;
      }
      var blog := blogs[id];
      var comment := NewComment(nextId, content, Some(actor));
      blogs := blogs[id := blog.(comments := blog.comments + [comment])];
      nextId := nextId + 1;
      status := 200;
    }

    method DeleteComment(actor: ObjectId, id: ObjectId, commentId: ObjectId) returns (status: int)
      modifies this
      ensures Outcome(status, State()) == DeleteCommentSpec(old(State()), actor, id, commentId)
      ensures StoreValid(old(State())) ==> StoreValid(State())
    {
      if StoreValid(State()) {
        DeleteCommentPreservesValid(State(), actor, id, commentId);
      }
      if id !in blogs {
        return 404;
      }
      var blog := blogs[id];
      var comment := FindComment(blog.comments, commentId);
      if comment.None? {
        return 404;
      }
      if comment.value.user.None? {
        return 500;
      }
      if comment.value.user.value != actor || blog.owner != actor {
        return 403;
      }
      blogs := blogs[id := blog.(comments := RemoveComment(blog.comments, commentId))];
      status := 200;
    }
  }

  // ---------------------------------------------------------------------------
  // Properties of the handlers
  // ---------------------------------------------------------------------------

  /** Every comment id of the list is below `bound`. */
  predicate CommentIdsBelow(cs: seq<Comment>, bound: ObjectId) {
    forall i :: 0 <= i < |cs| ==> cs[i].id < bound
  }

  /** A blog as the handlers keep it: nobody likes it twice, no two comments
      share an id, and every id is one already handed out. */
  predicate BlogWellKept(b: Blog, bound: ObjectId) {
    NoRepeats(b.likes) && UniqueCommentIds(b.comments) && CommentIdsBelow(b.comments, bound)
  }

  /** The store invariant: ids below the counter, every blog well kept. */
  predicate StoreValid(s: BlogState) {
    forall id :: id in s.blogs ==> id < s.nextId && BlogWellKept(s.blogs[id], s.nextId)
  }

  /** A title, content or tags value that is falsy is answered 400, and
      neither the blogs nor the cache change. */
  lemma CreateRejectsMissingFields(s: BlogState, actor: ObjectId, body: BlogBody,
                                   files: Option<Files>, cloud: CloudUpload)
    requires !Truthy(body.title) || !Truthy(body.content) || body.tags.None?
    ensures CreateSpec(s, actor, body, files, cloud) == Outcome(400, s)
  {
  }

  /** CreateBlog answers 201 exactly when the fields are present, an image
      was sent and its upload gave a non-empty URL; it then adds exactly one
      blog, under the next id, owned by the actor, with the given fields and
      empty likes and comments; in a valid store that id was free, so no blog
      is overwritten. Any other answer adds nothing. */
  lemma CreateOutcome(s: BlogState, actor: ObjectId, body: BlogBody, files: Option<Files>,
                      cloud: CloudUpload)
    ensures var r := CreateSpec(s, actor, body, files, cloud);
            r.status == 201 <==>
              Truthy(body.title) && Truthy(body.content) && body.tags.Some?
              && FirstImagePath(files).Some? && FirstImagePath(files).value != ""
              && cloud(FirstImagePath(files).value).Some?
              && cloud(FirstImagePath(files).value).value != ""
    ensures var r := CreateSpec(s, actor, body, files, cloud);
            r.status != 201 ==> r.state.blogs == s.blogs && r.state.nextId == s.nextId
    ensures var r := CreateSpec(s, actor, body, files, cloud);
            StoreValid(s) && r.status == 201 ==>
              s.nextId !in s.blogs && r.state.blogs.Keys == s.blogs.Keys + {s.nextId}
    ensures var r := CreateSpec(s, actor, body, files, cloud);
            r.status == 201 ==>
              var url := cloud(FirstImagePath(files).value).value;
              && r.state.nextId == s.nextId + 1
              && r.state.blogs == s.blogs[s.nextId := NewBlog(body.title.value, body.content.value, url,
                                                             body.tags, actor)]
              && r.state.blogs[s.nextId].owner == actor
              && r.state.blogs[s.nextId].likes == [] && r.state.blogs[s.nextId].comments == []
              && r.state.tagCache == TagsAfterMerge(s.tagCache, body.tags.value)
  {
  }

  /** A blog the schema refuses is not stored, yet the tag merge has already
      been issued: with the cache holding no tags, an empty upload URL
      answers 500 and still records the request's tag. */
  lemma RefusedBlogStillMergesTags(s: BlogState, actor: ObjectId, files: Option<Files>, cloud: CloudUpload)
    requires s.tagCache == Some([])
    requires FirstImagePath(files).Some? && FirstImagePath(files).value != ""
    requires cloud(FirstImagePath(files).value) == Some("")
    ensures var r := CreateSpec(s, actor, BlogBody(Some("t"), Some("c"), Some(["x"])), files, cloud);
            r.status == 500 && r.state.blogs == s.blogs && r.state.tagCache == Some(["x"])
  {
    assert LastMissing([], ["x"]) == Some("x");
    assert [] + ["x"] == ["x"];
  }

  /** UpdateBlog and DeleteBlog answer 404 for an unknown id and 403 for a
      blog the actor does not own, and change nothing in either case. */
  lemma UpdateDeleteGuards(s: BlogState, actor: ObjectId, id: ObjectId, body: BlogBody,
                           files: Option<Files>, cloud: CloudUpload)
    ensures id !in s.blogs ==>
              UpdateSpec(s, actor, id, body, files, cloud) == Outcome(404, s)
              && DeleteSpec(s, actor, id) == Outcome(404, s)
    ensures id in s.blogs && s.blogs[id].owner != actor ==>
              UpdateSpec(s, actor, id, body, files, cloud) == Outcome(403, s)
              && DeleteSpec(s, actor, id) == Outcome(403, s)
  {
  }

  /** A successful delete removes exactly the requested blog, which the actor owned. */
  lemma DeleteRemovesExactlyThatBlog(s: BlogState, actor: ObjectId, id: ObjectId)
    ensures var r := DeleteSpec(s, actor, id);
            r.status == 200 <==> id in s.blogs && s.blogs[id].owner == actor
    ensures var r := DeleteSpec(s, actor, id);
            r.status == 200 ==>
              r.state.blogs.Keys == s.blogs.Keys - {id}
              && (forall k :: k in r.state.blogs ==> r.state.blogs[k] == s.blogs[k])
              && r.state.tagCache == s.tagCache && r.state.nextId == s.nextId
  {
  }

  /** A successful update changes only the blog asked for, and in it only the
      title, content and tags present in the body and the image when one was
      uploaded; likes, comments and owner stay. */
  lemma UpdateTouchesOnlyPatch(s: BlogState, actor: ObjectId, id: ObjectId, body: BlogBody,
                               files: Option<Files>, cloud: CloudUpload)
    requires UpdateSpec(s, actor, id, body, files, cloud).status == 200
    ensures var r := UpdateSpec(s, actor, id, body, files, cloud);
            id in s.blogs && s.blogs[id].owner == actor
            && r.state.blogs.Keys == s.blogs.Keys
            && (forall k :: k in s.blogs && k != id ==> r.state.blogs[k] == s.blogs[k])
            && r.state.nextId == s.nextId
            && r.state.tagCache == (if body.tags.Some? then TagsAfterMerge(s.tagCache, body.tags.value)
                                    else s.tagCache)
    ensures var r := UpdateSpec(s, actor, id, body, files, cloud);
            var before, after := s.blogs[id], r.state.blogs[id];
            && after.likes == before.likes && after.comments == before.comments
            && after.owner == before.owner
            && after.title == (if body.title.Some? then body.title.value else before.title)
            && after.content == (if body.content.Some? then body.content.value else before.content)
            && after.tags == (if body.tags.Some? then body.tags.value else before.tags)
            && (files.value.image.None? ==> after.image == before.image)
            && (files.value.image.Some? ==> after.image == cloud(FirstImagePath(files).value).value)
  {
  }

  /** An update without multipart files (`req.files` undefined) is answered 500
      and leaves the blog as it was, even when it only changes the title. */
  lemma UpdateWithoutFilesFails(s: BlogState, actor: ObjectId, id: ObjectId, body: BlogBody,
                                cloud: CloudUpload)
    requires id in s.blogs && s.blogs[id].owner == actor
    ensures UpdateSpec(s, actor, id, body, None, cloud).status == 500
    ensures UpdateSpec(s, actor, id, body, None, cloud).state.blogs == s.blogs
  {
  }

  /** LikeBlog answers 400 and changes nothing for a blog the actor already
      likes; otherwise the actor is appended to the likes. */
  lemma LikeOutcome(s: BlogState, actor: ObjectId, id: ObjectId)
    ensures id !in s.blogs ==> LikeSpec(s, actor, id) == Outcome(404, s)
    ensures id in s.blogs && actor in s.blogs[id].likes ==> LikeSpec(s, actor, id) == Outcome(400, s)
    ensures id in s.blogs && actor !in s.blogs[id].likes ==>
              var r := LikeSpec(s, actor, id);
              && r.status == 200
              && r.state.blogs == s.blogs[id := s.blogs[id].(likes := s.blogs[id].likes + [actor])]
              && |r.state.blogs[id].likes| == |s.blogs[id].likes| + 1
              && r.state.tagCache == s.tagCache && r.state.nextId == s.nextId
  {
  }

  /** Liking twice: the second like is refused and the first one stays. */
  lemma {:induction false} LikeTwiceRejected(s: BlogState, actor: ObjectId, id: ObjectId)
    requires id in s.blogs && actor !in s.blogs[id].likes
    ensures var once := LikeSpec(s, actor, id);
            once.status == 200 && LikeSpec(once.state, actor, id) == Outcome(400, once.state)
  {
    var once := LikeSpec(s, actor, id);
    assert once.state.blogs[id].likes == s.blogs[id].likes + [actor];
    assert actor in once.state.blogs[id].likes;
  }

  /** UnLikeBlog answers 400 and changes nothing for a blog the actor does not
      like; otherwise every occurrence of the actor leaves the likes, and the
      other likers keep their order and their number. */
  lemma UnlikeOutcome(s: BlogState, actor: ObjectId, id: ObjectId)
    ensures id !in s.blogs ==> UnlikeSpec(s, actor, id) == Outcome(404, s)
    ensures id in s.blogs && actor !in s.blogs[id].likes ==> UnlikeSpec(s, actor, id) == Outcome(400, s)
    ensures id in s.blogs && actor in s.blogs[id].likes ==>
              var r := UnlikeSpec(s, actor, id);
              && r.status == 200
              && r.state.blogs.Keys == s.blogs.Keys
              && (forall k :: k in s.blogs && k != id ==> r.state.blogs[k] == s.blogs[k])
              && r.state.blogs[id] == s.blogs[id].(likes := r.state.blogs[id].likes)
              && actor !in r.state.blogs[id].likes
              && multiset(r.state.blogs[id].likes) == multiset(s.blogs[id].likes)[actor := 0]
  {
    if id in s.blogs && actor in s.blogs[id].likes {
      RemoveAllMultiset(s.blogs[id].likes, actor);
    }
  }

  /** Like then unlike gives the likes back as they were. */
  lemma LikeThenUnlikeRestores(s: BlogState, actor: ObjectId, id: ObjectId)
    requires id in s.blogs && actor !in s.blogs[id].likes
    ensures UnlikeSpec(LikeSpec(s, actor, id).state, actor, id).state == s
  {
    var likes := s.blogs[id].likes;
    RemoveAllConcat(likes, [actor], actor);
    RemoveAllAbsent(likes, actor);
    assert RemoveAll([actor], actor) == [];
    assert likes + [] == likes;
    var once := LikeSpec(s, actor, id).state;
    assert once.blogs[id].likes == likes + [actor];
    assert once.blogs[id := once.blogs[id].(likes := likes)] == s.blogs;
  }

  /** CommentOnBlog appends exactly one comment, with the next id, the body's
      content and the actor as user, at the end; nothing else changes. In a
      valid store no comment of that blog already has that id. */
  lemma CommentAppends(s: BlogState, actor: ObjectId, id: ObjectId, content: Option<string>)
    ensures id !in s.blogs ==> CommentSpec(s, actor, id, content) == Outcome(404, s)
    ensures id in s.blogs ==>
              var r := CommentSpec(s, actor, id, content);
              var before := s.blogs[id];
              && r.status == 200
              && r.state.blogs.Keys == s.blogs.Keys
              && (forall k :: k in s.blogs && k != id ==> r.state.blogs[k] == s.blogs[k])
              && r.state.blogs[id] == before.(comments := r.state.blogs[id].comments)
              && |r.state.blogs[id].comments| == |before.comments| + 1
              && r.state.blogs[id].comments[..|before.comments|] == before.comments
              && r.state.blogs[id].comments[|before.comments|]
                 == Comment(s.nextId, content, Some(actor), [])
              && r.state.nextId == s.nextId + 1 && r.state.tagCache == s.tagCache
    ensures StoreValid(s) && id in s.blogs ==>
              forall i :: 0 <= i < |s.blogs[id].comments| ==> s.blogs[id].comments[i].id != s.nextId
  {
    if id in s.blogs {
      var cs := s.blogs[id].comments + [NewComment(s.nextId, content, Some(actor))];
      assert cs[..|s.blogs[id].comments|] == s.blogs[id].comments;
    }
  }

  /** A comment posted without content is stored: the update skips the
      schema's `required` rule, so the blog then fails its own validator. */
  lemma EmptyCommentStored(s: BlogState, actor: ObjectId, id: ObjectId)
    requires id in s.blogs
    ensures var r := CommentSpec(s, actor, id, None);
            r.status == 200 && !CommentValid(r.state.blogs[id].comments[|s.blogs[id].comments|])
  {
  }

  /** DeleteComment answers 404 for a missing blog or comment id, 500 for a
      comment without a user, and, for a comment with a user, 200 exactly when
      the actor is BOTH the comment's author and the blog's owner and 403
      otherwise; the store is unchanged in every case but 200. */
  lemma DeleteCommentRejections(s: BlogState, actor: ObjectId, id: ObjectId, commentId: ObjectId)
    ensures id !in s.blogs ==> DeleteCommentSpec(s, actor, id, commentId) == Outcome(404, s)
    ensures id in s.blogs && (forall i :: 0 <= i < |s.blogs[id].comments| ==> s.blogs[id].comments[i].id != commentId)
            ==> DeleteCommentSpec(s, actor, id, commentId) == Outcome(404, s)
    ensures DeleteCommentSpec(s, actor, id, commentId).status != 200
            ==> DeleteCommentSpec(s, actor, id, commentId).state == s
    ensures DeleteCommentSpec(s, actor, id, commentId).status == 200 ==>
              id in s.blogs && s.blogs[id].owner == actor
              && FindComment(s.blogs[id].comments, commentId).value.user == Some(actor)
    ensures id in s.blogs && FindComment(s.blogs[id].comments, commentId).Some?
            && FindComment(s.blogs[id].comments, commentId).value.user.None?
            ==> DeleteCommentSpec(s, actor, id, commentId) == Outcome(500, s)
    ensures id in s.blogs && FindComment(s.blogs[id].comments, commentId).Some?
            && FindComment(s.blogs[id].comments, commentId).value.user.Some?
            ==> var author := FindComment(s.blogs[id].comments, commentId).value.user.value;
                var status := DeleteCommentSpec(s, actor, id, commentId).status;
                && (status == 200 <==> author == actor && s.blogs[id].owner == actor)
                && (status == 403 <==> !(author == actor && s.blogs[id].owner == actor))
  {
  }

  /** A successful DeleteComment pulls the comments with that id from that
      blog and changes no other blog. */
  lemma DeleteCommentPullsById(s: BlogState, actor: ObjectId, id: ObjectId, commentId: ObjectId)
    requires DeleteCommentSpec(s, actor, id, commentId).status == 200
    ensures var r := DeleteCommentSpec(s, actor, id, commentId);
            && r.state.blogs.Keys == s.blogs.Keys
            && (forall k :: k in s.blogs && k != id ==> r.state.blogs[k] == s.blogs[k])
            && r.state.blogs[id] == s.blogs[id].(comments := RemoveComment(s.blogs[id].comments, commentId))
  {
    DeleteCommentSucceeded(s, actor, id, commentId);
  }

  /** When comment ids are unique, a successful DeleteComment removes exactly
      one comment, the others keeping their order. */
  lemma DeleteCommentRemovesOne(s: BlogState, actor: ObjectId, id: ObjectId, commentId: ObjectId)
    requires DeleteCommentSpec(s, actor, id, commentId).status == 200
    requires id in s.blogs && UniqueCommentIds(s.blogs[id].comments)
    ensures var before := s.blogs[id].comments;
            exists i :: 0 <= i < |before| && before[i].id == commentId
                        && DeleteCommentSpec(s, actor, id, commentId).state.blogs[id].comments
                           == before[..i] + before[i + 1..]
  {
    DeleteCommentSucceeded(s, actor, id, commentId);
    RemoveCommentFound(s.blogs[id].comments, commentId);
  }

  /** A 200 answer comes from an existing blog holding the comment, and its
      state is that blog with the comments of that id pulled. */
  lemma DeleteCommentSucceeded(s: BlogState, actor: ObjectId, id: ObjectId, commentId: ObjectId)
    requires DeleteCommentSpec(s, actor, id, commentId).status == 200
    ensures id in s.blogs && FindComment(s.blogs[id].comments, commentId).Some?
    ensures DeleteCommentSpec(s, actor, id, commentId).state
            == s.(blogs := s.blogs[id := s.blogs[id].(comments := RemoveComment(s.blogs[id].comments, commentId))])
  {
  }

  /** The evidently intended rule: the comment's author OR the blog's owner. */
  predicate MayDeleteCommentIntended(author: ObjectId, owner: ObjectId, actor: ObjectId) {
    author == actor || owner == actor
  }

  /** `DeleteComment` with the intended rule. */
  function DeleteCommentIntended(s: BlogState, actor: ObjectId, id: ObjectId, commentId: ObjectId): Outcome {
    if id !in s.blogs then Outcome(404, s)
    else match FindComment(s.blogs[id].comments, commentId)
      case None => Outcome(404, s)
      case Some(c) =>
        if c.user.None? then Outcome(500, s)
        else if !MayDeleteCommentIntended(c.user.value, s.blogs[id].owner, actor) then Outcome(403, s)
        else Outcome(200, s.(blogs := s.blogs[id := s.blogs[id].(comments := RemoveComment(s.blogs[id].comments, commentId))]))
  }

  /** With the intended rule, both the comment's author and the blog's owner
      can remove an existing comment, and a third party cannot. */
  lemma IntendedRuleAdmitsEitherParty(s: BlogState, actor: ObjectId, id: ObjectId, commentId: ObjectId)
    requires id in s.blogs
    requires FindComment(s.blogs[id].comments, commentId).Some?
    requires FindComment(s.blogs[id].comments, commentId).value.user.Some?
    ensures var author := FindComment(s.blogs[id].comments, commentId).value.user.value;
            ((DeleteCommentIntended(s, actor, id, commentId).status == 200)
             <==> (actor == author || actor == s.blogs[id].owner))
    ensures DeleteCommentIntended(s, actor, id, commentId).status == 200 ==>
              commentId !in (set c | c in DeleteCommentIntended(s, actor, id, commentId).state.blogs[id].comments :: c.id)
  {
  }

  /** Whenever the rule as written allows a deletion, the intended one does
      too, with the same result; the converse fails: the author of a comment
      on someone else's blog is refused. */
  lemma WrittenRuleStricterThanIntended(s: BlogState, actor: ObjectId, id: ObjectId, commentId: ObjectId)
    ensures DeleteCommentSpec(s, actor, id, commentId).status == 200 ==>
              DeleteCommentIntended(s, actor, id, commentId) == DeleteCommentSpec(s, actor, id, commentId)
    ensures MayDeleteCommentIntended(2, 1, 2) && !MayDeleteCommentAsWritten(2, 1, 2)
  {
  }

  /** The concrete case: user 2 comments on user 1's blog and cannot delete
      that comment (403), where the intended rule answers 200. */
  lemma AuthorCannotDeleteOwnComment()
    ensures var s := BlogState(map[0 := Blog("t", "c", "i", [], [], [Comment(5, Some("hi"), Some(2), [])], 1)],
                               Some([]), 6);
            DeleteCommentSpec(s, 2, 0, 5).status == 403
            && DeleteCommentIntended(s, 2, 0, 5).status == 200
  {
    var cs := [Comment(5, Some("hi"), Some(2), [])];
    assert FindComment(cs, 5) == Some(cs[0]);
  }

  // ---------------------------------------------------------------------------
  // The store invariant
  // ---------------------------------------------------------------------------

  lemma {:induction false} RemoveAllKeepsNoRepeats(xs: seq<ObjectId>, x: ObjectId)
    requires NoRepeats(xs)
    ensures NoRepeats(RemoveAll(xs, x))
  {
    if xs != [] {
      var rest := xs[1..];
      assert NoRepeats(rest) by {
        forall p, q | 0 <= p < q < |rest| ensures rest[p] != rest[q] {
          assert rest[p] == xs[p + 1] && rest[q] == xs[q + 1];
        }
      }
      RemoveAllKeepsNoRepeats(rest, x);
      if xs[0] != x {
        assert xs[0] !in rest;
        assert xs[0] !in RemoveAll(rest, x);
        PrependKeepsNoRepeats(xs[0], RemoveAll(rest, x));
      }
    }
  }

  lemma PrependKeepsNoRepeats(y: ObjectId, ys: seq<ObjectId>)
    requires NoRepeats(ys) && y !in ys
    ensures NoRepeats([y] + ys)
  {
    var zs := [y] + ys;
    forall p, q | 0 <= p < q < |zs| ensures zs[p] != zs[q] {
      assert zs[q] == ys[q - 1];
      if p > 0 { assert zs[p] == ys[p - 1]; }
    }
  }

  lemma RemoveCommentKeepsIds(cs: seq<Comment>, id: ObjectId, bound: ObjectId)
    requires UniqueCommentIds(cs) && CommentIdsBelow(cs, bound)
    ensures UniqueCommentIds(RemoveComment(cs, id)) && CommentIdsBelow(RemoveComment(cs, id), bound)
  {
    RemoveCommentKeepsUnique(cs, id);
    var r := RemoveComment(cs, id);
    forall p | 0 <= p < |r| ensures r[p].id < bound {
      assert r[p] in cs;
    }
  }

  lemma {:induction false} RemoveCommentKeepsUnique(cs: seq<Comment>, id: ObjectId)
    requires UniqueCommentIds(cs)
    ensures UniqueCommentIds(RemoveComment(cs, id))
  {
    if cs != [] {
      var rest := cs[1..];
      assert UniqueCommentIds(rest) by {
        forall p, q | 0 <= p < q < |rest| ensures rest[p].id != rest[q].id {
          assert rest[p] == cs[p + 1] && rest[q] == cs[q + 1];
        }
      }
      RemoveCommentKeepsUnique(rest, id);
      var tail := RemoveComment(rest, id);
      if cs[0].id != id {
        assert forall c :: c in rest ==> c.id != cs[0].id by {
          forall c | c in rest ensures c.id != cs[0].id {
            var k :| 0 <= k < |rest| && rest[k] == c;
            assert rest[k] == cs[k + 1];
          }
        }
        PrependKeepsUnique(cs[0], tail);
      }
    }
  }

  lemma PrependKeepsUnique(c: Comment, cs: seq<Comment>)
    requires UniqueCommentIds(cs) && forall d :: d in cs ==> d.id != c.id
    ensures UniqueCommentIds([c] + cs)
  {
    var zs := [c] + cs;
    forall p, q | 0 <= p < q < |zs| ensures zs[p].id != zs[q].id {
      assert zs[q] == cs[q - 1];
      if p > 0 { assert zs[p] == cs[p - 1]; }
    }
  }

  /** Appending a comment with a fresh id keeps the ids unique and below the
      advanced counter. */
  lemma AppendCommentKeepsIds(cs: seq<Comment>, c: Comment, bound: ObjectId)
    requires UniqueCommentIds(cs) && CommentIdsBelow(cs, bound) && c.id == bound
    ensures UniqueCommentIds(cs + [c]) && CommentIdsBelow(cs + [c], bound + 1)
  {
    var zs := cs + [c];
    forall p, q | 0 <= p < q < |zs| ensures zs[p].id != zs[q].id {
      assert zs[p] == cs[p];
      if q < |cs| { assert zs[q] == cs[q]; }
    }
  }

  /** A blog kept under one counter is still kept under a larger one. */
  lemma WellKeptUnderLargerBound(b: Blog, bound: ObjectId, larger: ObjectId)
    requires BlogWellKept(b, bound) && bound <= larger
    ensures BlogWellKept(b, larger)
  {
  }

  /** Every handler keeps the store invariant, whatever it answers. */
  lemma CreatePreservesValid(s: BlogState, actor: ObjectId, body: BlogBody, files: Option<Files>,
                             cloud: CloudUpload)
    requires StoreValid(s)
    ensures StoreValid(CreateSpec(s, actor, body, files, cloud).state)
  {
    var r := CreateSpec(s, actor, body, files, cloud);
    if r.status == 201 {
      forall id | id in r.state.blogs
        ensures id < r.state.nextId && BlogWellKept(r.state.blogs[id], r.state.nextId)
      {
        if id != s.nextId { WellKeptUnderLargerBound(s.blogs[id], s.nextId, r.state.nextId); }
      }
    }
  }

  lemma UpdatePreservesValid(s: BlogState, actor: ObjectId, id: ObjectId, body: BlogBody,
                             files: Option<Files>, cloud: CloudUpload)
    requires StoreValid(s)
    ensures StoreValid(UpdateSpec(s, actor, id, body, files, cloud).state)
  {
  }

  lemma DeletePreservesValid(s: BlogState, actor: ObjectId, id: ObjectId)
    requires StoreValid(s)
    ensures StoreValid(DeleteSpec(s, actor, id).state)
  {
  }

  lemma {:induction false} LikePreservesValid(s: BlogState, actor: ObjectId, id: ObjectId)
    requires StoreValid(s)
    ensures StoreValid(LikeSpec(s, actor, id).state)
  {
    if id in s.blogs && actor !in s.blogs[id].likes {
      AppendNewKeepsNoRepeats(s.blogs[id].likes, actor);
    }
  }

  lemma {:induction false} UnlikePreservesValid(s: BlogState, actor: ObjectId, id: ObjectId)
    requires StoreValid(s)
    ensures StoreValid(UnlikeSpec(s, actor, id).state)
  {
    if id in s.blogs && actor in s.blogs[id].likes {
      RemoveAllKeepsNoRepeats(s.blogs[id].likes, actor);
    }
  }

  lemma {:induction false} CommentPreservesValid(s: BlogState, actor: ObjectId, id: ObjectId, content: Option<string>)
    requires StoreValid(s)
    ensures StoreValid(CommentSpec(s, actor, id, content).state)
  {
    if id in s.blogs {
      var r := CommentSpec(s, actor, id, content);
      AppendCommentKeepsIds(s.blogs[id].comments, NewComment(s.nextId, content, Some(actor)), s.nextId);
      forall k | k in r.state.blogs
        ensures k < r.state.nextId && BlogWellKept(r.state.blogs[k], r.state.nextId)
      {
        if k != id { WellKeptUnderLargerBound(s.blogs[k], s.nextId, r.state.nextId); }
      }
    }
  }

  lemma {:induction false} DeleteCommentPreservesValid(s: BlogState, actor: ObjectId, id: ObjectId, commentId: ObjectId)
    requires StoreValid(s)
    ensures StoreValid(DeleteCommentSpec(s, actor, id, commentId).state)
  {
    if DeleteCommentSpec(s, actor, id, commentId).status == 200 {
      RemoveCommentKeepsIds(s.blogs[id].comments, commentId, s.nextId);
    }
  }
}
