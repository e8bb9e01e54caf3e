/** The Blog and Comment schemas of src/model/Blog.model.js as datatypes, with
    their defaults and their `required` rules. */
module BlogModel {
  import opened Js
  import opened Mongoose

  /** A comment. `content` is required by the schema but may be absent from a
      stored comment: comments are pushed with `findByIdAndUpdate`, which does
      not run validators. `user` is not required. `replies` holds comments of
      the same shape, so a comment is the root of a tree. */
  datatype Comment = Comment(id: ObjectId, content: Option<string>, user: Option<ObjectId>,
                             replies: seq<Comment>)

  /** A blog post. The owner is the single field the controller sets at creation
      and compares on update/delete (it writes `author`; the schema declares
      `createdBy`). `likes` is a plain array, so the schema itself allows
      repeated likers. */
  datatype Blog = Blog(title: string, content: string, image: string, tags: seq<string>,
                       likes: seq<ObjectId>, comments: seq<Comment>, owner: ObjectId)

  /** A new comment document: `replies` defaults to the empty list. */
  function NewComment(id: ObjectId, content: Option<string>, user: Option<ObjectId>): (c: Comment)
    ensures c.id == id && c.content == content && c.user == user
    ensures c.replies == []
  {
    Comment(id, content, user, [])
  }

  /** The schema's validator on a comment tree: every node has its required,
      non-empty `content`. */
  predicate CommentValid(c: Comment) {
    Truthy(c.content) && forall r :: r in c.replies ==> CommentValid(r)
  }

  /** Number of comments in a tree, the root included. */
  function TreeSize(c: Comment): (n: nat)
    ensures n >= 1
  {
    1 + ForestSize(c.replies)
  }

  function ForestSize(cs: seq<Comment>): (n: nat)
    ensures n >= |cs|
  {
    if cs == [] then 0 else TreeSize(cs[0]) + ForestSize(cs[1..])
  }

  /** A new blog document: `tags`, `likes` and `comments` default to empty lists. */
  function NewBlog(title: string, content: string, image: string, tags: Option<seq<string>>,
                   owner: ObjectId): (b: Blog)
    ensures b.title == title && b.content == content && b.image == image && b.owner == owner
    ensures tags.None? ==> b.tags == []
    ensures tags.Some? ==> b.tags == tags.value
    ensures b.likes == [] && b.comments == []
  {
    Blog(title, content, image, if tags.Some? then tags.value else [], [], [], owner)
  }

  /** What `Blog.create` validates: title, content and image are required. */
  predicate BlogValid(b: Blog) {
    RequiredStringPresent(b.title) && RequiredStringPresent(b.content)
    && RequiredStringPresent(b.image)
  }

  /** A blog is valid exactly when its three required strings are non-empty;
      tags, likes and comments play no part. */
  lemma BlogRequiredFields(b: Blog)
    ensures BlogValid(b) <==> b.title != "" && b.content != "" && b.image != ""
    ensures BlogValid(b) <==> BlogValid(b.(tags := [], likes := [], comments := []))
  {
  }

  /** The schema accepts a blog liked twice by the same user: uniqueness of
      likers is not a schema rule. */
  lemma SchemaAllowsRepeatedLikes(u: ObjectId)
    ensures BlogValid(Blog("t", "c", "i", [], [u, u], [], u))
  {
  }

  /** A reply tree is validated node by node: a direct reply without content
      makes its parent invalid, and the reply's tree is strictly smaller. */
  lemma {:induction false} NestedReplyInvalidates(c: Comment, r: Comment)
    requires r in c.replies && !CommentValid(r)
    ensures !CommentValid(c)
    ensures TreeSize(c) > TreeSize(r)
  {
    var i :| 0 <= i < |c.replies| && c.replies[i] == r;
    ForestSizeAtLeast(c.replies, i);
  }

  /** `d` sits somewhere in the reply tree below `c`. */
  predicate Below(d: Comment, c: Comment)
    decreases c
  {
    exists r :: r in c.replies && (r == d || Below(d, r))
  }

  /** An invalid comment at any depth below `c` makes `c` invalid. */
  lemma {:induction false} InvalidDescendantInvalidates(c: Comment, d: Comment)
    requires Below(d, c) && !CommentValid(d)
    ensures !CommentValid(c)
    ensures TreeSize(c) > TreeSize(d)
    decreases c
  {
    var r :| r in c.replies && (r == d || Below(d, r));
    if r != d {
      InvalidDescendantInvalidates(r, d);
    }
    NestedReplyInvalidates(c, r);
  }

  lemma {:induction false} ForestSizeAtLeast(cs: seq<Comment>, i: nat)
    requires i < |cs|
    ensures ForestSize(cs) >= TreeSize(cs[i])
  {
    if i > 0 { ForestSizeAtLeast(cs[1..], i - 1); }
  }
}
