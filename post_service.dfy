/** The post service: list, lookup, create, delete and update of `posts` rows. */
module PostService {
  import opened Common
  import opened UserSchema
  import opened PostSchema
  import opened Store

  const PostNotFound := "Post not found"
  const PostNotDeleted := "Post not found or could not be deleted"
  const PostNotUpdated := "Post could not be updated"

  /** Ascending by creation time. Rows with equal times may come in any order. */
  predicate SortedByCreatedAt(s: seq<Post>) {
    forall i, j :: 0 <= i < j < |s| ==> s[i].createdAt <= s[j].createdAt
  }

  /** Every row created at `t` or later. */
  predicate CreatedNoEarlier(s: seq<Post>, t: int) {
    forall i :: 0 <= i < |s| ==> t <= s[i].createdAt
  }

  /** One step of ordering: `p` placed before the first row created no earlier than it. */
  function InsertByCreatedAt(p: Post, s: seq<Post>): (r: seq<Post>)
    requires SortedByCreatedAt(s)
    ensures SortedByCreatedAt(r)
    ensures forall t :: CreatedNoEarlier(s, t) && t <= p.createdAt ==> CreatedNoEarlier(r, t)
  {
    if s == [] || p.createdAt <= s[0].createdAt then [p] + s
    else
      var head, tail := s[0], s[1..];
      assert CreatedNoEarlier(tail, head.createdAt);
      [head] + InsertByCreatedAt(p, tail)
  }

  /** Inserting adds exactly the one row. */
  lemma {:induction false} InsertPermutes(p: Post, s: seq<Post>)
    requires SortedByCreatedAt(s)
    ensures multiset(InsertByCreatedAt(p, s)) == multiset(s) + multiset{p}
  {
    if s != [] && p.createdAt > s[0].createdAt {
      InsertPermutes(p, s[1..]);
      assert s == [s[0]] + s[1..];
    }
  }

  predicate IsLeast(s: set<int>, m: int) {
    m in s && forall j :: j in s ==> m <= j
  }

  /** A non-empty set of ids has exactly one least element. */
  lemma {:induction false} LeastKeyExists(s: set<int>)
    requires s != {}
    ensures exists m :: IsLeast(s, m)
    ensures forall a, b :: IsLeast(s, a) && IsLeast(s, b) ==> a == b
  {
    if forall x :: x !in s {
      assert false;
    }
    var x :| x in s;
    if !IsLeast(s, x) {
      var y :| y in s && y < x;
      var rest := s - {x};
      assert y in rest;
      LeastKeyExists(rest);
      var m :| IsLeast(rest, m);
      assert forall j :: j in s ==> j == x || j in rest;
      assert IsLeast(s, m);
    }
  }

  /** The rows of `posts` are those of `posts - {id}` together with `posts[id]`. */
  lemma {:induction false} ListStep(posts: map<int, Post>, id: int, listed: seq<Post>, r: seq<Post>)
    requires PostsWellFormed(posts) && id in posts
    requires forall p :: p in listed <==> p.id in (posts - {id}) && (posts - {id})[p.id] == p
    requires multiset(r) == multiset(listed) + multiset{posts[id]}
    ensures forall p :: p in r <==> p.id in posts && posts[p.id] == p
  {
    forall p
      ensures p in r <==> p.id in posts && posts[p.id] == p
    {
      assert p in r <==> p in multiset(r);
      assert p in listed <==> p in multiset(listed);
    }
  }

  /**
   * `postListService`: `select * from posts order by created_at`. Every row appears exactly once,
   * and the list ascends by creation time.
   */
  function PostList(posts: map<int, Post>): (r: seq<Post>)
    requires PostsWellFormed(posts)
    ensures SortedByCreatedAt(r)
    ensures |r| == |posts|
    ensures forall p :: p in r <==> p.id in posts && posts[p.id] == p
    decreases |posts|
  {
    if posts == map[] then []
    else
      LeastKeyExists(posts.Keys);
      var id :| IsLeast(posts.Keys, id);
      var rest := posts - {id};
      assert rest.Keys == posts.Keys - {id};
      assert |rest| == |rest.Keys| == |posts.Keys| - 1 == |posts| - 1;
      var listed := PostList(rest);
      var r := InsertByCreatedAt(posts[id], listed);
      InsertPermutes(posts[id], listed);
      assert |r| == |multiset(r)| == |multiset(listed)| + 1 == |listed| + 1;
      ListStep(posts, id, listed, r);
      r
  }

  /** `postGetByIdService`. */
  function PostGetById(posts: map<int, Post>, postId: int): (r: ServiceResult<Post>)
    ensures r.Success? <==> postId in posts
    ensures r.Success? ==> r.data == posts[postId]
    ensures r.Failure? ==> r.error == PostNotFound
  {
    if postId in posts then Success(posts[postId]) else Failure(PostNotFound)
  }

  /** The row an insert produces: the next id, the validated fields, the session user as owner. */
  function NewPostRow(id: int, fields: PostFields, userId: int, now: int): (p: Post)
    ensures p.id == id && p.userId == userId && p.createdAt == now
  {
    Post(id, fields.title, fields.content, fields.coverImage, fields.isDraft, userId, now, now)
  }

  /**
   * `.set(postData)`: the fields present in the patch replace the stored ones; `isDraft` is always
   * present. Id, owner and timestamps are kept (the table has no update hook).
   */
  function ApplyPatch(p: Post, patch: PostPatch): (q: Post)
    ensures q.id == p.id && q.userId == p.userId && q.createdAt == p.createdAt && q.updatedAt == p.updatedAt
    ensures q.isDraft == patch.isDraft
    ensures patch.title.None? ==> q.title == p.title
    ensures patch.title.Some? ==> q.title == patch.title.value
    ensures patch.content.None? ==> q.content == p.content
    ensures patch.content.Some? ==> q.content == patch.content.value
    ensures patch.coverImage.None? ==> q.coverImage == p.coverImage
    ensures patch.coverImage.Some? ==> q.coverImage == patch.coverImage.value
  {
    p.(title := patch.title.GetOr(p.title), content := patch.content.GetOr(p.content),
       coverImage := patch.coverImage.GetOr(p.coverImage), isDraft := patch.isDraft)
  }

  /** A patch applied twice is the patch applied once. */
  lemma ApplyPatchIdempotent(p: Post, patch: PostPatch)
    ensures ApplyPatch(ApplyPatch(p, patch), patch) == ApplyPatch(p, patch)
  {
  }

  /** A row within the schema bounds stays within them under any patch the update schema accepts. */
  lemma {:induction false} PatchKeepsBounds(p: Post, body: PostUpdateBody)
    requires FieldsInBounds(p.title, p.content, p.coverImage) && ParsePostUpdate(body).ParseOk?
    ensures var q := ApplyPatch(p, ParsePostUpdate(body).data);
      FieldsInBounds(q.title, q.content, q.coverImage) && q.isDraft == body.isDraft.GetOr(true)
  {
    var patch := ParsePostUpdate(body).data;
    assert patch.title == body.title && patch.content == body.content && patch.coverImage == body.coverImage;
  }

  /**
   * `postCreateservice`: inserts the validated fields under the session user. A session whose user
   * row is gone violates the foreign key and the insert throws; the identity value is spent either way.
   */
  method PostCreate(db: Database, fields: PostFields, user: SessionUser, now: int)
    returns (r: Completion<ServiceResult<Post>>)
    requires db.Valid()
    modifies db
    ensures db.Valid()
    ensures db.nextPostId == old(db.nextPostId) + 1
    ensures db.users == old(db.users) && db.codes == old(db.codes) && db.outbox == old(db.outbox)
    ensures unchanged(db`nextUserId, db`nextCodeId)
    ensures user.id !in old(db.users) ==> r.Threw? && db.posts == old(db.posts)
    ensures user.id in old(db.users) ==>
      var row := NewPostRow(old(db.nextPostId), fields, user.id, now);
      && r == Returned(Success(row))
      && db.posts == old(db.posts)[row.id := row]
  {
    var postId := db.nextPostId;
    if user.id !in db.users {
      db.nextPostId := postId + 1;
      return Threw("insert or update on table \"posts\" violates foreign key constraint");
    }
    var row := NewPostRow(postId, fields, user.id, now);
    db.posts, db.nextPostId := db.posts[postId := row], postId + 1;
    r := Returned(Success(row));
  }

  /** `postDeleteService`: removes the row and returns it. */
  method PostDelete(db: Database, postId: int) returns (r: ServiceResult<Post>)
    requires db.Valid()
    modifies db`posts
    ensures db.Valid()
    ensures postId !in old(db.posts) ==> r == Failure(PostNotDeleted) && db.posts == old(db.posts)
    ensures postId in old(db.posts) ==>
      r == Success(old(db.posts)[postId]) && db.posts == old(db.posts) - {postId}
  {
    if postId !in db.posts {
      return Failure(PostNotDeleted);
    }
    r := Success(db.posts[postId]);
    db.posts := db.posts - {postId};
  }

  /** `postUpdateService`: applies the patch to the row and returns the new row. */
  method PostUpdate(db: Database, postId: int, patch: PostPatch) returns (r: ServiceResult<Post>)
    requires db.Valid()
    modifies db`posts
    ensures db.Valid()
    ensures postId !in old(db.posts) ==> r == Failure(PostNotUpdated) && db.posts == old(db.posts)
    ensures postId in old(db.posts) ==>
      var row := ApplyPatch(old(db.posts)[postId], patch);
      r == Success(row) && db.posts == old(db.posts)[postId := row]
  {
    if postId !in db.posts {
      return Failure(PostNotUpdated);
    }
    var row := ApplyPatch(db.posts[postId], patch);
    db.posts := db.posts[postId := row];
    r := Success(row);
  }
}
