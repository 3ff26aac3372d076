/** The post controllers: the status and body each request gets, and the ownership checks. */
module PostController {
  import opened Common
  import opened UserSchema
  import opened PostSchema
  import opened Store
  import opened PostService

  const InternalError := "Internal server error"
  const NoDeletePermission := "You do not have permission to delete this post"
  const NoEditPermission := "You do not have permission to edit this post"

  /** The JSON bodies the controllers send. */
  datatype Body =
    | PostsBody(posts: seq<Post>)
    | PostBody(post: Post)
    | ErrorBody(error: string)
    | ResultBody(result: ServiceResult<Post>)

  datatype Reply = Reply(status: int, body: Body)

  /** What the lookup and the owner comparison decide about a request on one post. */
  datatype Access = Missing | NotOwner | Owner

  function PostAccess(posts: map<int, Post>, postId: int, user: SessionUser): (a: Access)
    ensures a == Missing <==> postId !in posts
    ensures a == Owner <==> postId in posts && posts[postId].userId == user.id
  {
    var found := PostGetById(posts, postId);
    if found.Failure? then Missing
    else if found.data.userId != user.id then NotOwner
    else Owner
  }

  /** `postListController`: the list service never fails, so the reply is always 200 with every post. */
  function ListPosts(posts: map<int, Post>): (reply: Reply)
    requires PostsWellFormed(posts)
    ensures reply.status == 200 && reply.body.PostsBody?
    ensures SortedByCreatedAt(reply.body.posts) && |reply.body.posts| == |posts|
    ensures forall p :: p in reply.body.posts <==> p.id in posts && posts[p.id] == p
  {
    Reply(200, PostsBody(PostList(posts)))
  }

  /** The reply to a create result: 201 with the row, 400 with a failed result, 500 when it threw. */
  function CreateReply(c: Completion<ServiceResult<Post>>): (reply: Reply)
    ensures reply.status == 201 <==> c.Returned? && c.value.Success?
    ensures reply.status == 500 <==> c.Threw?
    ensures reply.status == 201 ==> reply.body == PostBody(c.value.data)
    ensures reply.status == 500 ==> reply.body == ErrorBody(InternalError)
  {
    match c
    case Threw(_) => Reply(500, ErrorBody(InternalError))
    case Returned(r) => if r.Success? then Reply(201, PostBody(r.data)) else Reply(400, ResultBody(r))
  }

  /** The reply to a delete result: 200 or 400, the result itself as the body. */
  function DeleteReply(r: ServiceResult<Post>): (reply: Reply)
    ensures reply.status == 200 <==> r.Success?
    ensures reply.status == 200 || reply.status == 400
    ensures reply.body == ResultBody(r)
  {
    if r.Success? then Reply(200, ResultBody(r)) else Reply(400, ResultBody(r))
  }

  /** The reply to an update result: 200 with the row, or 400 with the error. */
  function UpdateReply(r: ServiceResult<Post>): (reply: Reply)
    ensures reply.status == 200 <==> r.Success?
    ensures r.Success? ==> reply.body == PostBody(r.data)
    ensures r.Failure? ==> reply == Reply(400, ErrorBody(r.error))
  {
    if r.Failure? then Reply(400, ErrorBody(r.error)) else Reply(200, PostBody(r.data))
  }

  /**
   * `postCreateController`: the session user becomes the owner. A session whose user row has been
   * deleted makes the insert throw, which is answered with 500.
   */
  method CreatePost(db: Database, user: SessionUser, fields: PostFields, now: int) returns (reply: Reply)
    requires db.Valid()
    modifies db
    ensures db.Valid()
    ensures user.id in old(db.users) ==>
      var row := NewPostRow(old(db.nextPostId), fields, user.id, now);
      reply == Reply(201, PostBody(row)) && db.posts == old(db.posts)[row.id := row]
    ensures user.id !in old(db.users) ==> reply == Reply(500, ErrorBody(InternalError)) && db.posts == old(db.posts)
    ensures db.users == old(db.users) && db.codes == old(db.codes)
  {
    var created := PostCreate(db, fields, user, now);
    reply := CreateReply(created);
  }

  /**
   * `postDeleteController`: 404 for a missing post, 403 when the session user does not own it,
   * otherwise the post is deleted. Posts of other owners are never touched.
   */
  method DeletePost(db: Database, user: SessionUser, postId: int) returns (reply: Reply)
    requires db.Valid()
    modifies db`posts
    ensures db.Valid()
    ensures PostAccess(old(db.posts), postId, user) == Missing ==>
      reply == Reply(404, ResultBody(Failure(PostNotFound))) && db.posts == old(db.posts)
    ensures PostAccess(old(db.posts), postId, user) == NotOwner ==>
      reply == Reply(403, ErrorBody(NoDeletePermission)) && db.posts == old(db.posts)
    ensures PostAccess(old(db.posts), postId, user) == Owner ==>
      reply == Reply(200, ResultBody(Success(old(db.posts)[postId]))) && db.posts == old(db.posts) - {postId}
    ensures forall id :: id in old(db.posts) && old(db.posts)[id].userId != user.id ==>
      id in db.posts && db.posts[id] == old(db.posts)[id]
  {
    var found := PostGetById(db.posts, postId);
    if found.Failure? {
      return Reply(404, ResultBody(found));
    }
    if found.data.userId != user.id {
      return Reply(403, ErrorBody(NoDeletePermission));
    }
    var deleted := PostDelete(db, postId);
    reply := DeleteReply(deleted);
  }

  /**
   * `postUpdateController`: 404 for a missing post, 403 when the session user does not own it,
   * otherwise the patch is applied. Posts of other owners are never touched.
   */
  method UpdatePost(db: Database, user: SessionUser, postId: int, patch: PostPatch) returns (reply: Reply)
    requires db.Valid()
    modifies db`posts
    ensures db.Valid()
    ensures PostAccess(old(db.posts), postId, user) == Missing ==>
      reply == Reply(404, ErrorBody(PostNotFound)) && db.posts == old(db.posts)
    ensures PostAccess(old(db.posts), postId, user) == NotOwner ==>
      reply == Reply(403, ErrorBody(NoEditPermission)) && db.posts == old(db.posts)
    ensures PostAccess(old(db.posts), postId, user) == Owner ==>
      var row := ApplyPatch(old(db.posts)[postId], patch);
      reply == Reply(200, PostBody(row)) && db.posts == old(db.posts)[postId := row]
    ensures forall id :: id in old(db.posts) && old(db.posts)[id].userId != user.id ==>
      id in db.posts && db.posts[id] == old(db.posts)[id]
  {
    var found := PostGetById(db.posts, postId);
    if found.Failure? {
      return Reply(404, ErrorBody(found.error));
    }
    if found.data.userId != user.id {
      return Reply(403, ErrorBody(NoEditPermission));
    }
    var updated := PostUpdate(db, postId, patch);
    reply := UpdateReply(updated);
  }
}
