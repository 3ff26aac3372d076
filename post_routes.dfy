/** The `/posts` router: which middleware runs before each post controller. */
module PostRoutes {
  import opened Common
  import opened UserSchema
  import opened Store
  import opened PostService
  import opened PostController
  import opened Http
  import opened AccountMiddleware
  import opened ValidationMiddleware

  /** The route parameter `validateId` reads, which the update route declares as `/:id`. */
  const IdParam := "id"
  /** The route parameter the delete route declares as `/:postId`. */
  const PostIdParam := "postId"

  /** What the `isAuthenticated, validateId` prefix of a chain decides. */
  datatype Gate = Stopped(response: ErrorResponse) | Passed(user: SessionUser, id: int)

  /**
   * `isAuthenticated` then `validateId` on a request carrying `params` and `session`: the first
   * refusal stops the chain; otherwise the controller gets the session user and the parsed id.
   */
  method AuthenticatedId(session: Option<SessionUser>, params: map<string, string>) returns (g: Gate)
    ensures session.None? ==> g == Stopped(ErrorJson(401, NotLoggedIn))
    ensures session.Some? && ParseIdParam(params).None? ==> g == Stopped(ErrorJson(400, InvalidId))
    ensures session.Some? && ParseIdParam(params).Some? ==> g == Passed(session.value, ParseIdParam(params).value)
  {
    var req := new Request<(), ()>(params, (), session);
    var next := IsAuthenticated(req);
    if !next {
      return Stopped(req.response.value);
    }
    assert req.params == params && req.user == session;
    next := ValidateId(req);
    if !next {
      return Stopped(req.response.value);
    }
    assert IdParam in req.validated && req.user == session;
    g := Passed(req.user.value, req.validated[IdParam]);
  }

  /**
   * The delete chain `isAuthenticated, validateId, postDeleteController` on a path whose one
   * segment Express binds to the parameter named `param`.
   */
  method DeletePostRoute(db: Database, session: Option<SessionUser>, param: string, segment: string)
    returns (r: RouteReply<Reply>)
    requires db.Valid()
    modifies db`posts
    ensures db.Valid()
    ensures session.None? ==> r == Halted(ErrorJson(401, NotLoggedIn)) && db.posts == old(db.posts)
    ensures session.Some? && ParseIdParam(map[param := segment]).None? ==>
      r == Halted(ErrorJson(400, InvalidId)) && db.posts == old(db.posts)
    ensures session.Some? && ParseIdParam(map[param := segment]).Some? ==>
      var postId := ParseIdParam(map[param := segment]).value;
      var access := PostAccess(old(db.posts), postId, session.value);
      && (access == Missing ==> r == Handled(Reply(404, ResultBody(Failure(PostNotFound)))) && db.posts == old(db.posts))
      && (access == NotOwner ==> r == Handled(Reply(403, ErrorBody(NoDeletePermission))) && db.posts == old(db.posts))
      && (access == Owner ==>
            r == Handled(Reply(200, ResultBody(Success(old(db.posts)[postId])))) && db.posts == old(db.posts) - {postId})
  {
    var g := AuthenticatedId(session, map[param := segment]);
    if g.Stopped? {
      return Halted(g.response);
    }
    var reply := DeletePost(db, g.user, g.id);
    r := Handled(reply);
  }

  /** A path segment bound to `postId` leaves `params.id` undefined, which never parses. */
  lemma PostIdParamNeverParses(segment: string)
    ensures ParseIdParam(map[PostIdParam := segment]) == None
  {
    MissingIdIsNaN(map[PostIdParam := segment]);
  }

  /** The decimal form of any id, bound to `id`, parses back to that id. */
  lemma IdParamRoundTrip(postId: int)
    ensures ParseIdParam(map[IdParam := IntToDecimal(postId)]) == Some(postId)
  {
    ParseDecimal(postId, []);
    assert IntToDecimal(postId) + [] == IntToDecimal(postId);
  }

  /**
   * `DELETE /posts/:postId` as declared: every request with a session is refused with 400
   * "Invalid ID", whatever the path holds, and no post is ever deleted.
   */
  method DeletePostAsDeclared(db: Database, session: Option<SessionUser>, segment: string)
    returns (r: RouteReply<Reply>)
    requires db.Valid()
    modifies db`posts
    ensures db.Valid() && db.posts == old(db.posts)
    ensures session.None? ==> r == Halted(ErrorJson(401, NotLoggedIn))
    ensures session.Some? ==> r == Halted(ErrorJson(400, InvalidId))
  {
    PostIdParamNeverParses(segment);
    r := DeletePostRoute(db, session, PostIdParam, segment);
  }

  /**
   * `DELETE /posts/:id`, the name `validateId` reads and the update route uses: the owner of a
   * post deletes it by its decimal id.
   */
  method DeletePostById(db: Database, session: Option<SessionUser>, postId: int)
    returns (r: RouteReply<Reply>)
    requires db.Valid()
    modifies db`posts
    ensures db.Valid()
    ensures session.None? ==> r == Halted(ErrorJson(401, NotLoggedIn)) && db.posts == old(db.posts)
    ensures session.Some? && PostAccess(old(db.posts), postId, session.value) == Owner ==>
      r == Handled(Reply(200, ResultBody(Success(old(db.posts)[postId])))) && db.posts == old(db.posts) - {postId}
    ensures session.Some? && PostAccess(old(db.posts), postId, session.value) != Owner ==>
      r.Handled? && r.reply.status in {403, 404} && db.posts == old(db.posts)
  {
    IdParamRoundTrip(postId);
    r := DeletePostRoute(db, session, IdParam, IntToDecimal(postId));
  }
}
