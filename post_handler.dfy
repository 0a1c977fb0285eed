/** The guards of `handler/post_handler.go`, in the same form as the item handler's:
    `parsedId` is what `uuid.Parse` made of the `post_id` path segment, `body` what the JSON
    decoder made of the request body, and a query parameter is what `strconv.Atoi` made of it
    (`None` when it is missing or not a number). */
module PostHandler {
  import opened Common
  import opened Http
  import opened Auth
  import opened PostModel
  import opened PostRepository
  import opened PostService
  import Paging

  /** `CreatePost`: identity (401), then the path username (403), then the body, whose decoding
      failure is a 500 rather than a 400, and only then the service. */
  function CreatePostGuard(ctx: Context, username: string, body: Result<PostInput>): (s: Step<PostInput>)
    ensures ctx.user.None? ==> s == Respond(Unauthorized("Unauthorized: "))
    ensures ctx.user.Some? && !PathIsCaller(ctx, username) ==> s == Respond(Forbidden("Forbidden access: "))
    ensures PathIsCaller(ctx, username) && body.Fail? ==> s == Respond(Internal("Internal error: ", Some(body.err)))
    ensures s.Invoke? <==> PathIsCaller(ctx, username) && body.Ok?
    ensures s.Invoke? ==> s.call == body.value
  {
    if ctx.user.None? then Respond(Unauthorized("Unauthorized: "))
    else if username != ctx.user.value.username then Respond(Forbidden("Forbidden access: "))
    else if body.Fail? then Respond(Internal("Internal error: ", Some(body.err)))
    else Invoke(body.value)
  }

  /** A post created through the handler belongs to the user named in the path. */
  lemma {:induction false} CreatedPostBelongsToPathUser(ctx: Context, username: string, body: Result<PostInput>,
                                                        freshId: Uuid, now: Time)
    requires CreatePostGuard(ctx, username, body).Invoke?
    ensures var made := NewPost(ctx, CreatePostGuard(ctx, username, body).call, freshId, now, now);
            && (made.Ok? <==> ctx.user.value.userId != NilUuid && username != "" && body.value.content != "")
            && (made.Ok? ==> made.value.owner == username && made.value.content == body.value.content)
  {
    assert PathIsCaller(ctx, username) && body.Ok?;
  }

  function CreatePostReply(res: Result<Post>): (r: Response)
    ensures res.Fail? ==> r == Internal("Failed to create post: ", Some(res.err))
    ensures res.Ok? ==> r == Body(StatusCreated, "post created", None)
  {
    if res.Fail? then Internal("Failed to create post: ", Some(res.err))
    else Body(StatusCreated, "post created", None)
  }

  /** `GetPostByID`: no identity check; a malformed id is 400, any other request reads the post
      of the path user. */
  function GetPostByIDGuard(username: string, parsedId: Result<Uuid>): (s: Step<GetPostInput>)
    ensures parsedId.Fail? ==> s == Respond(BadRequest("Bad request: Invalid post ID", None))
    ensures s.Invoke? <==> parsedId.Ok?
    ensures s.Invoke? ==> s.call.postId == parsedId.value && s.call.owner == username
  {
    if parsedId.Fail? then Respond(BadRequest("Bad request: Invalid post ID", None))
    else Invoke(GetPostInput(parsedId.value, username))
  }

  function GetPostByIDReply(res: Result<Post>): (r: Response)
    ensures res.Fail? ==> r == Internal("Failed to fetch post: ", Some(res.err))
    ensures res.Ok? ==> r == Body(StatusOK, "OK", None)
  {
    if res.Fail? then Internal("Failed to fetch post: ", Some(res.err))
    else Body(StatusOK, "OK", None)
  }

  /** The page request `GetAllPosts` builds from the path and the query. */
  datatype PageQuery = PageQuery(username: string, limit: int, offset: int)

  /** `GetAllPosts`: an empty path username is a 400 with a `null` body; otherwise a limit that
      is missing, not a number or not positive becomes 10, an offset that is missing, not a
      number or negative becomes 0, and the service is called with the result. */
  function GetAllPostsGuard(username: string, limitParam: Option<int>, offsetParam: Option<int>)
    : (s: Step<PageQuery>)
    ensures username == "" ==> s == Respond(NullBody(StatusBadRequest))
    ensures s.Invoke? <==> username != ""
    ensures s.Invoke? ==> s.call.username == username && s.call.limit > 0 && s.call.offset >= 0
    ensures s.Invoke? && limitParam.Some? && limitParam.value > 0 ==> s.call.limit == limitParam.value
    ensures s.Invoke? && (limitParam.None? || limitParam.value <= 0) ==> s.call.limit == Paging.DefaultLimit
    ensures s.Invoke? && offsetParam.Some? && offsetParam.value >= 0 ==> s.call.offset == offsetParam.value
    ensures s.Invoke? && (offsetParam.None? || offsetParam.value < 0) ==> s.call.offset == 0
  {
    if username == "" then Respond(NullBody(StatusBadRequest))
    else
      var limit := if limitParam.None? || limitParam.value <= 0 then Paging.DefaultLimit else limitParam.value;
      var offset := if offsetParam.None? || offsetParam.value < 0 then 0 else offsetParam.value;
      Invoke(PageQuery(username, limit, offset))
  }

  /** The handler's defaults already satisfy the service's normalisation, which then changes
      nothing, and the service's empty-username check is never reached from the handler. */
  lemma {:induction false} HandlerPageIsNormal(username: string, limitParam: Option<int>, offsetParam: Option<int>)
    requires GetAllPostsGuard(username, limitParam, offsetParam).Invoke?
    ensures var q := GetAllPostsGuard(username, limitParam, offsetParam).call;
            && q.username != ""
            && Paging.NormalizedLimit(q.limit) == q.limit
            && Paging.NormalizedOffset(q.offset) == q.offset
  {
    var q := GetAllPostsGuard(username, limitParam, offsetParam).call;
    assert q.limit > 0 && q.offset >= 0;
  }

  /** Any service error is a 500 with no error text; a service answer without error is a 200,
      even the (no page, no error) answer to a failing cursor. */
  function GetAllPostsReply(err: Option<string>): (r: Response)
    ensures err.Some? ==> r == Internal("Bad request: unable to fetch posts", None)
    ensures err.None? ==> r == Body(StatusOK, "posts fetched", None)
  {
    if err.Some? then Internal("Bad request: unable to fetch posts", None)
    else Body(StatusOK, "posts fetched", None)
  }

  /** `UpdatePost`: identity (401), then the id (400), then the path username (403), then the
      body (400), and only then the service, with the decoded body and the key (path id, path
      username). */
  function UpdatePostGuard<B>(ctx: Context, parsedId: Result<Uuid>, username: string, body: Result<B>)
    : (s: Step<(B, GetPostInput)>)
    ensures ctx.user.None? ==> s == Respond(Unauthorized("Unauthorized: "))
    ensures ctx.user.Some? && parsedId.Fail? ==>
              s == Respond(BadRequest("Invalid ID: post ID parsing failed", Some(parsedId.err)))
    ensures ctx.user.Some? && parsedId.Ok? && !PathIsCaller(ctx, username) ==>
              s == Respond(Forbidden("Forbidden access: "))
    ensures PathIsCaller(ctx, username) && parsedId.Ok? && body.Fail? ==>
              s == Respond(BadRequest("Bad request: ", Some(body.err)))
    ensures s.Invoke? <==> PathIsCaller(ctx, username) && parsedId.Ok? && body.Ok?
    ensures s.Invoke? ==> s.call == (body.value, GetPostInput(parsedId.value, username))
  {
    if ctx.user.None? then Respond(Unauthorized("Unauthorized: "))
    else if parsedId.Fail? then Respond(BadRequest("Invalid ID: post ID parsing failed", Some(parsedId.err)))
    else if username != ctx.user.value.username then Respond(Forbidden("Forbidden access: "))
    else if body.Fail? then Respond(BadRequest("Bad request: ", Some(body.err)))
    else Invoke((body.value, GetPostInput(parsedId.value, username)))
  }

  function UpdatePostReply(res: Result<Post>): (r: Response)
    ensures res.Fail? ==> r == Body(StatusInternalServerError, "invalid id", Some(res.err))
    ensures res.Ok? ==> r == Body(StatusOK, "post updated", None)
  {
    if res.Fail? then Body(StatusInternalServerError, "invalid id", Some(res.err))
    else Body(StatusOK, "post updated", None)
  }

  /** `DeletePost`: identity (401), then the id (400), then the path username (403); the service
      gets the key (path id, path username). */
  function DeletePostGuard(ctx: Context, parsedId: Result<Uuid>, username: string): (s: Step<GetPostInput>)
    ensures ctx.user.None? ==> s == Respond(Unauthorized("Unauthorized: "))
    ensures ctx.user.Some? && parsedId.Fail? ==> s == Respond(BadRequest("Invalid ID: ", Some(parsedId.err)))
    ensures ctx.user.Some? && parsedId.Ok? && !PathIsCaller(ctx, username) ==>
              s == Respond(Forbidden("Forbidden access: "))
    ensures s.Invoke? <==> PathIsCaller(ctx, username) && parsedId.Ok?
    ensures s.Invoke? ==> s.call == GetPostInput(parsedId.value, username)
  {
    if ctx.user.None? then Respond(Unauthorized("Unauthorized: "))
    else if parsedId.Fail? then Respond(BadRequest("Invalid ID: ", Some(parsedId.err)))
    else if username != ctx.user.value.username then Respond(Forbidden("Forbidden access: "))
    else Invoke(GetPostInput(parsedId.value, username))
  }

  /** Whatever a delete request names, only a post of the caller can go: the guard's key carries
      the caller's own username, and the repository removes a row only when its owner is that
      key's owner. */
  lemma {:induction false} DeleteOnlyCallersPost(ctx: Context, parsedId: Result<Uuid>, username: string,
                                                 posts: map<Uuid, Post>, other: string)
    requires DeletePostGuard(ctx, parsedId, username).Invoke?
    requires other != ctx.user.value.username
    ensures var key := DeletePostGuard(ctx, parsedId, username).call;
            var after := if Matches(posts, key.postId, key.owner) then posts - {key.postId} else posts;
            OwnedBy(after, other) == OwnedBy(posts, other)
  {
    var key := DeletePostGuard(ctx, parsedId, username).call;
    assert key.owner == ctx.user.value.username;
    DeleteMatching(posts, key.postId, key.owner, other);
  }

  function DeletePostReply(err: Option<string>): (r: Response)
    ensures err.Some? ==> r == Internal("Failed to delete post: ", err)
    ensures err.None? ==> r == Body(StatusOK, "post deleted successfully", None)
  {
    if err.Some? then Internal("Failed to delete post: ", err)
    else Body(StatusOK, "post deleted successfully", None)
  }

  /** The post handler over its service. */
  class PostHandler {
    const serv: PostService

    constructor (serv: PostService)
      ensures this.serv == serv
    {
      this.serv := serv;
    }

    /** `UpdatePost` end to end: the guard, then the service, then the reply. `input` is the
        struct the decoder filled (`decodeErr` its failure). The path post must be the caller's,
        but the row written is the one named by the BODY's post id and owner, so a caller who
        owns any post can rewrite another user's post by naming it in the body. */
    method UpdatePost(ctx: Context, parsedId: Result<Uuid>, username: string, input: UpdatePostInput,
                      decodeErr: Option<string>, now: Time, beginErr: Option<string>,
                      getFault: Option<DbError>, updateFault: Option<DbError>, commitErr: Option<string>)
      returns (resp: Response)
      requires serv.repo.Valid()
      modifies serv.repo, input
      ensures serv.repo.Valid()
      ensures UpdatePostGuard(ctx, parsedId, username, Decoded(input, decodeErr)).Respond? ==>
                && resp == UpdatePostGuard(ctx, parsedId, username, Decoded(input, decodeErr)).resp
                && serv.repo.posts == old(serv.repo.posts) && unchanged(input)
      ensures UpdatePostGuard(ctx, parsedId, username, Decoded(input, decodeErr)).Invoke? ==>
                resp.Body? && (resp.status == StatusOK || (resp.status == StatusInternalServerError
                                                           && resp.message == "invalid id"))
      ensures commitErr.Some? ==> serv.repo.posts == old(serv.repo.posts)
      ensures serv.repo.posts != old(serv.repo.posts) ==>
                && PathIsCaller(ctx, username) && parsedId.Ok?
                && Matches(old(serv.repo.posts), parsedId.value, username)
                && Matches(old(serv.repo.posts), old(input.postId), old(input.owner))
                && serv.repo.posts == old(serv.repo.posts)[old(input.postId) :=
                     Rewritten(old(serv.repo.posts)[old(input.postId)], input.content, now)]
    {
      var step := UpdatePostGuard(ctx, parsedId, username, Decoded(input, decodeErr));
      if step.Respond? {
        return step.resp;
      }
      var res, tx := serv.UpdatePostService(step.call.0, step.call.1, now, beginErr, getFault, updateFault,
                                            commitErr);
      resp := UpdatePostReply(res);
    }
  }
}
