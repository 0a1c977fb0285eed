/** The post records of `internal/model/post.go` and the constructor `NewPost`. */
module PostModel {
  import opened Common
  import opened Auth

  /** A row of the `posts` table. */
  datatype Post = Post(postId: Uuid, content: string, owner: string, createdAt: Time, updatedAt: Time,
                       userId: Uuid)

  /** The body of a create request. */
  datatype PostInput = PostInput(content: string)

  /** The key of a single-post read or delete: the post id and the username it must belong to. */
  datatype GetPostInput = GetPostInput(postId: Uuid, owner: string)

  /** One page of a user's posts with its metadata. */
  datatype PostsPageRes = PostsPageRes(posts: seq<Post>, totalPosts: int, totalPages: int,
                                       current: int, pageSize: int)

  /** The body of an update request, including the `post_id` and `owner` the client sends.
      The update service fills `content` and `updatedAt` in place. */
  class UpdatePostInput {
    var postId: Uuid
    var owner: string
    var content: string
    var updatedAt: Time

    constructor (postId: Uuid, owner: string, content: string, updatedAt: Time)
      ensures this.postId == postId && this.owner == owner
      ensures this.content == content && this.updatedAt == updatedAt
    {
      this.postId, this.owner, this.content, this.updatedAt := postId, owner, content, updatedAt;
    }
  }

  /** A page request. The list service normalises `limit` and `offset` in place. */
  class PostsPageReq {
    var username: string
    var limit: int
    var offset: int

    constructor (username: string, limit: int, offset: int)
      ensures this.username == username && this.limit == limit && this.offset == offset
    {
      this.username, this.limit, this.offset := username, limit, offset;
    }
  }

  /** `NewPost`. `freshId` is what `uuid.New()` returns and `createdAt`, `updatedAt` are the two
      readings of `time.Now()`. The identity checks come first, then the empty-content check;
      on success the post belongs to the context's identity and keeps the content untrimmed. */
  function NewPost(ctx: Context, input: PostInput, freshId: Uuid, createdAt: Time, updatedAt: Time)
    : (r: Result<Post>)
    ensures ctx.user.None? ==> r == Fail("failed to get context key")
    ensures ctx.user.Some? && (ctx.user.value.userId == NilUuid || ctx.user.value.username == "") ==>
              r == Fail("no data in context")
    ensures (ctx.user.Some? && ctx.user.value.userId != NilUuid && ctx.user.value.username != ""
             && input.content == "") ==> r == Fail("content cannot be empty")
    ensures r.Ok? <==> ctx.user.Some? && ctx.user.value.userId != NilUuid && ctx.user.value.username != ""
                       && input.content != ""
    ensures r.Ok? ==> && r.value.postId == freshId
                      && r.value.content == input.content
                      && r.value.owner == ctx.user.value.username
                      && r.value.userId == ctx.user.value.userId
                      && r.value.createdAt == createdAt && r.value.updatedAt == updatedAt
  {
    if ctx.user.None? then
      Fail("failed to get context key")
    else
      var key := ctx.user.value;
      if key.userId == NilUuid || key.username == "" then
        Fail("no data in context")
      else if input.content == "" then
        Fail("content cannot be empty")
      else
        Ok(Post(freshId, input.content, key.username, createdAt, updatedAt, key.userId))
  }
}
