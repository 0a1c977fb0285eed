/** `internal/repository/post_repo.go`: the five SQL statements on the `posts` table, run here
    against an in-memory table keyed by `post_id`. Each method takes the driver failure it may
    meet as a parameter. */
module PostRepository {
  import opened Common
  import opened PostModel
  import Paging

  function PostKey(p: Post): Uuid { p.postId }
  function PostCreated(p: Post): Time { p.createdAt }

  /** The ids of the rows `WHERE owner = owner`. */
  function OwnedBy(posts: map<Uuid, Post>, owner: string): set<Uuid>
  {
    set id | id in posts && posts[id].owner == owner
  }

  /** Whether a row matches `WHERE post_id = id AND owner = owner`. */
  predicate Matches(posts: map<Uuid, Post>, id: Uuid, owner: string)
  {
    id in posts && posts[id].owner == owner
  }

  /** A row after `SET content, updated_at`: those two columns take the given values and the
      post id, owner, user id and creation time are kept. */
  function Rewritten(row: Post, content: string, updatedAt: Time): (r: Post)
    ensures r.postId == row.postId && r.owner == row.owner
    ensures r.userId == row.userId && r.createdAt == row.createdAt
    ensures r.content == content && r.updatedAt == updatedAt
  {
    row.(content := content, updatedAt := updatedAt)
  }

  /** What the update hands back: `RETURNING` lists every column except `user_id`, so the
      returned post is the stored row with the nil user id. */
  function Returned(row: Post): (r: Post)
    ensures r.userId == NilUuid
    ensures r.postId == row.postId && r.owner == row.owner && r.content == row.content
    ensures r.createdAt == row.createdAt && r.updatedAt == row.updatedAt
  {
    Post(row.postId, row.content, row.owner, row.createdAt, row.updatedAt, NilUuid)
  }

  /** A delete keyed by (id, owner) removes the row only when both match: a non-owner's request
      leaves the owner's rows as they were. */
  lemma {:induction false} DeleteMatching(posts: map<Uuid, Post>, id: Uuid, owner: string, other: string)
    requires other != owner
    ensures var after := if Matches(posts, id, owner) then posts - {id} else posts;
            OwnedBy(after, other) == OwnedBy(posts, other)
  {
    var after := if Matches(posts, id, owner) then posts - {id} else posts;
    forall k ensures k in OwnedBy(after, other) <==> k in OwnedBy(posts, other) {
      if k in after {
        assert after[k] == posts[k];
      }
    }
  }

  /** Every row is stored under its own post id. */
  ghost predicate Keyed(posts: map<Uuid, Post>)
  {
    forall id :: id in posts ==> posts[id].postId == id
  }

  /** The `posts` table. */
  class PostRepo {
    var posts: map<Uuid, Post>

    /** Every row is stored under its own id. */
    ghost predicate Valid()
      reads this
    {
      Keyed(posts)
    }

    constructor ()
      ensures Valid() && posts == map[]
    {
      posts := map[];
    }

    /** `CreatePostRepo`: inserts the post with all six columns as given; a taken id or a driver
        failure leaves the table as it was. */
    method CreatePostRepo(post: Post, fault: Option<DbError>) returns (err: Option<string>)
      requires Valid()
      modifies this
      ensures Valid()
      ensures fault.Some? ==> err == Some(fault.value.Text()) && posts == old(posts)
      ensures fault.None? && post.postId in old(posts) ==> err == Some(DuplicateKey) && posts == old(posts)
      ensures fault.None? && post.postId !in old(posts) ==>
                err.None? && posts == old(posts)[post.postId := post]
    {
      if fault.Some? {
        err := Some(fault.value.Text());
      } else if post.postId in posts {
        err := Some(DuplicateKey);
      } else {
        posts := posts[post.postId := post];
        err := None;
      }
    }

    /** `GetPostByIDRepo`: the row whose id AND owner both match, or "no data found". */
    function GetPostByIDRepo(input: GetPostInput, fault: Option<DbError>): (r: Result<Post>)
      reads this
      ensures fault.Some? ==> r == Fail(LookupError(fault.value))
      ensures fault.None? ==> (r.Ok? <==> Matches(posts, input.postId, input.owner))
      ensures fault.None? && r.Fail? ==> r.err == NoDataFound
      ensures r.Ok? ==> input.postId in posts && r.value == posts[input.postId] && r.value.owner == input.owner
    {
      if fault.Some? then Fail(LookupError(fault.value))
      else if Matches(posts, input.postId, input.owner) then Ok(posts[input.postId])
      else Fail(NoDataFound)
    }

    /** The rows `WHERE owner = owner ORDER BY created_at DESC`, in one of the orders the
        database may choose. */
    method SelectNewestFirst(owner: string) returns (ordered: seq<Post>)
      requires Valid()
      ensures Paging.IsListing(ordered, posts, OwnedBy(posts, owner), PostKey, PostCreated)
    {
      var keys := OwnedBy(posts, owner);
      ghost var existing := Paging.ListingExists(posts, keys, PostKey, PostCreated);
      ordered :| Paging.IsListing(ordered, posts, keys, PostKey, PostCreated);
    }

    /** `GetAllPostRepo`: as `GetAllItemsRepo`, returning whole posts. On success the page is
        the window `LIMIT limit OFFSET offset` of the owner's posts newest first, `totalPosts`
        counts all of them, `totalPages` is the ceiling of count over limit, `current` is
        `offset/limit + 1` and `pageSize` the number returned. A failing count, query or scan
        returns its error; a failing cursor returns NO page and NO error, because the code
        returns the query's error, which is nil by then. */
    method GetAllPostRepo(page: PostsPageReq, fault: ListFault)
      returns (res: Option<PostsPageRes>, err: Option<string>, ghost listing: seq<Post>)
      requires Valid()
      requires page.limit > 0 && page.offset >= 0
      ensures res.Some? ==> err.None?
      ensures res.None? && err.None? <==> fault.IterationFails?
      ensures !fault.CountFails? ==>
                Paging.IsListing(listing, posts, OwnedBy(posts, page.username), PostKey, PostCreated)
      ensures fault.CountFails? ==> err == Some(fault.e.Text())
      ensures fault.QueryFails? ==> err == Some(LookupError(fault.e))
      ensures fault.ScanFails? && fault.row < |Paging.Window(listing, page.limit, page.offset)| ==>
                err == Some(fault.e.Text())
      ensures var w := Paging.Window(listing, page.limit, page.offset);
              var total := |OwnedBy(posts, page.username)|;
              (fault.NoFault? || (fault.ScanFails? && fault.row >= |w|)) ==>
                res == Some(PostsPageRes(w, total, Paging.CeilDiv(total, page.limit),
                                         Paging.CurrentPage(page.offset, page.limit), |w|))
    {
      var owner, limit, offset := page.username, page.limit, page.offset;
      var totalPosts := |OwnedBy(posts, owner)|;
      if fault.CountFails? {
        return None, Some(fault.e.Text()), [];
      }
      var ordered := SelectNewestFirst(owner);
      listing := ordered;
      // `rows, err := tx.Query(...)`: past this check `err` is nil
      var queryErr: Option<string> := if fault.QueryFails? then Some(LookupError(fault.e)) else None;
      if queryErr.Some? {
        return None, queryErr, listing;
      }
      var rows := Paging.Window(ordered, limit, offset);
      var scanned: seq<Post> := [];
      var i := 0;
      while i < |rows|
        invariant 0 <= i <= |rows|
        invariant scanned == rows[..i]
        invariant fault.ScanFails? ==> fault.row >= i
      {
        if fault.ScanFails? && fault.row == i {
          return None, Some(fault.e.Text()), listing;
        }
        scanned := scanned + [rows[i]];
        i := i + 1;
      }
      if fault.IterationFails? {
        return None, queryErr, listing;
      }
      assert scanned == rows;
      res := Some(PostsPageRes(scanned, totalPosts, Paging.CeilDiv(totalPosts, limit),
                               Paging.CurrentPage(offset, limit), |scanned|));
      err := None;
    }

    /** `UpdatePostRepo`: `WHERE post_id = post.postId AND owner = post.owner`, both taken from
        the given input. The matched row gets the new content and update time, and comes back
        without its user id; no match is "no data found"; every other row is unchanged. */
    method UpdatePostRepo(post: UpdatePostInput, fault: Option<DbError>) returns (res: Result<Post>)
      requires Valid()
      modifies this
      ensures Valid()
      ensures fault.Some? ==> res == Fail(LookupError(fault.value)) && posts == old(posts)
      ensures fault.None? && !Matches(old(posts), post.postId, post.owner) ==>
                res == Fail(NoDataFound) && posts == old(posts)
      ensures fault.None? && Matches(old(posts), post.postId, post.owner) ==>
                var row := Rewritten(old(posts)[post.postId], post.content, post.updatedAt);
                posts == old(posts)[post.postId := row] && res == Ok(Returned(row))
    {
      if fault.Some? {
        res := Fail(LookupError(fault.value));
      } else if !Matches(posts, post.postId, post.owner) {
        res := Fail(NoDataFound);
      } else {
        var row := Rewritten(posts[post.postId], post.content, post.updatedAt);
        posts := posts[post.postId := row];
        res := Ok(Returned(row));
      }
    }

    /** `DeletePostRepo`: removes the row `WHERE post_id = id AND owner = owner`; when no row
        matches nothing changes and no error is reported. */
    method DeletePostRepo(input: GetPostInput, fault: Option<DbError>) returns (err: Option<string>)
      requires Valid()
      modifies this
      ensures Valid()
      ensures fault.Some? ==> err == Some(if fault.value.NoRows? then "item not found" else fault.value.Text())
                              && posts == old(posts)
      ensures fault.None? && Matches(old(posts), input.postId, input.owner) ==>
                err.None? && posts == old(posts) - {input.postId}
      ensures fault.None? && !Matches(old(posts), input.postId, input.owner) ==>
                err.None? && posts == old(posts)
    {
      if fault.Some? {
        err := Some(if fault.value.NoRows? then "item not found" else fault.value.Text());
      } else {
        if Matches(posts, input.postId, input.owner) {
          posts := posts - {input.postId};
        }
        err := None;
      }
    }
  }
}
