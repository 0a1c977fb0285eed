/** `internal/service/post_service.go`, with the same transaction shape as the item service:
    `beginErr` is the answer of `db.Begin`, the deferred cleanup always commits, and a commit the
    database refuses (`commitErr`) is only logged: the service returns what it computed while the
    transaction's writes are lost. `time.Now()` and `uuid.New()` are parameters. */
module PostService {
  import opened Common
  import opened Auth
  import opened PostModel
  import opened PostRepository
  import opened Tx
  import Paging

  /** The content an update writes: an empty body content keeps what is stored. */
  function MergedContent(given: string, stored: string): (r: string)
    ensures r == "" ==> given == "" && stored == ""
    ensures given != "" ==> r == given
    ensures given == "" ==> r == stored
  {
    if given == "" then stored else given
  }

  class PostService {
    const repo: PostRepo

    constructor (repo: PostRepo)
      ensures this.repo == repo
    {
      this.repo := repo;
    }

    /** The deferred cleanup of a service that has written to the table since it held `before`:
        the handle is committed, and when the database refuses the COMMIT the transaction's
        writes are lost, so the table holds `before` again. */
    method Finish(before: map<Uuid, Post>, commitErr: Option<string>) returns (tx: Transaction)
      requires repo.Valid() && Keyed(before)
      modifies repo
      ensures repo.Valid()
      ensures fresh(tx) && tx.actions == [TxAction.Commit]
      ensures repo.posts == if commitErr.Some? then before else old(repo.posts)
    {
      var logged;
      tx, logged := Closed(commitErr);
      if logged.Some? {
        repo.posts := before;
      }
    }

    /** `CreatePostService`: the post is built by `NewPost` BEFORE any transaction is begun;
        the stored row is exactly the built post, and a repository failure is returned as the
        repository reported it. A refused commit keeps nothing, yet the built post is returned. */
    method CreatePostService(ctx: Context, input: PostInput, freshId: Uuid, now: Time,
                             beginErr: Option<string>, fault: Option<DbError>, commitErr: Option<string>)
      returns (res: Result<Post>, tx: Transaction?)
      requires repo.Valid()
      modifies repo
      ensures repo.Valid()
      ensures commitErr.Some? ==> repo.posts == old(repo.posts)
      ensures var made := NewPost(ctx, input, freshId, now, now);
              && (made.Fail? ==> res == made && tx == null && repo.posts == old(repo.posts))
              && (made.Ok? && beginErr.Some? ==>
                    res == Fail(beginErr.value) && tx == null && repo.posts == old(repo.posts))
              && (made.Ok? && beginErr.None? ==> tx != null && fresh(tx) && tx.actions == [TxAction.Commit])
              && (made.Ok? && beginErr.None? && fault.None? && freshId !in old(repo.posts) ==>
                    res == made
                    && repo.posts == if commitErr.Some? then old(repo.posts) else old(repo.posts)[freshId := made.value])
              && (made.Ok? && beginErr.None? && fault.Some? ==>
                    res == Fail(fault.value.Text()) && repo.posts == old(repo.posts))
              && (made.Ok? && beginErr.None? && fault.None? && freshId in old(repo.posts) ==>
                    res == Fail(DuplicateKey) && repo.posts == old(repo.posts))
    {
      var made := NewPost(ctx, input, freshId, now, now);
      if made.Fail? {
        return made, null;
      }
      if beginErr.Some? {
        return Fail(beginErr.value), null;
      }
      var before := repo.posts;
      var err := repo.CreatePostRepo(made.value, fault);
      res := if err.Some? then Fail(err.value) else made;
      tx := Finish(before, commitErr);
    }

    /** `GetPostByIDService`: the repository's answer, read inside one committed transaction. */
    method GetPostByIDService(input: GetPostInput, beginErr: Option<string>, fault: Option<DbError>,
                              commitErr: Option<string>)
      returns (res: Result<Post>, tx: Transaction?)
      ensures beginErr.Some? ==> res == Fail(beginErr.value) && tx == null
      ensures beginErr.None? ==> res == repo.GetPostByIDRepo(input, fault)
                                 && tx != null && fresh(tx) && tx.actions == [TxAction.Commit]
    {
      if beginErr.Some? {
        return Fail(beginErr.value), null;
      }
      res := repo.GetPostByIDRepo(input, fault);
      var logged;
      tx, logged := Closed(commitErr);
    }

    /** `GetAllPostService`: an empty username is "invalid username" and the repository is not
        asked; otherwise the request is normalised IN PLACE and the repository's answer is passed
        on: its page, its error unchanged, or its (no page, no error) answer to a failing
        cursor. */
    method GetAllPostService(page: PostsPageReq, beginErr: Option<string>, fault: ListFault,
                             commitErr: Option<string>)
      returns (res: Option<PostsPageRes>, err: Option<string>, tx: Transaction?, ghost listing: seq<Post>)
      requires repo.Valid()
      modifies page
      ensures res.Some? ==> err.None?
      ensures beginErr.Some? ==> res.None? && err == beginErr && tx == null && unchanged(page)
      ensures beginErr.None? ==> tx != null && fresh(tx) && tx.actions == [TxAction.Commit]
      ensures beginErr.None? && old(page.username) == "" ==>
                res.None? && err == Some("invalid username") && unchanged(page)
      ensures beginErr.None? && old(page.username) != "" ==>
                && page.username == old(page.username)
                && page.limit == Paging.NormalizedLimit(old(page.limit))
                && page.offset == Paging.NormalizedOffset(old(page.offset))
      ensures beginErr.None? && old(page.username) != "" && !fault.CountFails? ==>
                Paging.IsListing(listing, repo.posts, OwnedBy(repo.posts, page.username), PostKey, PostCreated)
      ensures beginErr.None? && old(page.username) != "" ==>
                var w := Paging.Window(listing, page.limit, page.offset);
                var total := |OwnedBy(repo.posts, page.username)|;
                && (fault.CountFails? ==> res.None? && err == Some(fault.e.Text()))
                && (fault.QueryFails? ==> res.None? && err == Some(LookupError(fault.e)))
                && (fault.IterationFails? ==> res.None? && err.None?)
                && (fault.ScanFails? && fault.row < |w| ==> res.None? && err == Some(fault.e.Text()))
                && (fault.NoFault? || (fault.ScanFails? && fault.row >= |w|) ==>
                      err.None?
                      && res == Some(PostsPageRes(w, total, Paging.CeilDiv(total, page.limit),
                                                  Paging.CurrentPage(page.offset, page.limit), |w|)))
    {
      listing := [];
      if beginErr.Some? {
        return None, beginErr, null, listing;
      }
      if page.username == "" {
        res, err := None, Some("invalid username");
      } else {
        if page.limit <= 0 {
          page.limit := Paging.DefaultLimit;
        }
        if page.offset < 0 {
          page.offset := 0;
        }
        res, err, listing := repo.GetAllPostRepo(page, fault);
      }
      var logged;
      tx, logged := Closed(commitErr);
    }

    /** `UpdatePostService`. The post is first read by `getPost` (id and owner from the path);
        if that fails nothing is written and the lookup's error is returned. Otherwise the body
        is completed IN PLACE (an empty content keeps the stored content; the update time is
        now) and the write goes to the row named by the BODY's own post id and owner, which
        need not be the row just read; no such row is "no data found". A refused commit leaves
        the table as it was. */
    method UpdatePostService(update: UpdatePostInput, getPost: GetPostInput, now: Time,
                             beginErr: Option<string>, getFault: Option<DbError>,
                             updateFault: Option<DbError>, commitErr: Option<string>)
      returns (res: Result<Post>, tx: Transaction?)
      requires repo.Valid()
      modifies repo, update
      ensures repo.Valid()
      ensures commitErr.Some? ==> repo.posts == old(repo.posts)
      ensures beginErr.Some? ==> res == Fail(beginErr.value) && tx == null
      ensures beginErr.None? ==> tx != null && fresh(tx) && tx.actions == [TxAction.Commit]
      ensures beginErr.Some? || old(repo.GetPostByIDRepo(getPost, getFault)).Fail? ==>
                repo.posts == old(repo.posts) && unchanged(update)
      ensures beginErr.None? && old(repo.GetPostByIDRepo(getPost, getFault)).Fail? ==>
                res == old(repo.GetPostByIDRepo(getPost, getFault))
      ensures beginErr.None? && old(repo.GetPostByIDRepo(getPost, getFault)).Ok? ==>
                var stored := old(repo.posts)[getPost.postId];
                && update.content == MergedContent(old(update.content), stored.content)
                && update.updatedAt == now
                && update.postId == old(update.postId) && update.owner == old(update.owner)
                && (updateFault.Some? ==>
                      res == Fail(LookupError(updateFault.value)) && repo.posts == old(repo.posts))
                && (updateFault.None? && !Matches(old(repo.posts), update.postId, update.owner) ==>
                      res == Fail(NoDataFound) && repo.posts == old(repo.posts))
                && (updateFault.None? && Matches(old(repo.posts), update.postId, update.owner) ==>
                      var row := Rewritten(old(repo.posts)[update.postId], update.content, now);
                      res == Ok(Returned(row))
                      && repo.posts == if commitErr.Some? then old(repo.posts)
                                       else old(repo.posts)[update.postId := row])
      ensures repo.posts != old(repo.posts) ==>
                Matches(old(repo.posts), getPost.postId, getPost.owner)
                && Matches(old(repo.posts), old(update.postId), old(update.owner))
    {
      if beginErr.Some? {
        return Fail(beginErr.value), null;
      }
      var before := repo.posts;
      var existing := repo.GetPostByIDRepo(getPost, getFault);
      if existing.Fail? {
        res := existing;
      } else {
        if update.content == "" {
          update.content := existing.value.content;
        }
        update.updatedAt := now;
        res := repo.UpdatePostRepo(update, updateFault);
      }
      tx := Finish(before, commitErr);
    }

    /** `DeletePostService`: forwards `getPost` unchanged, so only the row matching both its id
        and its owner can go; no match is not an error, and a driver failure is returned as the
        repository reported it. A refused commit keeps the row. */
    method DeletePostService(getPost: GetPostInput, beginErr: Option<string>, fault: Option<DbError>,
                             commitErr: Option<string>)
      returns (err: Option<string>, tx: Transaction?)
      requires repo.Valid()
      modifies repo
      ensures repo.Valid()
      ensures commitErr.Some? ==> repo.posts == old(repo.posts)
      ensures beginErr.Some? ==> err == beginErr && tx == null && repo.posts == old(repo.posts)
      ensures beginErr.None? ==> tx != null && fresh(tx) && tx.actions == [TxAction.Commit]
      ensures beginErr.None? && fault.Some? ==>
                err == Some(if fault.value.NoRows? then "item not found" else fault.value.Text())
                && repo.posts == old(repo.posts)
      ensures beginErr.None? && fault.None? ==>
                err.None?
                && repo.posts == if commitErr.None? && Matches(old(repo.posts), getPost.postId, getPost.owner)
                                 then old(repo.posts) - {getPost.postId} else old(repo.posts)
    {
      if beginErr.Some? {
        return beginErr, null;
      }
      var before := repo.posts;
      err := repo.DeletePostRepo(getPost, fault);
      tx := Finish(before, commitErr);
    }
  }
}
