# buy-n-con core in Dafny

A Dafny model of the request path of buy-n-con, a Go REST API over PostgreSQL in which
users own items and posts. A request passes through four layers, and each is modelled here:

- **Auth middleware.** It turns a `Bearer` token into a verified identity in the request context.
- **Handlers.** They check that identity against the `username` in the path, parse the resource
  id and decode the body. Then they either answer at once or call one service.
- **Services.** Each begins a transaction and defers `CommitOrRollback`. Some normalise the page
  request, and the update services merge the body with the stored row in place.
- **Repositories.** They run one SQL statement each on the `items` or `posts` table.

The domain constructors `NewItem`, `NewPost` and the username rules of `NewUser` are modelled too.

## How the system is represented

- **Tables.** Each table is a class holding a `map` from id to row. Each repository method
  changes that map, and its contract states the whole new table. Its ghost `Valid()` says every
  row is stored under its own id. Create, update and delete are methods with `modifies`; the
  single-row reads are functions.
- **Listing order.** `ORDER BY created_at DESC` is any listing that satisfies
  `Paging.IsListing`: every selected row once, as stored, newest first. Rows with equal
  timestamps may come in any order. `Paging.ListingExists` proves that such a listing always
  exists, and the listing methods pick one with `:|`.
- **Failures and outside values.** Every driver failure is a parameter: `Option<DbError>`, or a
  `ListFault` for the paged listings. The same goes for the outcome of `db.Begin` and of a
  commit, the clock, and `uuid.New()`.
- **Transactions.** A transaction is a `Tx.Transaction` object that records the terminal actions
  issued on it. A service that began one returns it, and its contract says exactly one `Commit`
  was issued. A writing service remembers the table as it was when the transaction began; when
  the database refuses the commit, the table is that snapshot again.
- **Mutated requests.** The request structs that services change in place are classes:
  `ItemsPageReq`, `PostsPageReq`, `UpdateItemInput` and `UpdatePostInput`. The services'
  contracts state their new fields.
- **Handlers.** Each handler is a pure guard function returning a `Http.Step`: answer with a
  response, or invoke the service with the given arguments. A reply function maps the service's
  answer to the response. The two handlers with a notable effect on the tables,
  `ItemHandler.ItemHandler.DeleteItem` and `PostHandler.PostHandler.UpdatePost`, are also
  modelled end to end.
- **Parsing.** Request parsing is represented by its outcome: what `uuid.Parse`, the JSON decoder
  and `strconv.Atoi` returned.

### Where the code does not do what the system is meant to do

The model follows the code in each of these cases.

- **Deleting an item ignores ownership.** `ItemDeleteRepo` deletes by `item_id` alone, and the
  handler only compares the path username with the caller. So a caller who names themself in
  the path deletes any user's item (`ItemHandler.ItemHandler.DeleteItem`). One user is meant
  never to delete another user's resource.
- **Deleting a row that is not there is not an error.** It is meant to be reported as not
  found. The code does nothing and answers success when the item id is missing, and likewise
  when no post matches both the post id and the owner (`WHERE post_id = $1 AND owner = $2`,
  `internal/repository/post_repo.go:159`). A non-owned item id is not a no-op: it is deleted
  (see above).
- **An item update clears an omitted description.** Name, quantity and price fall back to the
  stored values when omitted, but the description is always taken from the body
  (`ItemService.OmittedFieldsClearDescription`). An omitted field is meant to keep its stored
  value.
- **A post update writes the row the body names.** The post is read by the path's
  (id, username), but the write goes to the `post_id` and `owner` carried in the body
  (`PostService.PostService.UpdatePostService`, `PostHandler.PostHandler.UpdatePost`). A caller
  who owns any post can therefore rewrite another user's post.
- **Error text reaches clients.** Both update handlers answer a failed update with 500
  "invalid id" and the raw error text (`err.Error()`), so a driver message or "no data found"
  reaches the client. A driver error handed to `InternalErr`, such as a duplicate key at
  create, is written with its message fields as well. Clients are meant to see only a generic
  message. There is no 404:
  every service failure is a 500.
- **Guard order.** `UpdateItem`, `DeleteItem`, `UpdatePost` and `DeletePost` parse the path id
  (400) before the ownership check (403). `CreatePost` answers an undecodable body with 500,
  not 400.
- **A refused commit still reports success.** `CommitOrRollback` only logs a failed COMMIT, and
  the service has already chosen its return value. So a create, update or delete whose commit
  the database refuses answers 201 or 200 while the database kept nothing
  (`ItemHandler.ItemHandler.DeleteItem`). This follows from committing in a deferred call after
  the result is fixed.
- **A failing cursor in the post listing returns nothing.** When the cursor of
  `GetAllPostRepo` fails, it returns no page and no error, because it hands back the query's
  `err`, which is nil by then. The service passes this on, and the handler answers 200.

## Model

| member | source | states |
|---|---|---|
| Tx.CommitOrRollback | helper/tx.go:9-20 | exactly one terminal action per call; Commit iff no panic is in flight, Rollback iff one is; after a rollback it panics again with the rollback's error, not the original value; a commit error is only logged and the function returns normally |
| Auth.Auth | internal/middleware/auth.go:20-60 | the wrapped handler runs iff the header is non-empty, the token after the prefix is non-empty and the validator reports no error, and then with exactly the validated id and username; otherwise 401 with "Missing auth header", "Invalid Authorization header format" or "Invalid or expired token" (whose `Err` holds the validator's error), in that order |
| Auth.TokenExtraction | internal/middleware/auth.go:33 | a header without the "Bearer " prefix reaches the validator unchanged; one with it loses exactly that prefix; the only non-empty header with an empty token is "Bearer " itself |
| Common.LookupError | internal/repository/item_repo.go:68-74 | a single-row query that finds no row reports "no data found"; any other driver failure is passed on with its own text (the same branch in every item and post lookup) |
| Text.TrimSpace | internal/model/item.go:66 | `strings.TrimSpace`: the result is a slice of the input that neither starts nor ends with white space, and everything cut off on either side is white space |
| Text.TrimLeftSpace | internal/model/item.go:66 | the result is a suffix of the input, the removed prefix is all white space, and the result does not start with white space |
| Text.TrimRightSpace | internal/model/item.go:66 | the result is a prefix of the input, the removed suffix is all white space, and the result does not end with white space |
| Text.TrimSpaceIdempotent | internal/model/item.go:66 | trimming a trimmed name changes nothing |
| Text.TrimPrefix | internal/middleware/auth.go:33 | `strings.TrimPrefix`: with the prefix present, prefix + result is the input; otherwise the input is returned unchanged |
| ItemModel.NewItem | internal/model/item.go:65-87 | "failed to get context key" without an identity, "no data in context" for the nil id or an empty username, success otherwise; the item has a fresh id, the context's user id and username as owner, the trimmed name, and quantity, price and description as given |
| ItemModel.NewItemIgnoresClientId | internal/model/item.go:76-79 | the client's `item_id` has no influence on the created item |
| ItemModel.ValidCreateItemInput | internal/model/item.go:25-31 | valid iff the tags `required` (not the zero value) and `gt=0` all hold: the name is non-empty and quantity and price are greater than zero; `UpdateItemInput`'s tags (`required,min=3` on the name, `required,gt=0` on quantity and price) are never checked by the handler, nor are the `required` tags on the content of `PostInput` and `UpdatePostInput`, since the post handler runs no validator |
| ItemModel.ToResp | internal/model/item.go:43-52 | the response form of an item carries every column except `user_id` unchanged |
| PostModel.NewPost | internal/model/post.go:46-67 | the two identity errors as for items, then "content cannot be empty" only once identity passed; success exactly when all three checks pass, with a fresh id, the context's identity as owner and user id, and the content untrimmed |
| UserModel.CharError | internal/model/user.go:42-52 | per character: uppercase is rejected first, then white space, then anything not a letter, digit or '_'; accepted exactly when none applies |
| UserModel.UsernameError | internal/model/user.go:41-53 | the loop's error, if any, is one of the three username errors |
| UserModel.UsernameErrorNoneIff | internal/model/user.go:41-53 | the loop passes iff every character is accepted; the empty username passes |
| UserModel.FirstOffenderDecides | internal/model/user.go:41-53 | left to right: the first rejected character decides the error |
| UserModel.UppercaseOrSpaceRejected | internal/model/user.go:42-48 | a username with an uppercase or white-space character is rejected, with the uppercase error when that character is the first offender |
| UserModel.NewUser | internal/model/user.go:40-68 | username errors come before hashing, a hashing error is returned as is, and on success username and email are the input's and the password is the hash |
| Paging.NormalizedLimit | internal/service/item_service.go:75-77 | a limit that is not positive becomes 10, any other is kept; the result is positive |
| Paging.NormalizedOffset | internal/service/item_service.go:78-80 | a negative offset becomes 0, any other is kept; the result is non-negative |
| Paging.CeilDiv | internal/repository/item_repo.go:132 | the total page count is the least number of `limit`-row pages that hold all rows |
| Paging.CurrentPage | internal/repository/item_repo.go:133 | `offset/limit + 1` is the 1-based page on which row `offset` falls |
| Paging.Window | internal/repository/item_repo.go:94 | `LIMIT/OFFSET`: at most `limit` rows, as many as remain after `offset`, each the row at `offset + i` |
| Paging.ListingExists | internal/repository/item_repo.go:89-96 | every finite set of stored rows has a listing newest first, so the ordered query always has an answer |
| Paging.NewestKey | internal/repository/item_repo.go:93 | a non-empty selection has a newest row |
| Paging.ListingRows | internal/repository/item_repo.go:89-96 | every row of a listing is a selected row as stored |
| Paging.WindowOfListing | internal/repository/item_repo.go:89-96 | a page of a listing holds selected rows only, newest first, at most `limit`, and as many as the selection has after `offset` |
| Paging.TwentyFiveRowsExample | internal/repository/item_repo.go:131-134 | 25 rows read ten at a time from offset 20: 5 rows, page 3 of 3 |
| ItemRepository.Resps | internal/repository/item_repo.go:109-126 | the scanned page is the window's rows in order, each without its user id |
| ItemRepository.Revised | internal/repository/item_repo.go:138-146 | an update sets name, quantity, price, description and update time and keeps id, user id, owner and creation time |
| ItemRepository.ItemRepo.CreateItemRepo | internal/repository/item_repo.go:27-49 | the table gains exactly the given item with all nine columns; a taken id or a driver failure leaves it unchanged and is returned |
| ItemRepository.ItemRepo.GetItemByIDRepo | internal/repository/item_repo.go:50-76 | a row is returned iff both id and owner match; otherwise "no data found"; other driver errors pass through |
| ItemRepository.ItemRepo.GetAllItemsRepo | internal/repository/item_repo.go:77-136 | on success the page is the window of the owner's rows newest first, the total counts all of the owner's rows, total pages is the ceiling of total over limit, current is offset/limit + 1 and page size the number returned; each driver failure returns its error and no page |
| ItemRepository.ItemRepo.ItemUpdateRepo | internal/repository/item_repo.go:137-174 | matches on `item_id` only, whoever owns the row; the row is revised and returned, every other row unchanged; no match is "no data found" |
| ItemRepository.ItemRepo.ItemDeleteRepo | internal/repository/item_repo.go:175-191 | removes the row with that id whoever owns it; a missing id is no error; every other row is unchanged |
| PostRepository.Rewritten | internal/repository/post_repo.go:127-131 | an update sets only content and update time |
| PostRepository.Returned | internal/repository/post_repo.go:132-146 | the post an update returns has the nil user id, since `RETURNING` omits `user_id` |
| PostRepository.DeleteMatching | internal/repository/post_repo.go:157-161 | a delete keyed by (id, owner) never removes another owner's row |
| PostRepository.PostRepo.CreatePostRepo | internal/repository/post_repo.go:25-43 | the table gains exactly the given post; a taken id or a driver failure leaves it unchanged and is returned |
| PostRepository.PostRepo.GetPostByIDRepo | internal/repository/post_repo.go:44-68 | a row is returned iff both id and owner match; otherwise "no data found" |
| PostRepository.PostRepo.GetAllPostRepo | internal/repository/post_repo.go:69-125 | the page, total, total pages, current page and page size as for items; a failing cursor returns no page and no error |
| PostRepository.PostRepo.UpdatePostRepo | internal/repository/post_repo.go:126-155 | only the row matching both id and owner changes, in content and update time; it comes back without user id; no match is "no data found" |
| PostRepository.PostRepo.DeletePostRepo | internal/repository/post_repo.go:156-170 | removes the row only when both id and owner match; otherwise nothing changes and no error is reported |
| ItemService.Fallback | internal/service/item_service.go:100-108 | an omitted (zero) field takes the stored value, any other (non-zero) value is kept |
| ItemService.FallbackIdempotent | internal/service/item_service.go:100-108 | merging a merged value again against the same stored value changes nothing |
| ItemService.OmittedFieldsClearDescription | internal/service/item_service.go:100-117 | an update with every field omitted keeps the stored name, quantity and price but clears the description |
| ItemService.ItemService.CreateItemService | internal/service/item_service.go:32-49 | no transaction unless `NewItem` succeeds; then the table gains exactly that item under one committed transaction; a driver failure or taken id is returned with the repository's own text and leaves the table as it was; a refused commit leaves the table as it was while the item is still returned |
| ItemService.ItemService.GetItemByIDService | internal/service/item_service.go:50-63 | the repository's answer inside one committed transaction |
| ItemService.ItemService.GetAllItemsService | internal/service/item_service.go:64-87 | empty username is "invalid username" without touching the request; otherwise limit and offset are normalised in place and the repository's answer for them is returned: the page (also when a scan fault lies beyond the page), or the count, query, scan or cursor error with its own text; one commit whenever begin succeeded |
| ItemService.ItemService.UpdateItemService | internal/service/item_service.go:88-123 | read by (id, owner) first, nothing written and the lookup's error returned if that fails; the body is merged in place, the row `item_id = id` is revised with the merged values and the current time; an update failure is returned with the repository's text; only a row of the requesting owner can change, and a refused commit leaves the table as it was |
| ItemService.ItemService.DeleteItemService | internal/service/item_service.go:124-137 | removes the row with that id under one committed transaction, a missing id being no error; a driver failure is returned as the repository reported it ("item not found" for no rows); a refused commit keeps the row |
| PostService.MergedContent | internal/service/post_service.go:103-105 | empty content keeps the stored content, any other is kept |
| PostService.PostService.CreatePostService | internal/service/post_service.go:34-51 | no transaction unless `NewPost` succeeds; then the table gains exactly that post under one committed transaction; a driver failure or taken id is returned with the repository's own text and leaves the table as it was; a refused commit leaves the table as it was while the post is still returned |
| PostService.PostService.GetPostByIDService | internal/service/post_service.go:52-66 | the repository's answer inside one committed transaction |
| PostService.PostService.GetAllPostService | internal/service/post_service.go:67-90 | empty username is "invalid username" without touching the request; otherwise limit and offset are normalised in place and the repository's answer is passed on: the page (also when a scan fault lies beyond the page), the count, query or scan error with its own text, and no page and no error for a failing cursor |
| PostService.PostService.UpdatePostService | internal/service/post_service.go:91-113 | read by the path key first, nothing written and the lookup's error returned if that fails; then content falls back in place, update time becomes now, and the write goes to the body's post id and owner, which need not be the row read; no such row is "no data found" and a driver failure keeps its text; a refused commit leaves the table as it was |
| PostService.PostService.DeletePostService | internal/service/post_service.go:114-127 | forwards the key unchanged: only the row matching both id and owner can go, and no match is no error; a driver failure is returned as the repository reported it; a refused commit keeps the row |
| ItemHandler.CreateItemGuard | handler/item_handler.go:35-60 | 401 without identity, then 403 when the path username is not the caller, then 400 for an undecodable body, then 400 for a body failing the validation tags; the service is called iff all pass, with the decoded body |
| ItemHandler.CreatedItemBelongsToPathUser | handler/item_handler.go:43-60 | an item created through the handler belongs to the path user and has positive quantity and price |
| ItemHandler.CreateItemReply | handler/item_handler.go:60-72 | a service failure is 500 "Failed to create item: " with its error; success is 201 "item created" |
| ItemHandler.GetItemByIDGuard | handler/item_handler.go:74-86 | no identity check; a malformed id is 400; otherwise the item is read by (id, path username) |
| ItemHandler.GetItemByIDReply | handler/item_handler.go:86-98 | a service failure is 500 with its error; success is 200 "OK" |
| ItemHandler.UpdateItemGuard | handler/item_handler.go:116-146 | 401, then 400 for the id, then 403, then 400 for the body, with no validation of the body; the service is called iff all pass, with the body and (id, path username) |
| ItemHandler.UpdateItemReply | handler/item_handler.go:146-164 | any service failure is 500 "invalid id" with the raw error text; success is 200 |
| ItemHandler.DeleteItemGuard | handler/item_handler.go:166-187 | 401, then 400 for the id, then 403; the service is called iff all pass, with the item id alone |
| ItemHandler.DeleteItemReply | handler/item_handler.go:187-200 | a service failure is 500 with its error; success is 200 "Item deleted successfully" |
| ItemHandler.ItemHandler.DeleteItem | handler/item_handler.go:166-201 | a request that passes the guards and meets no failure removes the row with that id whoever owns it and answers 200, also when the commit is refused and the row stays; a failure is 500 "Failed to delete item: " with the service's error; a rejected request changes nothing |
| PostHandler.CreatePostGuard | handler/post_handler.go:34-54 | 401, then 403, then 500 (not 400) for an undecodable body; the service is called iff all pass |
| PostHandler.CreatedPostBelongsToPathUser | handler/post_handler.go:42-54 | a post created through the handler belongs to the path user and keeps the body's content |
| PostHandler.CreatePostReply | handler/post_handler.go:54-66 | a service failure is 500 with its error; success is 201 "post created" |
| PostHandler.GetPostByIDGuard | handler/post_handler.go:68-80 | no identity check; a malformed id is 400; otherwise the post is read by (id, path username) |
| PostHandler.GetPostByIDReply | handler/post_handler.go:80-92 | a service failure is 500 with its error; success is 200 "OK" |
| PostHandler.GetAllPostsGuard | handler/post_handler.go:94-115 | an empty username is 400 with a null body; a missing, non-numeric or non-positive limit becomes 10, a missing, non-numeric or negative offset 0, other values are kept |
| PostHandler.HandlerPageIsNormal | handler/post_handler.go:101-115 | what the handler sends already passes the service's normalisation unchanged |
| PostHandler.GetAllPostsReply | handler/post_handler.go:115-127 | any service error is 500 with no error text; no error is 200, even without a page |
| PostHandler.UpdatePostGuard | handler/post_handler.go:129-159 | 401, then 400 for the id, then 403, then 400 for the body; the service is called iff all pass, with the body and (id, path username) |
| PostHandler.UpdatePostReply | handler/post_handler.go:159-176 | any service failure is 500 "invalid id" with the raw error text; success is 200 |
| PostHandler.DeletePostGuard | handler/post_handler.go:178-203 | 401, then 400 for the id, then 403; the service is called iff all pass, with (id, path username) |
| PostHandler.DeleteOnlyCallersPost | handler/post_handler.go:193-203 | whatever a delete request names, no other user's post can be removed |
| PostHandler.DeletePostReply | handler/post_handler.go:203-216 | a service failure is 500 with its error; success is 200 "post deleted successfully" |
| PostHandler.PostHandler.UpdatePost | handler/post_handler.go:129-177 | a rejected request and a refused commit change nothing; a table change means the path post is the caller's AND the row the body names matched its owner, and that row, not necessarily the path post, is rewritten |

## Left out

- Token signing and checking (`internal/middleware/token.go`, JWT over HMAC-SHA256, expiry against the wall clock). `Auth` takes the validator as an uninterpreted function.
- bcrypt hashing. `NewUser` receives the outcome of `bcrypt.GenerateFromPassword` as a parameter.
- The user service, repository and handler. They only wire the database, bcrypt and JWT together.
- The `GetAllItems` handler. Its call at `handler/item_handler.go:102` passes a string where the service takes a page request, so it does not compile.
- ItemHandler.GetItemByIDGuard and ItemHandler.UpdateItemGuard: `handler/item_handler.go:84` and `:144` set a field `BelongsTo` that `model.GetItemInput` does not have (it has `ItemID` and `Owner`, `internal/model/item.go:32-35`), so these two handlers do not compile either. The model reads `BelongsTo` as `Owner`, the only string field of the struct, so the item is looked up by (id, path username).
- SQL execution, pgx and connection pooling. Tables are in-memory maps, and isolation and concurrent requests are not modelled. `item_id` and `post_id` are taken to be primary keys, because the schema file is not part of this model. A taken id yields the error text `DuplicateKey`, without PostgreSQL's constraint name and SQLSTATE suffix.
- Rollback undo. No service panics, so every cleanup issues a commit; a rollback that would undo earlier writes never happens and is not modelled. A commit the database refuses is modelled: the writing services restore the table to its state when the transaction began.
- Panic and recover mechanics beyond the two outcomes of `CommitOrRollback`: return normally, or panic again with a given value.
- `math.Ceil` over `float64` is integer ceiling division. Go's `int` is 64 bits wide; counts and page numbers are unbounded here, so overflow is not modelled.
- `time.Now()` and `uuid.New()` are parameters. The two clock readings of `NewItem`/`NewPost` are one value `now` in the services.
- Unicode classification. `unicode.IsSpace` is written out exactly; `unicode.IsUpper`, `IsLetter` and `IsDigit` are parameters (`UserModel.CharClass`). Go's decoding of invalid UTF-8 to U+FFFD is not modelled: a username is a sequence of characters.
- JSON decoding and encoding, `helper.JSONResponse`, and the `Data` field of responses. Request parsing enters the model as its outcome. The `Err` field of a response is modelled as the text of the Go `error` it holds. `Err` is an `interface{}`, so what the client reads depends on the error's dynamic type, which the model does not track. `encoding/json` writes an error built by `errors.New` or `fmt.Errorf` (for example "no data found" or "invalid username") as `{}`, so that text does not reach the client through `Err`. A driver error such as the `*pgconn.PgError` of a duplicate key, which `CreateItemRepo` returns unchanged at `internal/repository/item_repo.go:45`, is written with its exported fields (severity, code, message, detail), so the driver's message does reach the client. The two "invalid id" answers store `err.Error()` and always carry the text.
- `helper/response.go` defines only `Response` and `JSONResponse`; the four helpers `helper.UnauthorizedErr`, `ForbiddenErr`, `BadRequestErr` and `InternalErr` the handlers call are modelled as building a response with status 401, 403, 400 and 500, the given message, and the given error as `Err`.
- Logging (`helper.ErrMsg`, `helper.SuccessMsg`). The commit error `CommitOrRollback` logs is returned as `logged`; nothing else is logged.
- `main.go`, `app/app.go` and `internal/config/db.go`: routing, environment, and connection retry.
- ItemRepository.ItemRepo.GetAllItemsRepo: requires a positive limit and a non-negative offset, because the only caller normalises both first. For other values the code fails outside the model. PostgreSQL rejects a negative LIMIT or OFFSET. It accepts LIMIT 0, and then `page.Offset/page.Limit` at `internal/repository/item_repo.go:133` divides by zero and panics.
- PostRepository.PostRepo.GetAllPostRepo: requires a positive limit and a non-negative offset, for the same reason. With LIMIT 0 the division at `internal/repository/post_repo.go:122` panics.
