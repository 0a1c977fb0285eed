/** The guards of `handler/item_handler.go`. Each handler is a chain of early returns that either
    answers the request or makes one service call; here that choice is a `Step`, and the answer
    to the service's result is a separate reply function. Request parsing is represented by its
    outcome: `parsedId` is what `uuid.Parse` made of the `item_id` path segment, `body` what the
    JSON decoder made of the request body (its error text on failure). */
module ItemHandler {
  import opened Common
  import opened Http
  import opened Auth
  import opened ItemModel
  import opened ItemService

  /** `CreateItem`: identity (401), then the path username against it (403), then the body
      (400), then the validation tags (400; `validationErr` is the validator's message), and only
      then the service, with the decoded body. */
  function CreateItemGuard(ctx: Context, username: string, body: Result<CreateItemInput>, validationErr: string)
    : (s: Step<CreateItemInput>)
    ensures ctx.user.None? ==> s == Respond(Unauthorized("Unauthorized: "))
    ensures ctx.user.Some? && !PathIsCaller(ctx, username) ==> s == Respond(Forbidden("Forbidden access: "))
    ensures PathIsCaller(ctx, username) && body.Fail? ==>
              s == Respond(BadRequest("Bad request: validation failed", Some(body.err)))
    ensures PathIsCaller(ctx, username) && body.Ok? && !ValidCreateItemInput(body.value) ==>
              s == Respond(BadRequest("Bad request", Some(validationErr)))
    ensures s.Invoke? <==> PathIsCaller(ctx, username) && body.Ok? && ValidCreateItemInput(body.value)
    ensures s.Invoke? ==> s.call == body.value
  {
    if ctx.user.None? then Respond(Unauthorized("Unauthorized: "))
    else if username != ctx.user.value.username then Respond(Forbidden("Forbidden access: "))
    else if body.Fail? then Respond(BadRequest("Bad request: validation failed", Some(body.err)))
    else if !ValidCreateItemInput(body.value) then Respond(BadRequest("Bad request", Some(validationErr)))
    else Invoke(body.value)
  }

  /** An item created through the handler belongs to the user named in the path, has a
      non-empty name before trimming, and positive quantity and price. */
  lemma {:induction false} CreatedItemBelongsToPathUser(ctx: Context, username: string, body: Result<CreateItemInput>,
                                      validationErr: string, freshId: Uuid, now: Time)
    requires CreateItemGuard(ctx, username, body, validationErr).Invoke?
    ensures var made := NewItem(ctx, CreateItemGuard(ctx, username, body, validationErr).call, freshId, now, now);
            && (made.Ok? <==> ctx.user.value.userId != NilUuid && username != "")
            && (made.Ok? ==> made.value.owner == username && made.value.quantity > 0 && made.value.price > 0)
  {
    assert body.Ok? && ValidCreateItemInput(body.value);
  }

  function CreateItemReply(res: Result<Item>): (r: Response)
    ensures res.Fail? ==> r == Internal("Failed to create item: ", Some(res.err))
    ensures res.Ok? ==> r == Body(StatusCreated, "item created", None)
  {
    if res.Fail? then Internal("Failed to create item: ", Some(res.err))
    else Body(StatusCreated, "item created", None)
  }

  /** `GetItemByID`: no identity check at all; a malformed id is 400, any other request reads
      the item of the path user. */
  function GetItemByIDGuard(username: string, parsedId: Result<Uuid>): (s: Step<GetItemInput>)
    ensures parsedId.Fail? ==> s == Respond(BadRequest("Bad request: Invalid item ID", None))
    ensures s.Invoke? <==> parsedId.Ok?
    ensures s.Invoke? ==> s.call.itemId == parsedId.value && s.call.owner == username
  {
    if parsedId.Fail? then Respond(BadRequest("Bad request: Invalid item ID", None))
    else Invoke(GetItemInput(parsedId.value, username))
  }

  function GetItemByIDReply(res: Result<ItemResp>): (r: Response)
    ensures res.Fail? ==> r == Internal("Failed to fetch item: ", Some(res.err))
    ensures res.Ok? ==> r == Body(StatusOK, "OK", None)
  {
    if res.Fail? then Internal("Failed to fetch item: ", Some(res.err))
    else Body(StatusOK, "OK", None)
  }

  /** `UpdateItem`: identity (401), then the id (400), then the path username (403), then the
      body (400), with no validation of the body, and only then the service, with the decoded
      body and the key (path id, path username). */
  function UpdateItemGuard<B>(ctx: Context, parsedId: Result<Uuid>, username: string, body: Result<B>)
    : (s: Step<(B, GetItemInput)>)
    ensures ctx.user.None? ==> s == Respond(Unauthorized("Unauthorized: "))
    ensures ctx.user.Some? && parsedId.Fail? ==>
              s == Respond(BadRequest("Invalid ID: item ID parsing failed", Some(parsedId.err)))
    ensures ctx.user.Some? && parsedId.Ok? && !PathIsCaller(ctx, username) ==>
              s == Respond(Forbidden("Forbidden access: "))
    ensures PathIsCaller(ctx, username) && parsedId.Ok? && body.Fail? ==>
              s == Respond(BadRequest("Bad request: ", Some(body.err)))
    ensures s.Invoke? <==> PathIsCaller(ctx, username) && parsedId.Ok? && body.Ok?
    ensures s.Invoke? ==> s.call == (body.value, GetItemInput(parsedId.value, username))
  {
    if ctx.user.None? then Respond(Unauthorized("Unauthorized: "))
    else if parsedId.Fail? then Respond(BadRequest("Invalid ID: item ID parsing failed", Some(parsedId.err)))
    else if username != ctx.user.value.username then Respond(Forbidden("Forbidden access: "))
    else if body.Fail? then Respond(BadRequest("Bad request: ", Some(body.err)))
    else Invoke((body.value, GetItemInput(parsedId.value, username)))
  }

  /** A failed update is a 500 with the message "invalid id" and the service's raw error text,
      whatever the cause. */
  function UpdateItemReply(res: Result<ItemResp>): (r: Response)
    ensures res.Fail? ==> r == Body(StatusInternalServerError, "invalid id", Some(res.err))
    ensures res.Ok? ==> r == Body(StatusOK, "Item updated", None)
  {
    if res.Fail? then Body(StatusInternalServerError, "invalid id", Some(res.err))
    else Body(StatusOK, "Item updated", None)
  }

  /** `DeleteItem`: identity (401), then the id (400), then the path username (403); the service
      gets the item id ALONE. */
  function DeleteItemGuard(ctx: Context, parsedId: Result<Uuid>, username: string): (s: Step<Uuid>)
    ensures ctx.user.None? ==> s == Respond(Unauthorized("Unauthorized: "))
    ensures ctx.user.Some? && parsedId.Fail? ==> s == Respond(BadRequest("Invalid ID: ", Some(parsedId.err)))
    ensures ctx.user.Some? && parsedId.Ok? && !PathIsCaller(ctx, username) ==>
              s == Respond(Forbidden("Forbidden access: "))
    ensures s.Invoke? <==> PathIsCaller(ctx, username) && parsedId.Ok?
    ensures s.Invoke? ==> s.call == parsedId.value
  {
    if ctx.user.None? then Respond(Unauthorized("Unauthorized: "))
    else if parsedId.Fail? then Respond(BadRequest("Invalid ID: ", Some(parsedId.err)))
    else if username != ctx.user.value.username then Respond(Forbidden("Forbidden access: "))
    else Invoke(parsedId.value)
  }

  function DeleteItemReply(err: Option<string>): (r: Response)
    ensures err.Some? ==> r == Internal("Failed to delete item: ", err)
    ensures err.None? ==> r == Body(StatusOK, "Item deleted successfully", None)
  {
    if err.Some? then Internal("Failed to delete item: ", err)
    else Body(StatusOK, "Item deleted successfully", None)
  }

  /** The item handler over its service. */
  class ItemHandler {
    const serv: ItemService

    constructor (serv: ItemService)
      ensures this.serv == serv
    {
      this.serv := serv;
    }

    /** `DeleteItem` end to end: the guard, then the service, then the reply. The only
        ownership check compares the path username with the caller, never with the row's
        owner, so a caller who names themself in the path removes ANY user's item by its id.
        The answer is 200 even when the database refuses the commit and the row stays. */
    method DeleteItem(ctx: Context, parsedId: Result<Uuid>, username: string,
                      beginErr: Option<string>, fault: Option<DbError>, commitErr: Option<string>)
      returns (resp: Response)
      requires serv.repo.Valid()
      modifies serv.repo
      ensures serv.repo.Valid()
      ensures DeleteItemGuard(ctx, parsedId, username).Respond? ==>
                resp == DeleteItemGuard(ctx, parsedId, username).resp && serv.repo.items == old(serv.repo.items)
      ensures DeleteItemGuard(ctx, parsedId, username).Invoke? && beginErr.Some? ==>
                resp == Internal("Failed to delete item: ", beginErr) && serv.repo.items == old(serv.repo.items)
      ensures DeleteItemGuard(ctx, parsedId, username).Invoke? && beginErr.None? && fault.Some? ==>
                resp == Internal("Failed to delete item: ", Some(if fault.value.NoRows? then "item not found"
                                                                 else fault.value.Text()))
                && serv.repo.items == old(serv.repo.items)
      ensures DeleteItemGuard(ctx, parsedId, username).Invoke? && beginErr.None? && fault.None? ==>
                resp == Body(StatusOK, "Item deleted successfully", None)
                && serv.repo.items == if commitErr.Some? then old(serv.repo.items)
                                      else old(serv.repo.items) - {parsedId.value}
    {
      var step := DeleteItemGuard(ctx, parsedId, username);
      if step.Respond? {
        return step.resp;
      }
      var err, tx := serv.DeleteItemService(step.call, beginErr, fault, commitErr);
      resp := DeleteItemReply(err);
    }
  }
}
