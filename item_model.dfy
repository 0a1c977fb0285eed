/** The item records of `internal/model/item.go` and the constructor `NewItem`. */
module ItemModel {
  import opened Common
  import Text
  import opened Auth

  /** A row of the `items` table. */
  datatype Item = Item(itemId: Uuid, userId: Uuid, owner: string, name: string, quantity: int,
                       price: int, description: string, createdAt: Time, updatedAt: Time)

  /** The body of a create request. Its `itemId` is accepted from the client but never used. */
  datatype CreateItemInput = CreateItemInput(itemId: Uuid, name: string, quantity: int, price: int,
                                             description: string)

  /** The key of a single-item read: the item id and the username it must belong to. */
  datatype GetItemInput = GetItemInput(itemId: Uuid, owner: string)

  /** An item as the API returns it: every column except `user_id`. */
  datatype ItemResp = ItemResp(itemId: Uuid, owner: string, name: string, quantity: int, price: int,
                               description: string, createdAt: Time, updatedAt: Time)

  /** One page of a user's items with its metadata. */
  datatype ItemsPageRes = ItemsPageRes(items: seq<ItemResp>, totalItems: int, totalPages: int,
                                       current: int, pageSize: int)

  /** The body of an update request. The update service fills its omitted fields in place. */
  class UpdateItemInput {
    var name: string
    var quantity: int
    var price: int
    var updatedAt: Time
    var description: string

    constructor (name: string, quantity: int, price: int, updatedAt: Time, description: string)
      ensures this.name == name && this.quantity == quantity && this.price == price
      ensures this.updatedAt == updatedAt && this.description == description
    {
      this.name, this.quantity, this.price := name, quantity, price;
      this.updatedAt, this.description := updatedAt, description;
    }
  }

  /** A page request. The list service normalises `limit` and `offset` in place. */
  class ItemsPageReq {
    var username: string
    var limit: int
    var offset: int

    constructor (username: string, limit: int, offset: int)
      ensures this.username == username && this.limit == limit && this.offset == offset
    {
      this.username, this.limit, this.offset := username, limit, offset;
    }
  }

  function ToResp(i: Item): (r: ItemResp)
    ensures r.itemId == i.itemId && r.owner == i.owner && r.name == i.name
    ensures r.quantity == i.quantity && r.price == i.price && r.description == i.description
    ensures r.createdAt == i.createdAt && r.updatedAt == i.updatedAt
  {
    ItemResp(i.itemId, i.owner, i.name, i.quantity, i.price, i.description, i.createdAt, i.updatedAt)
  }

  /** The validator's `required` tag: the field does not hold its type's zero value. */
  predicate Required<T(==)>(value: T, zero: T)
  {
    value != zero
  }

  /** The `validate` tags of `CreateItemInput`: `required` on the name, `required,gt=0` on
      quantity and price. For a number `gt=0` already rules out the zero value. */
  predicate ValidCreateItemInput(input: CreateItemInput): (ok: bool)
    ensures ok <==> && Required(input.name, "")
                    && Required(input.quantity, 0) && input.quantity > 0
                    && Required(input.price, 0) && input.price > 0
  {
    input.name != "" && input.quantity > 0 && input.price > 0
  }

  /** `NewItem`. `freshId` is what `uuid.New()` returns and `createdAt`, `updatedAt` are the
      two readings of `time.Now()`. It fails when the context holds no identity, or an identity
      with the nil id or an empty username; otherwise the item belongs to that identity, its
      name is the input's name trimmed of white space, and the client's item id is ignored. */
  function NewItem(ctx: Context, input: CreateItemInput, freshId: Uuid, createdAt: Time, updatedAt: Time)
    : (r: Result<Item>)
    ensures ctx.user.None? ==> r == Fail("failed to get context key")
    ensures ctx.user.Some? && (ctx.user.value.userId == NilUuid || ctx.user.value.username == "") ==>
              r == Fail("no data in context")
    ensures r.Ok? <==> ctx.user.Some? && ctx.user.value.userId != NilUuid && ctx.user.value.username != ""
    ensures r.Ok? ==> && r.value.itemId == freshId
                      && r.value.userId == ctx.user.value.userId
                      && r.value.owner == ctx.user.value.username
                      && r.value.name == Text.TrimSpace(input.name)
                      && r.value.quantity == input.quantity
                      && r.value.price == input.price
                      && r.value.description == input.description
                      && r.value.createdAt == createdAt && r.value.updatedAt == updatedAt
  {
    var name := Text.TrimSpace(input.name);
    if ctx.user.None? then
      Fail("failed to get context key")
    else
      var key := ctx.user.value;
      if key.userId == NilUuid || key.username == "" then
        Fail("no data in context")
      else
        Ok(Item(freshId, key.userId, key.username, name, input.quantity, input.price,
                input.description, createdAt, updatedAt))
  }

  /** Whatever item id the client puts in the body, the new item is the same. */
  lemma NewItemIgnoresClientId(ctx: Context, input: CreateItemInput, clientId: Uuid, freshId: Uuid,
                               createdAt: Time, updatedAt: Time)
    ensures NewItem(ctx, input.(itemId := clientId), freshId, createdAt, updatedAt)
         == NewItem(ctx, input, freshId, createdAt, updatedAt)
  {
  }
}
