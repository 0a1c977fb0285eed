/** `internal/repository/item_repo.go`: the five SQL statements on the `items` table, run here
    against an in-memory table keyed by `item_id`. Each method takes the driver failure it may
    meet as a parameter. */
module ItemRepository {
  import opened Common
  import opened ItemModel
  import Paging

  function ItemKey(i: Item): Uuid { i.itemId }
  function ItemCreated(i: Item): Time { i.createdAt }

  /** The ids of the rows `WHERE owner = owner`. */
  function OwnedBy(items: map<Uuid, Item>, owner: string): set<Uuid>
  {
    set id | id in items && items[id].owner == owner
  }

  /** The rows as the listing scans them: every column but `user_id`, in the same order. */
  function Resps(s: seq<Item>): (r: seq<ItemResp>)
    ensures |r| == |s|
    ensures forall i :: 0 <= i < |s| ==> r[i] == ToResp(s[i])
  {
    seq(|s|, i requires 0 <= i < |s| => ToResp(s[i]))
  }

  /** A row after `SET name, quantity, price, description, updated_at`: the five columns take
      the given values (`COALESCE` of a non-NULL argument is that argument), and the item id,
      user id, owner and creation time are kept. */
  function Revised(row: Item, name: string, quantity: int, price: int, description: string, updatedAt: Time)
    : (r: Item)
    ensures r.itemId == row.itemId && r.userId == row.userId
    ensures r.owner == row.owner && r.createdAt == row.createdAt
    ensures r.name == name && r.quantity == quantity && r.price == price
    ensures r.description == description && r.updatedAt == updatedAt
  {
    row.(name := name, quantity := quantity, price := price, description := description, updatedAt := updatedAt)
  }

  /** Every row is stored under its own item id. */
  ghost predicate Keyed(items: map<Uuid, Item>)
  {
    forall id :: id in items ==> items[id].itemId == id
  }

  /** The `items` table. */
  class ItemRepo {
    var items: map<Uuid, Item>

    /** Every row is stored under its own id. */
    ghost predicate Valid()
      reads this
    {
      Keyed(items)
    }

    constructor ()
      ensures Valid() && items == map[]
    {
      items := map[];
    }

    /** `CreateItemRepo`: inserts the item with all nine columns as given; a taken id or a
        driver failure leaves the table as it was. */
    method CreateItemRepo(item: Item, fault: Option<DbError>) returns (err: Option<string>)
      requires Valid()
      modifies this
      ensures Valid()
      ensures fault.Some? ==> err == Some(fault.value.Text()) && items == old(items)
      ensures fault.None? && item.itemId in old(items) ==> err == Some(DuplicateKey) && items == old(items)
      ensures fault.None? && item.itemId !in old(items) ==>
                err.None? && items == old(items)[item.itemId := item]
    {
      if fault.Some? {
        err := Some(fault.value.Text());
      } else if item.itemId in items {
        err := Some(DuplicateKey);
      } else {
        items := items[item.itemId := item];
        err := None;
      }
    }

    /** `GetItemByIDRepo`: the row whose id AND owner both match, or "no data found". */
    function GetItemByIDRepo(input: GetItemInput, fault: Option<DbError>): (r: Result<ItemResp>)
      reads this
      ensures fault.Some? ==> r == Fail(LookupError(fault.value))
      ensures fault.None? ==> (r.Ok? <==> input.itemId in items && items[input.itemId].owner == input.owner)
      ensures fault.None? && r.Fail? ==> r.err == NoDataFound
      ensures r.Ok? ==> input.itemId in items && r.value == ToResp(items[input.itemId])
                        && r.value.owner == input.owner
    {
      if fault.Some? then Fail(LookupError(fault.value))
      else if input.itemId in items && items[input.itemId].owner == input.owner then
        Ok(ToResp(items[input.itemId]))
      else Fail(NoDataFound)
    }

    /** The rows `WHERE owner = owner ORDER BY created_at DESC`, in one of the orders the
        database may choose. */
    method SelectNewestFirst(owner: string) returns (ordered: seq<Item>)
      requires Valid()
      ensures Paging.IsListing(ordered, items, OwnedBy(items, owner), ItemKey, ItemCreated)
    {
      var keys := OwnedBy(items, owner);
      ghost var existing := Paging.ListingExists(items, keys, ItemKey, ItemCreated);
      ordered :| Paging.IsListing(ordered, items, keys, ItemKey, ItemCreated);
    }

    /** `GetAllItemsRepo`. It counts the owner's rows, then reads the page `LIMIT limit OFFSET
        offset` of the owner's rows newest first (`listing` is the full ordering the database
        chose) and appends them one by one. On success the page holds exactly that window,
        `totalItems` counts all of the owner's rows whatever the window, `totalPages` is the
        ceiling of count over limit, `current` is `offset/limit + 1` and `pageSize` is the
        number of rows returned. Any driver failure returns no page and its error. */
    method GetAllItemsRepo(page: ItemsPageReq, fault: ListFault)
      returns (res: Option<ItemsPageRes>, err: Option<string>, ghost listing: seq<Item>)
      requires Valid()
      requires page.limit > 0 && page.offset >= 0
      ensures res.Some? <==> err.None?
      ensures !fault.CountFails? ==>
                Paging.IsListing(listing, items, OwnedBy(items, page.username), ItemKey, ItemCreated)
      ensures fault.CountFails? ==> err == Some(fault.e.Text())
      ensures fault.QueryFails? ==> err == Some(LookupError(fault.e))
      ensures fault.IterationFails? ==> err == Some(fault.e.Text())
      ensures fault.ScanFails? && fault.row < |Paging.Window(listing, page.limit, page.offset)| ==>
                err == Some(fault.e.Text())
      ensures var w := Paging.Window(listing, page.limit, page.offset);
              var total := |OwnedBy(items, page.username)|;
              (fault.NoFault? || (fault.ScanFails? && fault.row >= |w|)) ==>
                res == Some(ItemsPageRes(Resps(w), total, Paging.CeilDiv(total, page.limit),
                                         Paging.CurrentPage(page.offset, page.limit), |w|))
    {
      var owner, limit, offset := page.username, page.limit, page.offset;
      var keys := OwnedBy(items, owner);
      var totalItems := |keys|;
      if fault.CountFails? {
        return None, Some(fault.e.Text()), [];
      }
      var ordered := SelectNewestFirst(owner);
      listing := ordered;
      if fault.QueryFails? {
        return None, Some(LookupError(fault.e)), listing;
      }
      var rows := Paging.Window(ordered, limit, offset);
      var scanned: seq<ItemResp> := [];
      var i := 0;
      while i < |rows|
        invariant 0 <= i <= |rows|
        invariant |scanned| == i
        invariant forall k :: 0 <= k < i ==> scanned[k] == ToResp(rows[k])
        invariant fault.ScanFails? ==> fault.row >= i
      {
        if fault.ScanFails? && fault.row == i {
          return None, Some(fault.e.Text()), listing;
        }
        scanned := scanned + [ToResp(rows[i])];
        i := i + 1;
      }
      if fault.IterationFails? {
        return None, Some(fault.e.Text()), listing;
      }
      assert scanned == Resps(rows);
      res := Some(ItemsPageRes(scanned, totalItems, Paging.CeilDiv(totalItems, limit),
                               Paging.CurrentPage(offset, limit), |scanned|));
      err := None;
    }

    /** `ItemUpdateRepo`: `WHERE item_id = id` only, whoever owns the row. The matched row gets
        the five new column values (see `Revised`) and is returned; no match is "no data found";
        every other row is unchanged. */
    method ItemUpdateRepo(input: UpdateItemInput, id: Uuid, fault: Option<DbError>) returns (res: Result<ItemResp>)
      requires Valid()
      modifies this
      ensures Valid()
      ensures fault.Some? ==> res == Fail(LookupError(fault.value)) && items == old(items)
      ensures fault.None? && id !in old(items) ==> res == Fail(NoDataFound) && items == old(items)
      ensures fault.None? && id in old(items) ==>
                var row := Revised(old(items)[id], input.name, input.quantity, input.price,
                                   input.description, input.updatedAt);
                items == old(items)[id := row] && res == Ok(ToResp(row))
    {
      if fault.Some? {
        res := Fail(LookupError(fault.value));
      } else if id !in items {
        res := Fail(NoDataFound);
      } else {
        var row := Revised(items[id], input.name, input.quantity, input.price, input.description, input.updatedAt);
        items := items[id := row];
        res := Ok(ToResp(row));
      }
    }

    /** `ItemDeleteRepo`: removes the row `WHERE item_id = id`, whoever owns it; an id with no
        row is not an error. Only a driver failure is reported. */
    method ItemDeleteRepo(id: Uuid, fault: Option<DbError>) returns (err: Option<string>)
      requires Valid()
      modifies this
      ensures Valid()
      ensures fault.Some? ==> err == Some(if fault.value.NoRows? then "item not found" else fault.value.Text())
                              && items == old(items)
      ensures fault.None? ==> err.None? && items == old(items) - {id}
    {
      if fault.Some? {
        err := Some(if fault.value.NoRows? then "item not found" else fault.value.Text());
      } else {
        items := items - {id};
        err := None;
      }
    }
  }
}
