/** `internal/service/item_service.go`: each operation begins a transaction, defers
    `CommitOrRollback` on it and calls the repository. `beginErr` is the answer of `db.Begin`;
    on success the returned transaction is the fresh handle the deferred cleanup closed. No
    service panics, so the cleanup always commits, whatever the repository answered. A commit
    the database refuses (`commitErr`) is only logged, and the service still returns what it
    computed, but the database has discarded the transaction's writes. `time.Now()` and
    `uuid.New()` are parameters. */
module ItemService {
  import opened Common
  import opened Auth
  import opened ItemModel
  import opened ItemRepository
  import opened Tx
  import Paging

  /** The merge rule of an update for one field: the zero value means "omitted" and keeps what
      is stored. */
  function Fallback<T(==)>(given: T, zero: T, stored: T): (r: T)
    ensures given != zero ==> r == given
    ensures given == zero ==> r == stored
    ensures r == zero ==> given == zero && stored == zero
  {
    if given == zero then stored else given
  }

  /** An update whose body omits every field keeps the stored name, quantity and price but
      clears the description, which has no fallback. */
  lemma OmittedFieldsClearDescription(stored: Item, now: Time)
    ensures var row := Revised(stored, Fallback("", "", stored.name), Fallback(0, 0, stored.quantity),
                               Fallback(0, 0, stored.price), "", now);
            && row.name == stored.name && row.quantity == stored.quantity && row.price == stored.price
            && row.description == "" && row.owner == stored.owner && row.updatedAt == now
  {
  }

  /** A merge with a non-zero value keeps it; merging again against the same stored value
      changes nothing. */
  lemma FallbackIdempotent<T>(given: T, zero: T, stored: T)
    ensures Fallback(Fallback(given, zero, stored), zero, stored) == Fallback(given, zero, stored)
  {
  }

  class ItemService {
    const repo: ItemRepo

    constructor (repo: ItemRepo)
      ensures this.repo == repo
    {
      this.repo := repo;
    }

    /** The deferred cleanup of a service that has written to the table since it held `before`:
        the handle is committed, and when the database refuses the COMMIT the transaction's
        writes are lost, so the table holds `before` again. */
    method Finish(before: map<Uuid, Item>, commitErr: Option<string>) returns (tx: Transaction)
      requires repo.Valid() && Keyed(before)
      modifies repo
      ensures repo.Valid()
      ensures fresh(tx) && tx.actions == [TxAction.Commit]
      ensures repo.items == if commitErr.Some? then before else old(repo.items)
    {
      var logged;
      tx, logged := Closed(commitErr);
      if logged.Some? {
        repo.items := before;
      }
    }

    /** `CreateItemService`: the item is built by `NewItem` BEFORE any transaction is begun, so
        an item that cannot be built leaves no transaction behind. The stored row is exactly the
        built item; a repository failure is returned as the repository reported it, and still
        committed. A refused commit keeps nothing, yet the built item is returned. */
    method CreateItemService(ctx: Context, input: CreateItemInput, freshId: Uuid, now: Time,
                             beginErr: Option<string>, fault: Option<DbError>, commitErr: Option<string>)
      returns (res: Result<Item>, tx: Transaction?)
      requires repo.Valid()
      modifies repo
      ensures repo.Valid()
      ensures commitErr.Some? ==> repo.items == old(repo.items)
      ensures var made := NewItem(ctx, input, freshId, now, now);
              && (made.Fail? ==> res == made && tx == null && repo.items == old(repo.items))
              && (made.Ok? && beginErr.Some? ==>
                    res == Fail(beginErr.value) && tx == null && repo.items == old(repo.items))
              && (made.Ok? && beginErr.None? ==> tx != null && fresh(tx) && tx.actions == [TxAction.Commit])
              && (made.Ok? && beginErr.None? && fault.None? && freshId !in old(repo.items) ==>
                    res == made
                    && repo.items == if commitErr.Some? then old(repo.items) else old(repo.items)[freshId := made.value])
              && (made.Ok? && beginErr.None? && fault.Some? ==>
                    res == Fail(fault.value.Text()) && repo.items == old(repo.items))
              && (made.Ok? && beginErr.None? && fault.None? && freshId in old(repo.items) ==>
                    res == Fail(DuplicateKey) && repo.items == old(repo.items))
    {
      var made := NewItem(ctx, input, freshId, now, now);
      if made.Fail? {
        return made, null;
      }
      if beginErr.Some? {
        return Fail(beginErr.value), null;
      }
      var before := repo.items;
      var err := repo.CreateItemRepo(made.value, fault);
      res := if err.Some? then Fail(err.value) else made;
      tx := Finish(before, commitErr);
    }

    /** `GetItemByIDService`: the repository's answer, read inside one committed transaction. */
    method GetItemByIDService(input: GetItemInput, beginErr: Option<string>, fault: Option<DbError>,
                              commitErr: Option<string>)
      returns (res: Result<ItemResp>, tx: Transaction?)
      ensures beginErr.Some? ==> res == Fail(beginErr.value) && tx == null
      ensures beginErr.None? ==> res == repo.GetItemByIDRepo(input, fault)
                                 && tx != null && fresh(tx) && tx.actions == [TxAction.Commit]
    {
      if beginErr.Some? {
        return Fail(beginErr.value), null;
      }
      res := repo.GetItemByIDRepo(input, fault);
      var logged;
      tx, logged := Closed(commitErr);
    }

    /** `GetAllItemsService`: an empty username is "invalid username" and the repository is not
        asked; otherwise the request is normalised IN PLACE (a limit that is not positive becomes
        10, a negative offset 0) and the repository's answer for the normalised request is
        returned: its page, or its error unchanged. */
    method GetAllItemsService(page: ItemsPageReq, beginErr: Option<string>, fault: ListFault,
                              commitErr: Option<string>)
      returns (res: Result<ItemsPageRes>, tx: Transaction?, ghost listing: seq<Item>)
      requires repo.Valid()
      modifies page
      ensures beginErr.Some? ==> res == Fail(beginErr.value) && tx == null && unchanged(page)
      ensures beginErr.None? ==> tx != null && fresh(tx) && tx.actions == [TxAction.Commit]
      ensures beginErr.None? && old(page.username) == "" ==> res == Fail("invalid username") && unchanged(page)
      ensures beginErr.None? && old(page.username) != "" ==>
                && page.username == old(page.username)
                && page.limit == Paging.NormalizedLimit(old(page.limit))
                && page.offset == Paging.NormalizedOffset(old(page.offset))
      ensures beginErr.None? && old(page.username) != "" && !fault.CountFails? ==>
                Paging.IsListing(listing, repo.items, OwnedBy(repo.items, page.username), ItemKey, ItemCreated)
      ensures beginErr.None? && old(page.username) != "" ==>
                var w := Paging.Window(listing, page.limit, page.offset);
                var total := |OwnedBy(repo.items, page.username)|;
                && (fault.CountFails? || fault.IterationFails? ==> res == Fail(fault.e.Text()))
                && (fault.QueryFails? ==> res == Fail(LookupError(fault.e)))
                && (fault.ScanFails? && fault.row < |w| ==> res == Fail(fault.e.Text()))
                && (fault.NoFault? || (fault.ScanFails? && fault.row >= |w|) ==>
                      res == Ok(ItemsPageRes(Resps(w), total, Paging.CeilDiv(total, page.limit),
                                             Paging.CurrentPage(page.offset, page.limit), |w|)))
    {
      listing := [];
      if beginErr.Some? {
        return Fail(beginErr.value), null, listing;
      }
      if page.username == "" {
        res := Fail("invalid username");
      } else {
        if page.limit <= 0 {
          page.limit := Paging.DefaultLimit;
        }
        if page.offset < 0 {
          page.offset := 0;
        }
        var found, err;
        found, err, listing := repo.GetAllItemsRepo(page, fault);
        res := if err.Some? then Fail(err.value) else Ok(found.value);
      }
      var logged;
      tx, logged := Closed(commitErr);
    }

    /** `UpdateItemService`. The item is first read by (id, owner); if that fails nothing is
        written and the lookup's error is returned. Otherwise the body is merged IN PLACE with
        the stored item (an empty name and a zero quantity or price keep the stored value; the
        description is always the body's), and the row `item_id = getItem.itemId` is updated
        with those values and the current time. Only a row of `getItem.owner` can therefore
        change, and a refused commit leaves even that one as it was. */
    method UpdateItemService(update: UpdateItemInput, getItem: GetItemInput, now: Time,
                             beginErr: Option<string>, getFault: Option<DbError>,
                             updateFault: Option<DbError>, commitErr: Option<string>)
      returns (res: Result<ItemResp>, tx: Transaction?)
      requires repo.Valid()
      modifies repo, update
      ensures repo.Valid()
      ensures commitErr.Some? ==> repo.items == old(repo.items)
      ensures beginErr.Some? ==> res == Fail(beginErr.value) && tx == null
      ensures beginErr.None? ==> tx != null && fresh(tx) && tx.actions == [TxAction.Commit]
      ensures beginErr.Some? || old(repo.GetItemByIDRepo(getItem, getFault)).Fail? ==>
                repo.items == old(repo.items) && unchanged(update)
      ensures beginErr.None? && old(repo.GetItemByIDRepo(getItem, getFault)).Fail? ==>
                res == old(repo.GetItemByIDRepo(getItem, getFault))
      ensures beginErr.None? && old(repo.GetItemByIDRepo(getItem, getFault)).Ok? ==>
                var stored := old(repo.items)[getItem.itemId];
                && stored.owner == getItem.owner
                && update.name == Fallback(old(update.name), "", stored.name)
                && update.quantity == Fallback(old(update.quantity), 0, stored.quantity)
                && update.price == Fallback(old(update.price), 0, stored.price)
                && update.description == old(update.description)
                && update.updatedAt == old(update.updatedAt)
                && (updateFault.Some? ==>
                      res == Fail(LookupError(updateFault.value)) && repo.items == old(repo.items))
                && (updateFault.None? ==>
                      var row := Revised(stored, update.name, update.quantity, update.price,
                                         update.description, now);
                      res == Ok(ToResp(row))
                      && repo.items == if commitErr.Some? then old(repo.items)
                                       else old(repo.items)[getItem.itemId := row])
      ensures repo.items != old(repo.items) ==>
                getItem.itemId in old(repo.items) && old(repo.items)[getItem.itemId].owner == getItem.owner
    {
      if beginErr.Some? {
        return Fail(beginErr.value), null;
      }
      var before := repo.items;
      var existing := repo.GetItemByIDRepo(getItem, getFault);
      if existing.Fail? {
        res := existing;
      } else {
        if update.name == "" {
          update.name := existing.value.name;
        }
        if update.price == 0 {
          update.price := existing.value.price;
        }
        if update.quantity == 0 {
          update.quantity := existing.value.quantity;
        }
        var updateItem := new UpdateItemInput(update.name, update.quantity, update.price, now, update.description);
        res := repo.ItemUpdateRepo(updateItem, getItem.itemId, updateFault);
      }
      tx := Finish(before, commitErr);
    }

    /** `DeleteItemService`: removes the row with that id WHOEVER owns it; a missing id is not
        an error, and a driver failure is returned as the repository reported it. A refused
        commit keeps the row. */
    method DeleteItemService(id: Uuid, beginErr: Option<string>, fault: Option<DbError>,
                             commitErr: Option<string>)
      returns (err: Option<string>, tx: Transaction?)
      requires repo.Valid()
      modifies repo
      ensures repo.Valid()
      ensures commitErr.Some? ==> repo.items == old(repo.items)
      ensures beginErr.Some? ==> err == beginErr && tx == null && repo.items == old(repo.items)
      ensures beginErr.None? ==> tx != null && fresh(tx) && tx.actions == [TxAction.Commit]
      ensures beginErr.None? && fault.Some? ==>
                err == Some(if fault.value.NoRows? then "item not found" else fault.value.Text())
                && repo.items == old(repo.items)
      ensures beginErr.None? && fault.None? ==>
                err.None? && repo.items == if commitErr.Some? then old(repo.items) else old(repo.items) - {id}
    {
      if beginErr.Some? {
        return beginErr, null;
      }
      var before := repo.items;
      err := repo.ItemDeleteRepo(id, fault);
      tx := Finish(before, commitErr);
    }
  }
}
