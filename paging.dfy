/** Pagination shared by the item and post listings: the `limit`/`offset` defaults, the rows a
    `WHERE owner = $1 ORDER BY created_at DESC LIMIT $2 OFFSET $3` query returns, and the
    page metadata (`math.Ceil` of the page count is integer ceiling division here). */
module Paging {
  import opened Common

  const DefaultLimit := 10

  /** A limit that is not positive becomes the default 10; any other limit is kept. */
  function NormalizedLimit(limit: int): (r: int)
    ensures r > 0
    ensures limit > 0 ==> r == limit
    ensures limit <= 0 ==> r == DefaultLimit
  {
    if limit <= 0 then DefaultLimit else limit
  }

  /** A negative offset becomes 0; any other offset is kept. */
  function NormalizedOffset(offset: int): (r: int)
    ensures r >= 0
    ensures offset >= 0 ==> r == offset
    ensures offset < 0 ==> r == 0
  {
    if offset < 0 then 0 else offset
  }

  /** Normalising a normalised window changes nothing. */
  lemma NormalizeIdempotent(limit: int, offset: int)
    ensures NormalizedLimit(NormalizedLimit(limit)) == NormalizedLimit(limit)
    ensures NormalizedOffset(NormalizedOffset(offset)) == NormalizedOffset(offset)
  {
  }

  /** `int(math.Ceil(float64(total) / float64(limit)))`: the least number of pages of `limit`
      rows that hold `total` rows. */
  function CeilDiv(total: int, limit: int): (pages: int)
    requires total >= 0 && limit > 0
    ensures pages >= 0
    ensures pages * limit >= total
    ensures pages == 0 || (pages - 1) * limit < total
  {
    (total + limit - 1) / limit
  }

  /** `offset/limit + 1`: the 1-based number of the page on which row `offset` falls. */
  function CurrentPage(offset: int, limit: int): (page: int)
    requires offset >= 0 && limit > 0
    ensures page >= 1
    ensures (page - 1) * limit <= offset < page * limit
  {
    offset / limit + 1
  }

  /** `LIMIT limit OFFSET offset` applied to the ordered rows `s`. */
  function Window<R>(s: seq<R>, limit: int, offset: int): (w: seq<R>)
    requires limit >= 0 && offset >= 0
    ensures |w| <= limit
    ensures |w| == if offset >= |s| then 0 else if |s| - offset < limit then |s| - offset else limit
    ensures forall i :: 0 <= i < |w| ==> w[i] == s[offset + i]
  {
    if offset >= |s| then []
    else if |s| - offset < limit then s[offset..]
    else s[offset..offset + limit]
  }

  /** The keys of the rows of `s`. */
  function KeysOf<R>(s: seq<R>, key: R -> Uuid): set<Uuid>
  {
    if s == [] then {} else {key(s[0])} + KeysOf(s[1..], key)
  }

  lemma {:induction false} KeyInKeysOf<R>(s: seq<R>, key: R -> Uuid, i: nat)
    requires i < |s|
    ensures key(s[i]) in KeysOf(s, key)
    decreases i
  {
    if i > 0 {
      assert s[i] == s[1..][i - 1];
      KeyInKeysOf(s[1..], key, i - 1);
    }
  }

  predicate NewestFirst<R>(s: seq<R>, created: R -> Time)
  {
    forall i, j :: 0 <= i < j < |s| ==> created(s[i]) >= created(s[j])
  }

  /** `s` is what the database returns for the rows of `rows` whose keys are `keys`, ordered by
      `created` descending: every such row exactly once (as many rows as keys, covering all keys),
      each as stored, newest first. Rows created at the same instant may come in any order. */
  predicate IsListing<R(==)>(s: seq<R>, rows: map<Uuid, R>, keys: set<Uuid>, key: R -> Uuid, created: R -> Time)
  {
    && |s| == |keys|
    && KeysOf(s, key) == keys
    && (forall i :: 0 <= i < |s| ==> key(s[i]) in rows && rows[key(s[i])] == s[i])
    && NewestFirst(s, created)
  }

  /** Among a non-empty set of stored keys, one whose row is the newest. */
  lemma {:induction false} NewestKey<R>(rows: map<Uuid, R>, keys: set<Uuid>, created: R -> Time)
    returns (k: Uuid)
    requires keys != {} && keys <= rows.Keys
    ensures k in keys
    ensures forall j :: j in keys ==> created(rows[j]) <= created(rows[k])
    decreases |keys|
  {
    var x :| x in keys;
    if keys == {x} {
      k := x;
    } else {
      var rest := NewestKey(rows, keys - {x}, created);
      k := if created(rows[x]) >= created(rows[rest]) then x else rest;
    }
  }

  /** The query always has an answer: every finite set of stored rows can be listed newest first. */
  lemma {:induction false} ListingExists<R>(rows: map<Uuid, R>, keys: set<Uuid>, key: R -> Uuid,
                                            created: R -> Time)
    returns (s: seq<R>)
    requires keys <= rows.Keys
    requires forall k :: k in keys ==> key(rows[k]) == k
    ensures IsListing(s, rows, keys, key, created)
    decreases |keys|
  {
    if keys == {} {
      s := [];
    } else {
      var k := NewestKey(rows, keys, created);
      var rest := ListingExists(rows, keys - {k}, key, created);
      s := [rows[k]] + rest;
      assert s[1..] == rest;
      assert KeysOf(s, key) == {k} + KeysOf(rest, key);
      forall i, j | 0 <= i < j < |s| ensures created(s[i]) >= created(s[j]) {
        if i == 0 {
          KeyInKeysOf(rest, key, j - 1);
          assert s[j] == rest[j - 1];
        } else {
          assert s[i] == rest[i - 1] && s[j] == rest[j - 1];
        }
      }
    }
  }

  /** The rows of a listing are the selected rows as stored. */
  lemma ListingRows<R>(s: seq<R>, rows: map<Uuid, R>, keys: set<Uuid>, key: R -> Uuid,
                       created: R -> Time, i: nat)
    requires IsListing(s, rows, keys, key, created) && i < |s|
    ensures key(s[i]) in keys && rows[key(s[i])] == s[i]
  {
    KeyInKeysOf(s, key, i);
  }

  /** The page of a listing: its rows are selected rows, newest first, at most `limit` of them,
      and as many as the selection has left after `offset`. */
  lemma WindowOfListing<R>(s: seq<R>, rows: map<Uuid, R>, keys: set<Uuid>, key: R -> Uuid,
                           created: R -> Time, limit: int, offset: int)
    requires IsListing(s, rows, keys, key, created) && limit >= 0 && offset >= 0
    ensures var w := Window(s, limit, offset);
            && |w| <= limit
            && |w| == (if offset >= |keys| then 0 else if |keys| - offset < limit then |keys| - offset else limit)
            && NewestFirst(w, created)
            && forall i :: 0 <= i < |w| ==> key(w[i]) in keys && rows[key(w[i])] == w[i]
  {
    var w := Window(s, limit, offset);
    forall i | 0 <= i < |w| ensures key(w[i]) in keys && rows[key(w[i])] == w[i] {
      ListingRows(s, rows, keys, key, created, offset + i);
    }
  }

  /** Twenty-five rows read ten at a time from offset 20: the last five rows, on page 3 of 3. */
  lemma TwentyFiveRowsExample<R>(s: seq<R>)
    requires |s| == 25
    ensures |Window(s, 10, 20)| == 5 && CeilDiv(25, 10) == 3 && CurrentPage(20, 10) == 3
  {
  }
}
