/**
 The watchlist routes (routes/watchlist.js): at most one entry per stock,
 listed most recently added first, with an idempotent remove. The watchlist is
 independent of the money flow.
 */
module Watchlist {
  import opened LedgerState

  predicate Watched(w: seq<Entry>, id: int)
  {
    exists i :: 0 <= i < |w| && w[i].stockId == id
  }

  /** `POST /add`: refuse a stock already watched, otherwise put it in front. */
  function Add(w: seq<Entry>, id: int, name: string): (r: Result<seq<Entry>>)
    ensures r.Err? <==> Watched(w, id)
    ensures r.Err? ==> r.error == AlreadyInWatchlist
    // exactly one entry is added, ahead of all older ones, whose order is kept
    ensures r.Ok? ==> |r.value| == |w| + 1 && r.value[0] == Entry(id, name) && r.value[1..] == w
    ensures r.Ok? && UniqueIds(w) ==> UniqueIds(r.value)
  {
    if Watched(w, id) then Err(AlreadyInWatchlist) else Ok([Entry(id, name)] + w)
  }

  /** `DELETE /:stock_id`: drop the entry for `id`, if any; never fails. */
  function Remove(w: seq<Entry>, id: int): (r: seq<Entry>)
    ensures !Watched(r, id)
    ensures forall e :: e in r <==> e in w && e.stockId != id
    ensures |r| <= |w|
    ensures UniqueIds(w) ==> UniqueIds(r)
  {
    if w == [] then []
    else
      var rest := Remove(w[1..], id);
      if w[0].stockId == id then rest
      else
        assert UniqueIds(w) ==> UniqueIds([w[0]] + rest) by {
          if UniqueIds(w) {
            HeadIsFresh(w, rest);
            PrependUnique(w[0], rest);
          }
        }
        [w[0]] + rest
  }

  /** In a list without duplicates, no entry drawn from the tail shares the head's stock. */
  lemma HeadIsFresh(w: seq<Entry>, rest: seq<Entry>)
    requires w != [] && UniqueIds(w)
    requires forall e :: e in rest ==> e in w[1..]
    ensures forall e :: e in rest ==> e.stockId != w[0].stockId
  {
    forall e | e in rest ensures e.stockId != w[0].stockId {
      var j :| 0 <= j < |w[1..]| && w[1..][j] == e;
      assert w[j + 1] == e;
    }
  }

  /** Putting an entry for a new stock in front keeps the list free of duplicates. */
  lemma PrependUnique(x: Entry, rest: seq<Entry>)
    requires UniqueIds(rest)
    requires forall e :: e in rest ==> e.stockId != x.stockId
    ensures UniqueIds([x] + rest)
  {
    forall i, j | 0 <= i < j < |[x] + rest| ensures ([x] + rest)[i].stockId != ([x] + rest)[j].stockId {
      if i == 0 {
        assert ([x] + rest)[j] in rest;
      } else {
        assert ([x] + rest)[i] == rest[i - 1] && ([x] + rest)[j] == rest[j - 1];
      }
    }
  }

  /** Removing a stock that is not watched changes nothing. */
  lemma {:induction false} RemoveAbsent(w: seq<Entry>, id: int)
    requires !Watched(w, id)
    ensures Remove(w, id) == w
  {
    if w != [] {
      assert w[0].stockId != id;
      RemoveAbsent(w[1..], id);
      assert w == [w[0]] + w[1..];
    }
  }

  /** Removing twice is the same as removing once. */
  lemma RemoveIdempotent(w: seq<Entry>, id: int)
    ensures Remove(Remove(w, id), id) == Remove(w, id)
  {
    RemoveAbsent(Remove(w, id), id);
  }

  /**
   In a watchlist without duplicates, removing a watched stock takes out exactly
   its entry and keeps every other entry in its place.
   */
  lemma {:induction false} RemoveKeepsOrder(w: seq<Entry>, id: int, i: nat)
    requires UniqueIds(w)
    requires i < |w| && w[i].stockId == id
    ensures Remove(w, id) == w[..i] + w[i + 1..]
  {
    if i == 0 {
      RemoveAbsent(w[1..], id);
    } else {
      RemoveKeepsOrder(w[1..], id, i - 1);
      assert w[0].stockId != id;
      assert w[1..][..i - 1] == w[1..i];
      assert w[1..][i..] == w[i + 1..];
      RemoveKeepsHead(w, id, i);
    }
  }

  /** The inductive step of `RemoveKeepsOrder`: an entry ahead of the removed one stays in front. */
  lemma RemoveKeepsHead(w: seq<Entry>, id: int, i: nat)
    requires 0 < i < |w| && w[0].stockId != id
    requires Remove(w[1..], id) == w[1..i] + w[i + 1..]
    ensures Remove(w, id) == w[..i] + w[i + 1..]
  {
    assert [w[0]] + w[1..i] == w[..i];
  }

  /** Removing a stock right after adding it restores the watchlist. */
  lemma AddThenRemove(w: seq<Entry>, id: int, name: string)
    requires Add(w, id, name).Ok?
    ensures Remove(Add(w, id, name).value, id) == w
  {
    var w' := Add(w, id, name).value;
    assert w'[1..] == w;
    RemoveAbsent(w, id);
  }

  /** After a remove the stock can be added again. */
  lemma RemoveThenAdd(w: seq<Entry>, id: int, name: string)
    ensures Add(Remove(w, id), id, name).Ok?
  {
  }

  /** One line of the `GET /` listing: the entry and the stock's latest closing price, if any. */
  datatype Row = Row(entry: Entry, currentPrice: Option<real>)

  /** `GET /`: every entry, newest first, with the price `latest` reports for it. */
  function Listing(w: seq<Entry>, latest: int -> Option<real>): seq<Row>
  {
    seq(|w|, i requires 0 <= i < |w| => Row(w[i], latest(w[i].stockId)))
  }

  /** The stock added last is listed first, ahead of the listing as it was before. */
  lemma AddListsFirst(w: seq<Entry>, id: int, name: string, latest: int -> Option<real>)
    requires Add(w, id, name).Ok?
    ensures Listing(Add(w, id, name).value, latest)[0] == Row(Entry(id, name), latest(id))
    ensures Listing(Add(w, id, name).value, latest)[1..] == Listing(w, latest)
  {
  }
}
