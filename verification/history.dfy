/** The history store (src/services/history.service.ts): the most recent
    records first, at most ten kept by each `addRecord`, the whole list
    written to `localStorage` after every change. */
module History {
  import opened Wrappers
  import opened Models
  import opened Storage

  const HistoryKey: string := "recipe_app_history"
  const HistoryCap: nat := 10

  function Min(a: int, b: int): int { if a <= b then a else b }

  /** `[record, ...prev].slice(0, 10)`: the record in front, then the
      first (at most) nine older entries in their order; no entry is
      removed for having the same id. */
  function Added(prev: seq<MenuItem>, record: MenuItem): (r: seq<MenuItem>)
    ensures |r| == Min(HistoryCap, |prev| + 1)
    ensures r[0] == record
    ensures r == [record] + prev[..Min(HistoryCap - 1, |prev|)]
  {
    ([record] + prev)[..Min(HistoryCap, |prev| + 1)]
  }

  /** The number of entries with the given id. */
  function CountId(xs: seq<MenuItem>, id: string): (n: nat)
    ensures n <= |xs|
  {
    if xs == [] then 0
    else (if xs[0].id == id then 1 else 0) + CountId(xs[1..], id)
  }

  /** No de-duplication: below the cap, adding a record whose id is already
      present gives one more entry with that id. */
  lemma {:induction false} AddedKeepsDuplicates(prev: seq<MenuItem>, record: MenuItem)
    requires |prev| < HistoryCap
    ensures CountId(Added(prev, record), record.id) == CountId(prev, record.id) + 1
  {
    var r := Added(prev, record);
    assert r == [record] + prev;
    assert r[1..] == prev;
  }

  /** A record already present, added again below the cap, appears twice. */
  lemma {:induction false} AddedTwiceBelowCap(prev: seq<MenuItem>, record: MenuItem, i: nat)
    requires |prev| < HistoryCap && i < |prev| && prev[i].id == record.id
    ensures var r := Added(prev, record); r[0].id == record.id && r[i + 1].id == record.id
  {
  }

  /** The history after a series of `addRecord` calls, oldest call first. */
  function AddedAll(prev: seq<MenuItem>, records: seq<MenuItem>): seq<MenuItem>
    decreases |records|
  {
    if records == [] then prev
    else Added(AddedAll(prev, records[..|records| - 1]), records[|records| - 1])
  }

  function Reversed(xs: seq<MenuItem>): (r: seq<MenuItem>)
    ensures |r| == |xs|
    ensures forall i | 0 <= i < |xs| :: r[i] == xs[|xs| - 1 - i]
  {
    if xs == [] then [] else [xs[|xs| - 1]] + Reversed(xs[..|xs| - 1])
  }

  /** After at least one `addRecord`, the history is the added records,
      newest first, followed by the older history, cut at ten. So its length
      never exceeds ten, and ten additions forget the stored history. */
  lemma {:induction false} AddedAllNewestFirst(prev: seq<MenuItem>, records: seq<MenuItem>)
    requires |records| > 0
    ensures AddedAll(prev, records) == (Reversed(records) + prev)[..Min(HistoryCap, |records| + |prev|)]
    decreases |records|
  {
    var init, last := records[..|records| - 1], records[|records| - 1];
    if init == [] {
      assert Reversed(records) == [last];
    } else {
      AddedAllNewestFirst(prev, init);
      var h := AddedAll(prev, init);
      var all := Reversed(records) + prev;
      assert Reversed(records) == [last] + Reversed(init);
      assert all == [last] + (Reversed(init) + prev);
      var m := Min(HistoryCap, |records| + |prev|);
      assert Added(h, last) == all[..m];
    }
  }

  /** Ten or more additions leave exactly the ten newest, newest first. */
  lemma {:induction false} TenAdditionsForgetStored(prev: seq<MenuItem>, records: seq<MenuItem>)
    requires |records| >= HistoryCap
    ensures var h := AddedAll(prev, records);
            |h| == HistoryCap && forall i | 0 <= i < HistoryCap :: h[i] == records[|records| - 1 - i]
  {
    AddedAllNewestFirst(prev, records);
  }

  class HistoryService {
    const store: LocalStorage
    const codec: Codec
    var history: seq<MenuItem>

    /** The constructor runs `loadHistory`. */
    constructor (store: LocalStorage, codec: Codec)
      ensures this.store == store && this.codec == codec
      ensures history == LoadList(store.GetItem(HistoryKey), codec)
    {
      this.store := store;
      this.codec := codec;
      history := LoadList(store.GetItem(HistoryKey), codec);
    }

    /** `addRecord`: the new list replaces the old one and is what
        `saveToStorage` writes. */
    method AddRecord(record: MenuItem)
      modifies this, store
      ensures history == Added(old(history), record)
      ensures store.available == old(store.available)
      ensures store.entries == if store.available
                               then old(store.entries)[HistoryKey := codec.stringify(history)]
                               else old(store.entries)
    {
      var newHistory := Added(history, record);
      store.SetItem(HistoryKey, codec.stringify(newHistory));
      history := newHistory;
    }

    /** `getHistory`: the current list, nothing changed. */
    method GetHistory() returns (records: seq<MenuItem>)
      ensures records == history
    {
      records := history;
    }
  }
}
