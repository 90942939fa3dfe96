/** The favorites store (src/services/favorite.service.ts): an uncapped
    list keyed by `id`; toggling removes every entry with the record's id,
    or puts the record in front when there is none. */
module Favorites {
  import opened Wrappers
  import opened Models
  import opened Storage

  const FavoritesKey: string := "recipe_app_favorites"

  /** `list.some(r => r.id === id)`. */
  predicate HasId(xs: seq<MenuItem>, id: string) {
    exists i | 0 <= i < |xs| :: xs[i].id == id
  }

  /** `some` on a non-empty list: the head or the tail has the id. */
  lemma HasIdSplit(xs: seq<MenuItem>, id: string)
    requires xs != []
    ensures HasId(xs, id) <==> xs[0].id == id || HasId(xs[1..], id)
  {
    if HasId(xs[1..], id) {
      var i :| 0 <= i < |xs[1..]| && xs[1..][i].id == id;
      assert xs[i + 1].id == id;
    }
    if HasId(xs, id) && xs[0].id != id {
      var i :| 0 <= i < |xs| && xs[i].id == id;
      assert xs[1..][i - 1].id == id;
    }
  }

  /** `list.filter(r => r.id !== id)`: no entry with that id remains, only
      entries of the list remain, the list shrinks exactly when it had
      the id, and a list without that id is returned as it is. */
  function RemoveId(xs: seq<MenuItem>, id: string): (r: seq<MenuItem>)
    ensures |r| <= |xs|
    ensures !HasId(r, id)
    ensures forall x | x in r :: x in xs
    ensures !HasId(xs, id) ==> r == xs
    ensures HasId(xs, id) ==> |r| < |xs|
  {
    if xs == [] then []
    else
      var rest := RemoveId(xs[1..], id);
      HasIdSplit(xs, id);
      if xs[0].id == id then rest
      else
        HasIdSplit([xs[0]] + rest, id);
        assert ([xs[0]] + rest)[1..] == rest;
        assert xs == [xs[0]] + xs[1..];
        [xs[0]] + rest
  }

  /** Every entry with another id keeps its number of occurrences. */
  lemma {:induction false} RemoveIdKeepsOthers(xs: seq<MenuItem>, id: string, x: MenuItem)
    requires x.id != id
    ensures multiset(RemoveId(xs, id))[x] == multiset(xs)[x]
    decreases |xs|
  {
    if xs != [] {
      RemoveIdKeepsOthers(xs[1..], id, x);
      assert xs == [xs[0]] + xs[1..];
    }
  }

  /** Filtering keeps the order: filtering a concatenation is the
      concatenation of the filtered parts. */
  lemma {:induction false} RemoveIdAppend(xs: seq<MenuItem>, ys: seq<MenuItem>, id: string)
    ensures RemoveId(xs + ys, id) == RemoveId(xs, id) + RemoveId(ys, id)
    decreases |xs|
  {
    if xs == [] {
      assert xs + ys == ys;
    } else {
      assert (xs + ys)[1..] == xs[1..] + ys;
      assert (xs + ys)[0] == xs[0];
      RemoveIdAppend(xs[1..], ys, id);
    }
  }

  /** The list `toggleFavorite(record)` leaves. */
  function Toggled(prev: seq<MenuItem>, record: MenuItem): (r: seq<MenuItem>)
    ensures HasId(r, record.id) == !HasId(prev, record.id)
    ensures !HasId(prev, record.id) ==> r == [record] + prev && |r| == |prev| + 1
    ensures HasId(prev, record.id) ==> |r| < |prev|
  {
    if HasId(prev, record.id) then
      RemoveId(prev, record.id)
    else
      assert HasId([record] + prev, record.id) by { assert ([record] + prev)[0] == record; }
      [record] + prev
  }

  /** Toggling a present id filters it out, and every entry with another
      id keeps its number of occurrences. */
  lemma {:induction false} ToggledPresentKeepsOthers(prev: seq<MenuItem>, record: MenuItem, x: MenuItem)
    requires HasId(prev, record.id) && x.id != record.id
    ensures Toggled(prev, record) == RemoveId(prev, record.id)
    ensures multiset(Toggled(prev, record))[x] == multiset(prev)[x]
  {
    RemoveIdKeepsOthers(prev, record.id, x);
  }

  /** Toggling an absent record twice gives back the original list. */
  lemma {:induction false} ToggleTwiceRestores(prev: seq<MenuItem>, record: MenuItem)
    requires !HasId(prev, record.id)
    ensures Toggled(Toggled(prev, record), record) == prev
  {
    var once := [record] + prev;
    assert once[1..] == prev;
    assert Toggled(prev, record) == once;
    assert HasId(once, record.id) by { assert once[0].id == record.id; }
    assert RemoveId(once, record.id) == RemoveId(prev, record.id);
  }

  /** No two entries share an id. */
  predicate UniqueIds(xs: seq<MenuItem>) {
    forall i, j | 0 <= i < j < |xs| :: xs[i].id != xs[j].id
  }

  /** Putting an entry in front of a list with unique ids, none equal to
      its own, keeps the ids unique. */
  lemma ConsKeepsUnique(x: MenuItem, xs: seq<MenuItem>)
    requires UniqueIds(xs) && !HasId(xs, x.id)
    ensures UniqueIds([x] + xs)
  {
    var out := [x] + xs;
    forall i, j | 0 <= i < j < |out| ensures out[i].id != out[j].id {
      assert out[j] == xs[j - 1];
      if i > 0 { assert out[i] == xs[i - 1]; }
    }
  }

  lemma {:induction false} RemoveIdKeepsUnique(xs: seq<MenuItem>, id: string)
    requires UniqueIds(xs)
    ensures UniqueIds(RemoveId(xs, id))
    decreases |xs|
  {
    if xs != [] {
      var rest := xs[1..];
      assert UniqueIds(rest) by {
        forall i, j | 0 <= i < j < |rest| ensures rest[i].id != rest[j].id {
          assert rest[i] == xs[i + 1] && rest[j] == xs[j + 1];
        }
      }
      RemoveIdKeepsUnique(rest, id);
      if xs[0].id != id {
        var r := RemoveId(rest, id);
        assert !HasId(r, xs[0].id) by {
          forall k | 0 <= k < |r| ensures r[k].id != xs[0].id {
            assert r[k] in rest;
            var m :| 0 <= m < |rest| && rest[m] == r[k];
            assert xs[m + 1] == r[k];
          }
        }
        ConsKeepsUnique(xs[0], r);
      }
    }
  }

  /** Toggling keeps ids unique. */
  lemma {:induction false} ToggledKeepsUnique(prev: seq<MenuItem>, record: MenuItem)
    requires UniqueIds(prev)
    ensures UniqueIds(Toggled(prev, record))
  {
    if HasId(prev, record.id) {
      RemoveIdKeepsUnique(prev, record.id);
    } else {
      ConsKeepsUnique(record, prev);
    }
  }

  class FavoriteService {
    const store: LocalStorage
    const codec: Codec
    var favorites: seq<MenuItem>

    /** The constructor runs `loadFavorites`. */
    constructor (store: LocalStorage, codec: Codec)
      ensures this.store == store && this.codec == codec
      ensures favorites == LoadList(store.GetItem(FavoritesKey), codec)
    {
      this.store := store;
      this.codec := codec;
      favorites := LoadList(store.GetItem(FavoritesKey), codec);
    }

    /** `toggleFavorite`: the new list replaces the old one and is what
        `saveToStorage` writes. */
    method ToggleFavorite(record: MenuItem)
      modifies this, store
      ensures favorites == Toggled(old(favorites), record)
      ensures store.available == old(store.available)
      ensures store.entries == if store.available
                               then old(store.entries)[FavoritesKey := codec.stringify(favorites)]
                               else old(store.entries)
    {
      var present := HasId(favorites, record.id);
      var newFavorites;
      if present {
        newFavorites := RemoveId(favorites, record.id);
      } else {
        newFavorites := [record] + favorites;
      }
      store.SetItem(FavoritesKey, codec.stringify(newFavorites));
      favorites := newFavorites;
    }

    /** `isFavorite(id)`: whether some entry has that id. */
    method IsFavorite(id: string) returns (b: bool)
      ensures b <==> exists i | 0 <= i < |favorites| :: favorites[i].id == id
    {
      b := HasId(favorites, id);
    }
  }
}
