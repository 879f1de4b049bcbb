// The favorites half of the storefront's session store: an ordered list of
// product identifiers, the new list `toggleFavorite` builds (with `includes`,
// `filter` and spread in the original), and the laws of toggling.

module FavoriteIds {

  /** No identifier is listed twice. */
  ghost predicate NoDuplicates(favorites: seq<string>)
  {
    forall i, j :: 0 <= i < j < |favorites| ==> favorites[i] != favorites[j]
  }

  /** The `filter` of `toggleFavorite`: every other identifier, in order. */
  function Removed(favorites: seq<string>, id: string): (r: seq<string>)
    ensures |r| <= |favorites|
    ensures forall x :: x in r <==> x in favorites && x != id
  {
    if favorites == [] then []
    else if favorites[0] == id then Removed(favorites[1..], id)
    else [favorites[0]] + Removed(favorites[1..], id)
  }

  /** The filter drops every copy of the identifier and keeps every other
      identifier as often as it occurred. */
  lemma {:induction false} RemovedMultiplicity(favorites: seq<string>, id: string)
    ensures forall x :: multiset(Removed(favorites, id))[x] == if x == id then 0 else multiset(favorites)[x]
  {
    if favorites != [] {
      RemovedMultiplicity(favorites[1..], id);
      assert favorites == [favorites[0]] + favorites[1..];
      assert multiset(favorites) == multiset{favorites[0]} + multiset(favorites[1..]);
    }
  }

  /** The list after `toggleFavorite(id)`. */
  function Toggled(favorites: seq<string>, id: string): (r: seq<string>)
    ensures id in r <==> id !in favorites
    ensures forall x :: x != id ==> (x in r <==> x in favorites)
  {
    if id in favorites then Removed(favorites, id) else favorites + [id]
  }

  /** Filtering out an identifier that is not listed is a no-op. */
  lemma {:induction false} RemovedAbsent(favorites: seq<string>, id: string)
    requires id !in favorites
    ensures Removed(favorites, id) == favorites
  {
    if favorites != [] {
      assert favorites == [favorites[0]] + favorites[1..];
      RemovedAbsent(favorites[1..], id);
    }
  }

  /** Filtering out an identifier that was just appended gives back the list
      it was appended to, when that list did not hold it. */
  lemma {:induction false} RemovedAppended(favorites: seq<string>, id: string)
    requires id !in favorites
    ensures Removed(favorites + [id], id) == favorites
  {
    if favorites == [] {
      assert [] + [id] == [id];
      assert [id][1..] == [];
    } else {
      assert (favorites + [id])[1..] == favorites[1..] + [id];
      RemovedAppended(favorites[1..], id);
      assert favorites == [favorites[0]] + favorites[1..];
    }
  }

  /** In a list without duplicates whose position k holds the identifier, the
      filter deletes exactly that position and keeps the rest in order. */
  lemma {:induction false} RemovedAt(favorites: seq<string>, k: nat)
    requires NoDuplicates(favorites) && k < |favorites|
    ensures Removed(favorites, favorites[k]) == favorites[..k] + favorites[k + 1..]
  {
    var id, tail := favorites[k], favorites[1..];
    assert NoDuplicates(tail) by {
      forall i, j | 0 <= i < j < |tail| ensures tail[i] != tail[j] {
        assert tail[i] == favorites[i + 1] && tail[j] == favorites[j + 1];
      }
    }
    if k == 0 {
      assert id !in tail by {
        forall i | 0 <= i < |tail| ensures tail[i] != id {
          assert tail[i] == favorites[i + 1];
        }
      }
      RemovedAbsent(tail, id);
    } else {
      assert tail[k - 1] == id;
      RemovedAt(tail, k - 1);
      assert favorites[0] != id;
      assert favorites[..k] == [favorites[0]] + tail[..k - 1];
      assert favorites[k + 1..] == tail[k..];
    }
  }

  /** Deleting one position keeps a list free of duplicates. */
  lemma DeletePositionNoDuplicates(favorites: seq<string>, k: nat)
    requires NoDuplicates(favorites) && k < |favorites|
    ensures NoDuplicates(favorites[..k] + favorites[k + 1..])
  {
    var r := favorites[..k] + favorites[k + 1..];
    forall i | 0 <= i < |r| ensures r[i] == favorites[if i < k then i else i + 1] {
    }
  }

  /** Toggling never introduces a duplicate. */
  lemma ToggledNoDuplicates(favorites: seq<string>, id: string)
    requires NoDuplicates(favorites)
    ensures NoDuplicates(Toggled(favorites, id))
  {
    if id in favorites {
      var k :| 0 <= k < |favorites| && favorites[k] == id;
      RemovedAt(favorites, k);
      DeletePositionNoDuplicates(favorites, k);
    } else {
      var r := favorites + [id];
      forall i, j | 0 <= i < j < |r| ensures r[i] != r[j] {
        if j == |favorites| {
          assert r[i] == favorites[i];
        }
      }
    }
  }

  /** Two successive toggles restore the membership of every identifier. */
  lemma ToggleTwiceMembership(favorites: seq<string>, id: string, x: string)
    ensures x in Toggled(Toggled(favorites, id), id) <==> x in favorites
  {
  }

  /** Two successive toggles of an identifier that was not listed restore the
      exact list. */
  lemma ToggleTwiceAbsent(favorites: seq<string>, id: string)
    requires id !in favorites
    ensures Toggled(Toggled(favorites, id), id) == favorites
  {
    RemovedAppended(favorites, id);
  }

  /** Two successive toggles of a listed identifier (at position k) move it
      from its place to the end of the list. */
  lemma ToggleTwicePresent(favorites: seq<string>, k: nat)
    requires NoDuplicates(favorites) && k < |favorites|
    ensures Toggled(Toggled(favorites, favorites[k]), favorites[k]) ==
      favorites[..k] + favorites[k + 1..] + [favorites[k]]
  {
    RemovedAt(favorites, k);
  }
}
