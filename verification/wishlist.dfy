/**
 * The mapper wishlist (src/commands/wishlist.ts): up to ten mappers per user, looked up by
 * case-insensitive username, never twice, shown in order of creation.
 */
module Wishlist {
  import opened Types
  import opened Entities
  import opened State
  import opened CardService

  const Capacity: nat := 10
  const Full: string := "You can only have 10 mappers in your wishlist"
  const MapperNotFound: string := "Mapper not found"
  const Empty: string := "Your wishlist is empty"

  function AlreadyListed(username: string): string
  {
    "You already have `" + username + "` in your wishlist"
  }

  function NotListed(username: string): string
  {
    "You do not have `" + username + "` in your wishlist"
  }

  /** A user's entries, in insertion order (none when the user has no row). */
  function Entries(wishlists: map<UserId, seq<WishlistEntry>>, user: UserId): seq<WishlistEntry>
  {
    if user in wishlists then wishlists[user] else []
  }

  /** Whether a mapper's lower-cased username equals the lower-cased argument (deleted mappers included). */
  predicate Matching(mappers: map<MapperId, Mapper>, username: string, id: MapperId)
  {
    id in mappers && ToLower(mappers[id].username) == ToLower(username)
  }

  /** Whether a list holds an entry for the mapper. */
  predicate Listed(entries: seq<WishlistEntry>, mapper: MapperId)
  {
    exists i :: 0 <= i < |entries| && entries[i].mapper == mapper
  }

  /** The list without the entries for a mapper. */
  function Without(entries: seq<WishlistEntry>, mapper: MapperId): (r: seq<WishlistEntry>)
    ensures |r| <= |entries|
    ensures !Listed(r, mapper)
    ensures forall i :: 0 <= i < |r| ==> r[i] in entries
    decreases |entries|
  {
    if entries == [] then []
    else
      var rest := Without(entries[1..], mapper);
      assert forall i :: 0 <= i < |rest| ==> rest[i] in entries[1..];
      if entries[0].mapper == mapper then rest else [entries[0]] + rest
  }

  // ---------------------------------------------------------------------------------------
  // add
  // ---------------------------------------------------------------------------------------

  /**
   * chatInputAdd on one user's list, given the mapper the lookup returned (None when it
   * found none): the capacity check, the lookup, the duplicate check, then the new entry at
   * the end, created now.
   */
  function AddEntry(entries: seq<WishlistEntry>, found: Option<MapperId>, username: string, now: int): (r: Result<seq<WishlistEntry>>)
    ensures |entries| >= Capacity ==> r == Err(Full)
    ensures |entries| < Capacity && found.None? ==> r == Err(MapperNotFound)
    ensures r.Ok? <==> |entries| < Capacity && found.Some? && !Listed(entries, found.value)
    ensures r.Ok? ==> |r.value| == |entries| + 1 && r.value[..|entries|] == entries &&
                      r.value[|entries|] == WishlistEntry(found.value, now)
  {
    if |entries| >= Capacity then Err(Full)
    else if found.None? then Err(MapperNotFound)
    else if Listed(entries, found.value) then Err(AlreadyListed(username))
    else
      var r := entries + [WishlistEntry(found.value, now)];
      assert r[..|entries|] == entries;
      Ok(r)
  }

  /** Adding keeps the list within capacity, free of duplicates, and naming known mappers. */
  lemma {:induction false} AddKeepsValid(entries: seq<WishlistEntry>, mappers: map<MapperId, Mapper>, found: Option<MapperId>, username: string, now: int)
    requires WishlistValid(entries, mappers)
    requires found.Some? ==> found.value in mappers
    ensures var r := AddEntry(entries, found, username, now);
      r.Ok? ==> WishlistValid(r.value, mappers)
  {
    var r := AddEntry(entries, found, username, now);
    if r.Ok? {
      var l := r.value;
      forall i, j | 0 <= i < j < |l| ensures l[i].mapper != l[j].mapper {
        if j == |entries| {
          assert l[i] == entries[i];
        } else {
          assert l[i] == entries[i] && l[j] == entries[j];
        }
      }
      forall i | 0 <= i < |l| ensures l[i].mapper in mappers {
        if i < |entries| {
          assert l[i] == entries[i];
        }
      }
      assert MappersDistinct(l);
    }
  }

  // ---------------------------------------------------------------------------------------
  // remove
  // ---------------------------------------------------------------------------------------

  /**
   * chatInputRemove on one user's list: the lookup, the membership check, then the entry for
   * that mapper is deleted.
   */
  function RemoveEntry(entries: seq<WishlistEntry>, found: Option<MapperId>, username: string): (r: Result<seq<WishlistEntry>>)
    ensures found.None? ==> r == Err(MapperNotFound)
    ensures r.Ok? <==> found.Some? && Listed(entries, found.value)
    ensures r.Ok? ==> !Listed(r.value, found.value) && |r.value| < |entries|
  {
    if found.None? then Err(MapperNotFound)
    else if !Listed(entries, found.value) then Err(NotListed(username))
    else
      WithoutShorter(entries, found.value);
      Ok(Without(entries, found.value))
  }

  /** Removing a listed mapper shortens the list. */
  lemma {:induction false} WithoutShorter(entries: seq<WishlistEntry>, mapper: MapperId)
    requires Listed(entries, mapper)
    ensures |Without(entries, mapper)| < |entries|
    decreases |entries|
  {
    if entries[0].mapper != mapper {
      var i :| 0 <= i < |entries| && entries[i].mapper == mapper;
      assert entries[1..][i - 1].mapper == mapper;
      WithoutShorter(entries[1..], mapper);
    }
  }

  /** In a list without duplicates, removing the mapper of entry j deletes exactly that entry. */
  lemma {:induction false} WithoutRemovesOne(entries: seq<WishlistEntry>, j: int)
    requires MappersDistinct(entries) && 0 <= j < |entries|
    ensures Without(entries, entries[j].mapper) == entries[..j] + entries[j + 1..]
    decreases |entries|
  {
    var mapper := entries[j].mapper;
    var rest := entries[1..];
    assert MappersDistinct(rest) by {
      forall a, b | 0 <= a < b < |rest| ensures rest[a].mapper != rest[b].mapper {
        assert rest[a] == entries[a + 1] && rest[b] == entries[b + 1];
      }
    }
    if j == 0 {
      forall i | 0 <= i < |rest| ensures rest[i].mapper != mapper {
        assert rest[i] == entries[i + 1];
      }
      WithoutUnlisted(rest, mapper);
    } else {
      assert entries[0].mapper != mapper;
      assert rest[j - 1] == entries[j];
      WithoutRemovesOne(rest, j - 1);
      assert entries[..j] + entries[j + 1..] == [entries[0]] + (rest[..j - 1] + rest[j..]);
    }
  }

  /** Removing a mapper a list does not hold leaves it unchanged. */
  lemma {:induction false} WithoutUnlisted(entries: seq<WishlistEntry>, mapper: MapperId)
    requires forall i :: 0 <= i < |entries| ==> entries[i].mapper != mapper
    ensures Without(entries, mapper) == entries
    decreases |entries|
  {
    if entries != [] {
      WithoutUnlisted(entries[1..], mapper);
      assert [entries[0]] + entries[1..] == entries;
    }
  }

  /** Removing keeps the list within capacity, free of duplicates, and naming known mappers. */
  lemma {:induction false} RemoveKeepsValid(entries: seq<WishlistEntry>, mappers: map<MapperId, Mapper>, found: Option<MapperId>, username: string)
    requires WishlistValid(entries, mappers)
    ensures var r := RemoveEntry(entries, found, username);
      r.Ok? ==> WishlistValid(r.value, mappers)
  {
    var r := RemoveEntry(entries, found, username);
    if r.Ok? {
      var j :| 0 <= j < |entries| && entries[j].mapper == found.value;
      WithoutRemovesOne(entries, j);
      DeleteKeepsValid(entries, mappers, j);
    }
  }

  /** Deleting one entry keeps a list valid. */
  lemma {:induction false} DeleteKeepsValid(entries: seq<WishlistEntry>, mappers: map<MapperId, Mapper>, j: int)
    requires WishlistValid(entries, mappers) && 0 <= j < |entries|
    ensures WishlistValid(entries[..j] + entries[j + 1..], mappers)
  {
    var l := entries[..j] + entries[j + 1..];
    forall a | 0 <= a < |l| ensures l[a] == entries[if a < j then a else a + 1] {
    }
    forall a, b | 0 <= a < b < |l| ensures l[a].mapper != l[b].mapper {
      assert l[a] == entries[if a < j then a else a + 1];
      assert l[b] == entries[if b < j then b else b + 1];
    }
  }

  /** Removing a mapper right after adding it restores the list. */
  lemma {:induction false} AddThenRemove(entries: seq<WishlistEntry>, found: Option<MapperId>, username: string, now: int)
    requires AddEntry(entries, found, username, now).Ok?
    ensures RemoveEntry(AddEntry(entries, found, username, now).value, found, username) == Ok(entries)
  {
    var id := found.value;
    var added := AddEntry(entries, found, username, now).value;
    assert added == entries + [WishlistEntry(id, now)];
    assert added[|entries|].mapper == id;
    WithoutAppended(entries, WishlistEntry(id, now));
  }

  /** Removing the mapper of a last entry that no earlier entry names drops just that entry. */
  lemma {:induction false} WithoutAppended(entries: seq<WishlistEntry>, e: WishlistEntry)
    requires !Listed(entries, e.mapper)
    ensures Without(entries + [e], e.mapper) == entries
    decreases |entries|
  {
    if entries == [] {
      assert Without([e], e.mapper) == Without([e][1..], e.mapper);
    } else {
      assert (entries + [e])[1..] == entries[1..] + [e];
      assert !Listed(entries[1..], e.mapper) by {
        forall i | 0 <= i < |entries[1..]| ensures entries[1..][i].mapper != e.mapper {
          assert entries[1..][i] == entries[i + 1];
        }
      }
      WithoutAppended(entries[1..], e);
      assert entries[0].mapper != e.mapper;
      assert [entries[0]] + entries[1..] == entries;
    }
  }

  // ---------------------------------------------------------------------------------------
  // show
  // ---------------------------------------------------------------------------------------

  /** Entries in ascending order of creation. */
  ghost predicate ByCreation(entries: seq<WishlistEntry>)
  {
    forall i, j :: 0 <= i < j < |entries| ==> entries[i].createdAt <= entries[j].createdAt
  }

  /** Every entry of the list was created no earlier than t. */
  ghost predicate AllFrom(t: int, entries: seq<WishlistEntry>)
  {
    forall i :: 0 <= i < |entries| ==> t <= entries[i].createdAt
  }

  /** A list holding the entries of another plus one more, all created no earlier than t, is too. */
  lemma {:induction false} AllFromGrown(t: int, r: seq<WishlistEntry>, s: seq<WishlistEntry>, e: WishlistEntry)
    requires AllFrom(t, s) && t <= e.createdAt && multiset(r) == multiset(s) + multiset{e}
    ensures AllFrom(t, r)
  {
    forall i | 0 <= i < |r| ensures t <= r[i].createdAt {
      assert r[i] in multiset(r);
      if r[i] != e {
        assert r[i] in multiset(s);
        var k :| 0 <= k < |s| && s[k] == r[i];
      }
    }
  }

  /**
   * Inserts an entry into a list ordered by creation, before the first entry created no
   * earlier, so entries with equal times keep their relative order.
   */
  function Insert(e: WishlistEntry, sorted: seq<WishlistEntry>): (r: seq<WishlistEntry>)
    requires ByCreation(sorted)
    ensures ByCreation(r) && multiset(r) == multiset(sorted) + multiset{e}
    decreases |sorted|
  {
    if sorted == [] then [e]
    else if e.createdAt <= sorted[0].createdAt then
      [e] + sorted
    else
      var tail := sorted[1..];
      assert ByCreation(tail) by {
        forall i, j | 0 <= i < j < |tail| ensures tail[i].createdAt <= tail[j].createdAt {
          assert tail[i] == sorted[i + 1] && tail[j] == sorted[j + 1];
        }
      }
      var rest := Insert(e, tail);
      assert sorted == [sorted[0]] + tail;
      assert AllFrom(sorted[0].createdAt, tail) by {
        forall i | 0 <= i < |tail| ensures sorted[0].createdAt <= tail[i].createdAt {
          assert tail[i] == sorted[i + 1];
        }
      }
      AllFromGrown(sorted[0].createdAt, rest, tail, e);
      var r := [sorted[0]] + rest;
      assert forall i :: 0 < i < |r| ==> r[i] == rest[i - 1];
      r
  }

  /** The entries ordered by creation (`ORDER BY createdAt ASC`), ties kept in insertion order. */
  function SortByCreation(entries: seq<WishlistEntry>): (r: seq<WishlistEntry>)
    ensures ByCreation(r) && multiset(r) == multiset(entries)
    decreases |entries|
  {
    if entries == [] then []
    else
      assert entries == [entries[0]] + entries[1..];
      Insert(entries[0], SortByCreation(entries[1..]))
  }

  /** chatInputShow: the user's entries in ascending creation order, or the empty-list reply. */
  function Show(wishlists: map<UserId, seq<WishlistEntry>>, user: UserId): (r: Result<seq<WishlistEntry>>)
    ensures r.Err? <==> Entries(wishlists, user) == []
    ensures r.Ok? ==> ByCreation(r.value) && multiset(r.value) == multiset(Entries(wishlists, user))
  {
    var entries := Entries(wishlists, user);
    if entries == [] then Err(Empty) else Ok(SortByCreation(entries))
  }

  /** A list already in creation order is shown as stored. */
  lemma {:induction false} SortedUnchanged(entries: seq<WishlistEntry>)
    requires ByCreation(entries)
    ensures SortByCreation(entries) == entries
    decreases |entries|
  {
    if entries != [] {
      assert ByCreation(entries[1..]) by {
        forall i, j | 0 <= i < j < |entries[1..]| ensures entries[1..][i].createdAt <= entries[1..][j].createdAt {
          assert entries[1..][i] == entries[i + 1] && entries[1..][j] == entries[j + 1];
        }
      }
      SortedUnchanged(entries[1..]);
      if |entries| > 1 {
        assert entries[0].createdAt <= entries[1..][0].createdAt;
      }
      assert [entries[0]] + entries[1..] == entries;
    }
  }

  // ---------------------------------------------------------------------------------------
  // The commands
  // ---------------------------------------------------------------------------------------

  /** chatInputAdd: the lookup may return any mapper whose username matches. */
  method AddToWishlist(w: World, user: UserId, username: string, now: int) returns (r: Result<()>)
    requires w.Valid()
    modifies w`wishlists
    ensures w.Valid()
    ensures var entries := Entries(old(w.wishlists), user);
      (|entries| >= Capacity ==> r == Err(Full) && w.wishlists == old(w.wishlists)) &&
      (|entries| < Capacity && !(exists id :: Matching(w.mappers, username, id)) ==> r == Err(MapperNotFound) && w.wishlists == old(w.wishlists)) &&
      (|entries| < Capacity && (exists id :: Matching(w.mappers, username, id)) ==>
         exists id :: Matching(w.mappers, username, id) &&
           var a := AddEntry(entries, Some(id), username, now);
           (a.Ok? ==> r == Ok(()) && w.wishlists == old(w.wishlists)[user := a.value]) &&
           (a.Err? ==> r == Err(a.message) && w.wishlists == old(w.wishlists)))
  {
    var entries := Entries(w.wishlists, user);
    if |entries| >= Capacity {
      return Err(Full);
    }
    if !exists id :: id in w.mappers && Matching(w.mappers, username, id) {
      return Err(MapperNotFound);
    }
    var id :| id in w.mappers && Matching(w.mappers, username, id);
    var a := AddEntry(entries, Some(id), username, now);
    assert WishlistValid(entries, w.mappers);
    AddKeepsValid(entries, w.mappers, Some(id), username, now);
    if a.Err? {
      return Err(a.message);
    }
    w.wishlists := w.wishlists[user := a.value];
    r := Ok(());
  }

  /** chatInputRemove: the lookup may return any mapper whose username matches. */
  method RemoveFromWishlist(w: World, user: UserId, username: string) returns (r: Result<()>)
    requires w.Valid()
    modifies w`wishlists
    ensures w.Valid()
    ensures var entries := Entries(old(w.wishlists), user);
      (!(exists id :: Matching(w.mappers, username, id)) ==> r == Err(MapperNotFound) && w.wishlists == old(w.wishlists)) &&
      ((exists id :: Matching(w.mappers, username, id)) ==>
         exists id :: Matching(w.mappers, username, id) &&
           var a := RemoveEntry(entries, Some(id), username);
           (a.Ok? ==> r == Ok(()) && w.wishlists == old(w.wishlists)[user := a.value]) &&
           (a.Err? ==> r == Err(a.message) && w.wishlists == old(w.wishlists)))
  {
    var entries := Entries(w.wishlists, user);
    if !exists id :: id in w.mappers && Matching(w.mappers, username, id) {
      return Err(MapperNotFound);
    }
    var id :| id in w.mappers && Matching(w.mappers, username, id);
    var a := RemoveEntry(entries, Some(id), username);
    assert WishlistValid(entries, w.mappers);
    RemoveKeepsValid(entries, w.mappers, Some(id), username);
    if a.Err? {
      return Err(a.message);
    }
    w.wishlists := w.wishlists[user := a.value];
    r := Ok(());
  }
}
