/**
  The LRU time cache: a set and a time-ordered list kept in step. It refines a
  plain map from each key to its last insertion, under a clock that never goes back.
*/
module TimeCache {
  type Instant = nat

  datatype Element<Key> = Element(key: Key, inserted: Instant)

  /** No key twice, and oldest first. */
  ghost predicate Ordered<Key>(l: seq<Element<Key>>) {
    && (forall i, j :: 0 <= i < j < |l| ==> l[i].key != l[j].key)
    && (forall i, j :: 0 <= i <= j < |l| ==> l[i].inserted <= l[j].inserted)
  }

  /**
    The set and the list hold the keys of `latest`, each with its last insertion, except
    that keys already expired at `clock` may be missing.
  */
  ghost predicate Refines<Key(!new)>(keys: set<Key>, list: seq<Element<Key>>, ttl: nat, latest: map<Key, Instant>, clock: Instant) {
    && Ordered(list)
    && (forall k :: k in keys <==> Holds(list, k))
    && (forall i :: 0 <= i < |list| ==> list[i].key in latest && latest[list[i].key] == list[i].inserted <= clock)
    && (forall k :: k in latest && k !in keys ==> latest[k] + ttl <= clock)
  }

  ghost predicate Holds<Key>(list: seq<Element<Key>>, k: Key) {
    exists i :: 0 <= i < |list| && list[i].key == k
  }

  function Without<Key>(list: seq<Element<Key>>, i: nat): seq<Element<Key>>
    requires i < |list|
  {
    list[..i] + list[i + 1..]
  }

  lemma HoldsWithout<Key(!new)>(list: seq<Element<Key>>, i: nat)
    requires Ordered(list) && i < |list|
    ensures Ordered(Without(list, i))
    ensures forall k :: Holds(Without(list, i), k) <==> Holds(list, k) && k != list[i].key
    ensures forall j :: 0 <= j < |list| - 1 ==> Without(list, i)[j] == list[if j < i then j else j + 1]
  {
    var rest := Without(list, i);
    forall k | Holds(list, k) && k != list[i].key
      ensures Holds(rest, k)
    {
      var j :| 0 <= j < |list| && list[j].key == k;
      assert rest[if j < i then j else j - 1].key == k;
    }
  }

  /** Taking a key out by name. */
  lemma RefinesWithout<Key(!new)>(keys: set<Key>, list: seq<Element<Key>>, ttl: nat, latest: map<Key, Instant>, clock: Instant, i: nat)
    requires Refines(keys, list, ttl, latest, clock) && i < |list|
    ensures Refines(keys - {list[i].key}, Without(list, i), ttl, latest - {list[i].key}, clock)
  {
    HoldsWithout(list, i);
  }

  /** Putting a key that is not listed at the back. */
  lemma RefinesSnoc<Key(!new)>(keys: set<Key>, list: seq<Element<Key>>, ttl: nat, latest: map<Key, Instant>, clock: Instant, e: Element<Key>)
    requires Refines(keys, list, ttl, latest, clock) && e.key !in keys && clock <= e.inserted
    ensures Refines(keys + {e.key}, list + [e], ttl, latest[e.key := e.inserted], e.inserted)
  {
    var list' := list + [e];
    forall k
      ensures Holds(list', k) <==> Holds(list, k) || k == e.key
    {
      if Holds(list, k) {
        var i :| 0 <= i < |list| && list[i].key == k;
        assert list'[i].key == k;
      }
      assert list'[|list|] == e;
    }
    assert forall i :: 0 <= i < |list| ==> Holds(list, list[i].key);
  }

  /** Dropping an expired key from the front. */
  lemma RefinesTail<Key(!new)>(keys: set<Key>, list: seq<Element<Key>>, ttl: nat, latest: map<Key, Instant>, clock: Instant)
    requires Refines(keys, list, ttl, latest, clock) && list != [] && list[0].inserted + ttl <= clock
    ensures Refines(keys - {list[0].key}, list[1..], ttl, latest, clock)
  {
    HoldsWithout(list, 0);
    assert Without(list, 0) == list[1..];
  }

  lemma RefinesLater<Key(!new)>(keys: set<Key>, list: seq<Element<Key>>, ttl: nat, latest: map<Key, Instant>, clock: Instant, now: Instant)
    requires Refines(keys, list, ttl, latest, clock) && clock <= now
    ensures Refines(keys, list, ttl, latest, now)
  {}

  /** Once nothing at the front has expired, the keys held are exactly the live ones. */
  lemma RefinesLive<Key(!new)>(keys: set<Key>, list: seq<Element<Key>>, ttl: nat, latest: map<Key, Instant>, clock: Instant, k: Key)
    requires Refines(keys, list, ttl, latest, clock) && (list == [] || list[0].inserted + ttl > clock)
    ensures k in keys <==> k in latest && latest[k] + ttl > clock
  {
    if k in keys {
      var i :| 0 <= i < |list| && list[i].key == k;
      assert list[0].inserted <= list[i].inserted;
    }
  }

  /** `removed` are the keys of an expired front of the list. */
  ghost predicate Front<Key>(was: seq<Element<Key>>, removed: seq<Key>, ttl: nat, now: Instant) {
    |removed| <= |was| && forall i :: 0 <= i < |removed| ==> removed[i] == was[i].key && was[i].inserted + ttl <= now
  }

  lemma FrontStart<Key>(was: seq<Element<Key>>, ttl: nat, now: Instant)
    ensures Front(was, [], ttl, now) && was[0..] == was
  {}

  lemma FrontNext<Key>(was: seq<Element<Key>>, removed: seq<Key>, ttl: nat, now: Instant)
    requires Front(was, removed, ttl, now) && |removed| < |was| && was[|removed|].inserted + ttl <= now
    ensures Front(was, removed + [was[|removed|].key], ttl, now)
    ensures was[|removed|..][1..] == was[|removed| + 1..]
  {}

  /** Removing an expired front until the next element is live removes exactly the expired keys, oldest first. */
  lemma FrontIsExpired<Key(!new)>(keys: set<Key>, was: seq<Element<Key>>, ttl: nat, latest: map<Key, Instant>, clock: Instant,
                                  removed: seq<Key>, now: Instant)
    requires Refines(keys, was, ttl, latest, clock) && Front(was, removed, ttl, now)
    requires |removed| == |was| || was[|removed|].inserted + ttl > now
    ensures forall k :: k in removed ==> k in latest
    ensures forall k :: k in removed <==> k in keys && latest[k] + ttl <= now
    ensures forall i, j :: 0 <= i < j < |removed| ==> removed[i] != removed[j] && latest[removed[i]] <= latest[removed[j]]
  {
    assert forall i :: 0 <= i < |was| ==> Holds(was, was[i].key);
    forall k | k in keys && latest[k] + ttl <= now
      ensures k in removed
    {
      var i :| 0 <= i < |was| && was[i].key == k;
      assert |removed| < |was| ==> was[|removed|].inserted <= was[i].inserted || i < |removed|;
      assert removed[i] == k;
    }
  }

  class LRUTimeCache<Key(==,!new)> {
    var keys: set<Key>
    var list: seq<Element<Key>>
    const ttl: nat

    // The plain map: every key ever inserted and not taken out by name, with its last insertion.
    ghost var latest: map<Key, Instant>
    // The latest clock reading.
    ghost var clock: Instant

    ghost predicate Valid()
      reads this
    {
      Refines(keys, list, ttl, latest, clock)
    }

    /** The key's last insertion is less than `ttl` ago. */
    ghost predicate Live(k: Key, now: Instant)
      reads this
    {
      k in latest && latest[k] + ttl > now
    }

    constructor (ttl: nat)
      ensures Valid() && this.ttl == ttl && latest == map[] && keys == {}
    {
      keys, list, latest, clock := {}, [], map[], 0;
      this.ttl := ttl;
    }

    method Position(key: Key) returns (position: nat)
      requires Valid() && key in keys
      ensures position < |list| && list[position].key == key
    {
      assert Holds(list, key);
      position := 0;
      while list[position].key != key
        invariant position < |list| && forall i :: 0 <= i < position ==> list[i].key != key
        decreases |list| - position
      {
        position := position + 1;
      }
    }

    /** Inserts without purging: true if the key was not stored, expired or not. */
    method RawInsert(key: Key, now: Instant) returns (isNew: bool)
      requires Valid() && clock <= now
      modifies this
      ensures Valid() && clock == now
      ensures isNew <==> key !in old(keys)
      ensures keys == old(keys) + {key}
      ensures latest == old(latest)[key := now]
    {
      isNew := key !in keys;
      if isNew {
        RefinesSnoc(keys, list, ttl, latest, clock, Element(key, now));
        list := list + [Element(key, now)];
      } else {
        var position := Position(key);
        RefinesWithout(keys, list, ttl, latest, clock, position);
        list := list[..position] + list[position + 1..];
        RefinesSnoc(keys - {key}, list, ttl, latest - {key}, clock, Element(key, now));
        list := list + [Element(key, now)];
        assert (latest - {key})[key := now] == latest[key := now];
        assert keys - {key} + {key} == keys + {key};
      }
      keys, latest, clock := keys + {key}, latest[key := now], now;
    }

    method RawRemove(key: Key) returns (existed: bool)
      requires Valid()
      modifies this
      ensures Valid() && clock == old(clock)
      ensures existed <==> key in old(keys)
      ensures keys == old(keys) - {key}
      ensures latest == old(latest) - {key}
    {
      existed := key in keys;
      if existed {
        var position := Position(key);
        RefinesWithout(keys, list, ttl, latest, clock, position);
        list := list[..position] + list[position + 1..];
        keys := keys - {key};
      } else {
        assert forall i :: 0 <= i < |list| ==> Holds(list, list[i].key);
      }
      latest := latest - {key};
    }

    method PopExpired(now: Instant) returns (removed: seq<Key>)
      requires Valid() && clock <= now
      modifies this
      ensures Valid() && clock == now && latest == old(latest)
      ensures Front(old(list), removed, ttl, now) && list == old(list)[|removed|..]
      ensures list == [] || list[0].inserted + ttl > now
    {
      removed := [];
      RefinesLater(keys, list, ttl, latest, clock, now);
      hide Refines, Front;
      clock := now;
      FrontStart(list, ttl, now);
      while list != [] && list[0].inserted + ttl <= now
        invariant |removed| <= |old(list)| && list == old(list)[|removed|..]
        invariant Front(old(list), removed, ttl, now)
        invariant Refines(keys, list, ttl, latest, now) && clock == now && latest == old(latest)
        decreases |list|
      {
        RefinesTail(keys, list, ttl, latest, now);
        FrontNext(old(list), removed, ttl, now);
        removed := removed + [list[0].key];
        keys, list := keys - {list[0].key}, list[1..];
      }
    }

    /** Removes the expired keys and returns exactly them, oldest first. */
    method RemoveExpired(now: Instant) returns (removed: seq<Key>)
      requires Valid() && clock <= now
      modifies this
      ensures Valid() && clock == now && latest == old(latest)
      ensures forall k :: k in keys <==> Live(k, now)
      ensures forall k :: k in removed ==> k in latest
      ensures forall k :: k in removed <==> k in old(keys) && latest[k] + ttl <= now
      ensures forall i, j :: 0 <= i < j < |removed| ==> removed[i] != removed[j] && latest[removed[i]] <= latest[removed[j]]
    {
      removed := PopExpired(now);
      FrontIsExpired(old(keys), old(list), ttl, latest, old(clock), removed, now);
      forall k
        ensures k in keys <==> Live(k, now)
      {
        RefinesLive(keys, list, ttl, latest, clock, k);
      }
    }

    /** Purges the expired keys. */
    method Update(now: Instant)
      requires Valid() && clock <= now
      modifies this
      ensures Valid() && clock == now && latest == old(latest)
      ensures forall k :: k in keys <==> Live(k, now)
    {
      var _ := RemoveExpired(now);
    }

    method Contains(key: Key, now: Instant) returns (r: bool)
      requires Valid() && clock <= now
      modifies this
      ensures Valid() && clock == now && latest == old(latest)
      ensures r <==> Live(key, now)
    {
      Update(now);
      r := key in keys;
    }

    /** True if the key was absent or had expired; the purge and the insertion read the clock one after the other. */
    method Insert(key: Key, now: Instant, later: Instant) returns (isNew: bool)
      requires Valid() && clock <= now <= later
      modifies this
      ensures Valid() && clock == later
      ensures isNew <==> !old(Live(key, now))
      ensures latest == old(latest)[key := later]
      ensures forall k :: k in keys <==> k == key || old(Live(k, now))
    {
      hide Refines;
      Update(now);
      isNew := RawInsert(key, later);
    }
  }
}
