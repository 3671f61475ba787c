/** The queue of subnet queries of peer discovery. Instants are nanoseconds. */
module Discovery {
  import opened Common

  const MAX_DISCOVERY_RETRY: nat := 3
  const MAX_CONCURRENT_SUBNET_QUERIES: nat := 4
  const MAX_SUBNETS_IN_QUERY: nat := 3
  /** One millisecond. */
  const DURATION_DIFFERENCE: nat := 1_000_000

  type Instant = nat
  type Enr = nat

  datatype Subnet = Attestation(id: nat) | SyncCommittee(id: nat) | DataColumn(id: nat)

  /** No `minTtl` stands for a long lived search. */
  datatype SubnetQuery = SubnetQuery(subnet: Subnet, minTtl: Option<Instant>, retries: nat) {
    predicate Expired(now: Instant) {
      minTtl.Some? && minTtl.value < now
    }
  }

  datatype QueryType = FindPeers | Subnets(queries: seq<SubnetQuery>)

  // ----- The queue -----

  predicate Before(a: Option<Instant>, b: Option<Instant>) {
    match (a, b)
    case (None, Some(_)) => true
    case (Some(x), Some(y)) => x < y
    case _ => false
  }

  function LaterTtl(a: Option<Instant>, b: Option<Instant>): (c: Option<Instant>)
    ensures (c == a || c == b) && !Before(c, a) && !Before(c, b)
  {
    if Before(a, b) then b else a
  }

  /** At most one entry per subnet, and no more retries than allowed. */
  ghost predicate QueueOk(queue: seq<SubnetQuery>) {
    && (forall i, j :: 0 <= i < j < |queue| ==> queue[i].subnet != queue[j].subnet)
    && (forall i :: 0 <= i < |queue| ==> queue[i].retries <= MAX_DISCOVERY_RETRY)
  }

  /** The entry of a subnet. */
  function EntryOf(queue: seq<SubnetQuery>, subnet: Subnet): Option<SubnetQuery> {
    if queue == [] then None
    else if queue[|queue| - 1].subnet == subnet then Some(queue[|queue| - 1])
    else EntryOf(queue[..|queue| - 1], subnet)
  }

  /** The entry of a subnet for which a query is added: the later time and the new retries. */
  function Merged(entry: Option<SubnetQuery>, q: SubnetQuery): SubnetQuery {
    if entry.Some? then q.(minTtl := LaterTtl(entry.value.minTtl, q.minTtl)) else q
  }

  lemma {:induction false} EntryIsUnique(queue: seq<SubnetQuery>, i: nat)
    requires QueueOk(queue) && i < |queue|
    ensures EntryOf(queue, queue[i].subnet) == Some(queue[i])
  {
    if i < |queue| - 1 {
      EntryIsUnique(queue[..|queue| - 1], i);
    }
  }

  lemma {:induction false} EntryIsThere(queue: seq<SubnetQuery>, subnet: Subnet)
    ensures EntryOf(queue, subnet).Some? <==> exists i :: 0 <= i < |queue| && queue[i].subnet == subnet
    ensures EntryOf(queue, subnet).Some? ==> EntryOf(queue, subnet).value in queue && EntryOf(queue, subnet).value.subnet == subnet
  {
    if queue != [] && queue[|queue| - 1].subnet != subnet {
      EntryIsThere(queue[..|queue| - 1], subnet);
    }
  }

  lemma {:induction false} EntryReplaced(queue: seq<SubnetQuery>, i: nat, q: SubnetQuery, subnet: Subnet)
    requires QueueOk(queue) && i < |queue| && q.subnet == queue[i].subnet
    ensures EntryOf(queue[i := q], subnet) == if subnet == q.subnet then Some(q) else EntryOf(queue, subnet)
  {
    var init := queue[..|queue| - 1];
    if i < |queue| - 1 {
      EntryReplaced(init, i, q, subnet);
      assert queue[i := q][..|queue| - 1] == init[i := q];
    } else {
      assert queue[i := q][..|queue| - 1] == init;
    }
  }

  lemma EntryAppended(queue: seq<SubnetQuery>, q: SubnetQuery, subnet: Subnet)
    ensures EntryOf(queue + [q], subnet) == if subnet == q.subnet then Some(q) else EntryOf(queue, subnet)
  {
    assert (queue + [q])[..|queue|] == queue;
  }

  /** The queries that have not expired, in order. */
  function Fresh(queue: seq<SubnetQuery>, now: Instant): seq<SubnetQuery> {
    if queue == [] then []
    else Fresh(queue[..|queue| - 1], now) + if queue[|queue| - 1].Expired(now) then [] else [queue[|queue| - 1]]
  }

  lemma {:induction false} FreshOk(queue: seq<SubnetQuery>, now: Instant)
    requires QueueOk(queue)
    ensures QueueOk(Fresh(queue, now))
    ensures forall q :: q in Fresh(queue, now) <==> q in queue && (q.minTtl.None? || now <= q.minTtl.value)
  {
    if queue != [] {
      var init, last := queue[..|queue| - 1], queue[|queue| - 1];
      FreshOk(init, now);
      assert queue == init + [last];
      assert forall q :: q in Fresh(init, now) ==> q.subnet != last.subnet;
    }
  }

  // ----- Groups -----

  function Flatten(groups: seq<seq<SubnetQuery>>): seq<SubnetQuery> {
    if groups == [] then [] else Flatten(groups[..|groups| - 1]) + groups[|groups| - 1]
  }

  lemma FlattenSnoc(groups: seq<seq<SubnetQuery>>, g: seq<SubnetQuery>)
    ensures Flatten(groups + [g]) == Flatten(groups) + g
  {
    assert (groups + [g])[..|groups|] == groups;
  }

  /** The queries of a group whose subnets still lack peers. */
  function Needed(group: seq<SubnetQuery>, enough: Subnet -> bool): seq<SubnetQuery> {
    if group == [] then []
    else Needed(group[..|group| - 1], enough) + if enough(group[|group| - 1].subnet) then [] else [group[|group| - 1]]
  }

  /** The queries that the groups start. */
  function Started(groups: seq<seq<SubnetQuery>>, enough: Subnet -> bool): seq<QueryType> {
    if groups == [] then []
    else
      var last := Needed(groups[|groups| - 1], enough);
      Started(groups[..|groups| - 1], enough) + if last == [] then [] else [QueryType.Subnets(last)]
  }

  lemma StartedSnoc(groups: seq<seq<SubnetQuery>>, g: seq<SubnetQuery>, enough: Subnet -> bool)
    ensures Started(groups + [g], enough) ==
            Started(groups, enough) + if Needed(g, enough) == [] then [] else [QueryType.Subnets(Needed(g, enough))]
  {
    assert (groups + [g])[..|groups|] == groups;
  }

  ghost predicate GroupsOk(groups: seq<seq<SubnetQuery>>) {
    forall i :: 0 <= i < |groups| ==> 1 <= |groups[i]| <= MAX_SUBNETS_IN_QUERY
  }

  lemma {:induction false} NeededOk(group: seq<SubnetQuery>, enough: Subnet -> bool)
    requires QueueOk(group)
    ensures QueueOk(Needed(group, enough))
    ensures forall q :: q in Needed(group, enough) <==> q in group && !enough(q.subnet)
  {
    if group != [] {
      var init, last := group[..|group| - 1], group[|group| - 1];
      NeededOk(init, enough);
      assert group == init + [last];
      assert forall q :: q in Needed(init, enough) ==> q.subnet != last.subnet;
    }
  }

  // ----- Active queries -----

  function Finds(active: seq<QueryType>): nat {
    multiset(active)[FindPeers]
  }

  function SubnetQueries(active: seq<QueryType>): nat {
    |active| - Finds(active)
  }

  /** How many subnet queries may be active: one too many once a search for peers was marked as active but never started. */
  function Room(stale: bool): nat {
    MAX_CONCURRENT_SUBNET_QUERIES + if stale then 1 else 0
  }

  /** `stale`: the flag of the search for peers is set, but there is no such search. */
  ghost predicate ActiveOk(active: seq<QueryType>, findPeerActive: bool, stale: bool) {
    && |active| <= MAX_CONCURRENT_SUBNET_QUERIES + (if findPeerActive then 1 else 0)
    && Finds(active) == (if findPeerActive && !stale then 1 else 0)
    && (stale ==> findPeerActive)
    && (forall i :: 0 <= i < |active| && active[i].Subnets? ==> QueueOk(active[i].queries))
  }

  /** In terms of subnet queries, the capacity is four if and only if the flag is right, and five if and only if it is stale. */
  lemma CapacityIsRoom(active: seq<QueryType>, findPeerActive: bool, stale: bool)
    requires ActiveOk(active, findPeerActive, stale)
    ensures SubnetQueries(active) <= Room(stale)
    ensures SubnetQueries(active) == Room(stale) <==> |active| >= MAX_CONCURRENT_SUBNET_QUERIES + if findPeerActive then 1 else 0
  {}

  lemma StartedOk(active: seq<QueryType>, findPeerActive: bool, stale: bool, queries: seq<SubnetQuery>)
    requires ActiveOk(active, findPeerActive, stale) && QueueOk(queries)
    requires |active| < MAX_CONCURRENT_SUBNET_QUERIES + if findPeerActive then 1 else 0
    ensures ActiveOk(active + [QueryType.Subnets(queries)], findPeerActive, stale)
  {
    hide QueueOk;
  }

  lemma FindStartedOk(active: seq<QueryType>, stale: bool)
    requires ActiveOk(active, false, stale)
    ensures !stale && ActiveOk(active + [FindPeers], true, false) && ActiveOk(active, true, true)
  {
    hide QueueOk;
  }

  lemma FinishedOk(active: seq<QueryType>, findPeerActive: bool, stale: bool, i: nat)
    requires ActiveOk(active, findPeerActive, stale) && i < |active|
    ensures active[i].FindPeers? ==> findPeerActive && !stale
    ensures ActiveOk(active[..i] + active[i + 1..], findPeerActive && active[i].Subnets?, stale)
  {
    hide QueueOk;
    assert active == active[..i] + [active[i]] + active[i + 1..];
    assert active[i] in multiset(active);
  }

  // ----- Results -----

  /** What is kept for a record already mapped to `other` when a query with `ttl` matches it. */
  function Combine(other: Option<Option<Instant>>, ttl: Option<Instant>): Option<Instant> {
    match other
    case None => ttl
    case Some(None) => ttl
    case Some(Some(o)) => if ttl.Some? && ttl.value > o + DURATION_DIFFERENCE then ttl else Some(o)
  }

  function Matching(queries: seq<SubnetQuery>, matches: (Subnet, Enr) -> bool, e: Enr): seq<Option<Instant>> {
    if queries == [] then []
    else
      var q := queries[|queries| - 1];
      Matching(queries[..|queries| - 1], matches, e) + if matches(q.subnet, e) then [q.minTtl] else []
  }

  function Combined(ttls: seq<Option<Instant>>): Option<Option<Instant>> {
    if ttls == [] then None else Some(Combine(Combined(ttls[..|ttls| - 1]), ttls[|ttls| - 1]))
  }

  /** A record is mapped to no time if no matching query has one, and else to one of theirs, none of which is more than 1 ms later. */
  ghost predicate Furthest(ttls: seq<Option<Instant>>, r: Option<Instant>) {
    && (r.None? <==> forall i :: 0 <= i < |ttls| ==> ttls[i].None?)
    && (r.Some? ==> r in ttls)
    && (forall i :: 0 <= i < |ttls| && ttls[i].Some? ==> r.Some? && ttls[i].value <= r.value + 1_000_000)
  }

  lemma {:induction false} CombinedIsFurthest(ttls: seq<Option<Instant>>)
    requires ttls != []
    ensures Furthest(ttls, Combined(ttls).value)
  {
    var init, last := ttls[..|ttls| - 1], ttls[|ttls| - 1];
    assert ttls == init + [last];
    if init != [] {
      CombinedIsFurthest(init);
      assert forall i :: 0 <= i < |ttls| ==> ttls[i] == if i < |init| then init[i] else last;
    }
  }

  lemma CombineTwice(other: Option<Option<Instant>>, ttl: Option<Instant>)
    ensures Combine(Some(Combine(other, ttl)), ttl) == Combine(other, ttl)
  {}

  type Mapping = map<Enr, Option<Instant>>

  function Lookup(m: Mapping, e: Enr): Option<Option<Instant>> {
    if e in m then Some(m[e]) else None
  }

  /** The mapping is the combination of the matching queries, for each record found. */
  ghost predicate Maps(m: Mapping, found: seq<Enr>, queries: seq<SubnetQuery>, matches: (Subnet, Enr) -> bool) {
    forall e :: Lookup(m, e) == if e in found then Combined(Matching(queries, matches, e)) else None
  }

  /** Adds one query to the mapping. */
  method MapQuery(m0: Mapping, found: seq<Enr>, ghost before: seq<SubnetQuery>, query: SubnetQuery, matches: (Subnet, Enr) -> bool) returns (m: Mapping)
    requires Maps(m0, found, before, matches)
    ensures Maps(m, found, before + [query], matches)
  {
    hide Matching, Combined, Combine;
    m := m0;
    for n := 0 to |found|
      invariant forall e :: Lookup(m, e) ==
                  if e in found[..n] && matches(query.subnet, e) then Some(Combine(Lookup(m0, e), query.minTtl)) else Lookup(m0, e)
    {
      var e := found[n];
      assert found[..n + 1] == found[..n] + [e];
      if matches(query.subnet, e) {
        CombineTwice(Lookup(m0, e), query.minTtl);
        m := m[e := Combine(Lookup(m, e), query.minTtl)];
      }
    }
    assert found[..|found|] == found;
    forall e
      ensures Lookup(m, e) == if e in found then Combined(Matching(before + [query], matches, e)) else None
    {
      MatchingSnoc(before, query, matches, e);
    }
  }

  lemma MatchingSnoc(queries: seq<SubnetQuery>, q: SubnetQuery, matches: (Subnet, Enr) -> bool, e: Enr)
    ensures Combined(Matching(queries + [q], matches, e)) ==
            if matches(q.subnet, e) then Some(Combine(Combined(Matching(queries, matches, e)), q.minTtl)) else Combined(Matching(queries, matches, e))
  {
    hide Combine;
    assert (queries + [q])[..|queries|] == queries;
    var ttls := Matching(queries, matches, e);
    assert (ttls + [q.minTtl])[..|ttls|] == ttls && ttls + [] == ttls;
  }

  // ----- The service -----

  class Service {
    var queuedQueries: seq<SubnetQuery>
    var activeQueries: seq<QueryType>
    var findPeerActive: bool

    // History: a search for peers was asked for while our own record was not valid.
    ghost var stale: bool

    ghost predicate Valid()
      reads this
    {
      QueueOk(queuedQueries) && ActiveOk(activeQueries, findPeerActive, stale)
    }

    constructor ()
      ensures Valid() && queuedQueries == [] && activeQueries == [] && !findPeerActive && !stale
    {
      queuedQueries, activeQueries, findPeerActive, stale := [], [], false, false;
    }

    /** Starts a search for peers unless one is active. The flag is set even if our record is not valid and nothing starts. */
    method DiscoverPeers(started: bool, enrValid: bool)
      requires Valid()
      modifies this`activeQueries, this`findPeerActive, this`stale
      ensures Valid() && findPeerActive == (old(findPeerActive) || started)
      ensures activeQueries == old(activeQueries) + if started && !old(findPeerActive) && enrValid then [FindPeers] else []
      ensures stale == (old(stale) || (started && !old(findPeerActive) && !enrValid))
    {
      hide ActiveOk, QueueOk;
      if !started || findPeerActive {
        return;
      }
      FindStartedOk(activeQueries, stale);
      findPeerActive := true;
      stale := !enrValid;
      if enrValid {
        activeQueries := activeQueries + [FindPeers];
      }
    }

    /** Queues a query, or updates the one of its subnet: the later time and the given retries are kept. */
    method AddSubnetQuery(subnet: Subnet, minTtl: Option<Instant>, retries: nat)
      requires QueueOk(queuedQueries)
      modifies this`queuedQueries
      ensures QueueOk(queuedQueries)
      ensures retries > MAX_DISCOVERY_RETRY ==> queuedQueries == old(queuedQueries)
      ensures retries <= MAX_DISCOVERY_RETRY && (forall i :: 0 <= i < |old(queuedQueries)| ==> old(queuedQueries)[i].subnet != subnet) ==>
                queuedQueries == old(queuedQueries) + [SubnetQuery(subnet, minTtl, retries)]
      ensures forall i :: retries <= MAX_DISCOVERY_RETRY && 0 <= i < |old(queuedQueries)| && old(queuedQueries)[i].subnet == subnet ==>
                queuedQueries == old(queuedQueries)[i := SubnetQuery(subnet, LaterTtl(old(queuedQueries)[i].minTtl, minTtl), retries)]
      ensures forall s :: EntryOf(queuedQueries, s) == if s == subnet && retries <= MAX_DISCOVERY_RETRY
                                                       then Some(Merged(EntryOf(old(queuedQueries), s), SubnetQuery(subnet, minTtl, retries)))
                                                       else EntryOf(old(queuedQueries), s)
    {
      hide EntryOf;
      if retries > MAX_DISCOVERY_RETRY {
        return;
      }
      for i := 0 to |queuedQueries|
        invariant queuedQueries == old(queuedQueries)
        invariant forall j :: 0 <= j < i ==> queuedQueries[j].subnet != subnet
      {
        if queuedQueries[i].subnet == subnet {
          var q := queuedQueries[i];
          if Before(q.minTtl, minTtl) {
            q := q.(minTtl := minTtl);
          }
          q := q.(retries := retries);
          EntryIsUnique(queuedQueries, i);
          forall s ensures EntryOf(queuedQueries[i := q], s) == if s == subnet then Some(q) else EntryOf(queuedQueries, s) {
            EntryReplaced(queuedQueries, i, q, s);
          }
          queuedQueries := queuedQueries[i := q];
          return;
        }
      }
      EntryIsThere(queuedQueries, subnet);
      forall s ensures EntryOf(queuedQueries + [SubnetQuery(subnet, minTtl, retries)], s) ==
                       if s == subnet then Some(SubnetQuery(subnet, minTtl, retries)) else EntryOf(queuedQueries, s) {
        EntryAppended(queuedQueries, SubnetQuery(subnet, minTtl, retries), s);
      }
      queuedQueries := queuedQueries + [SubnetQuery(subnet, minTtl, retries)];
    }

    predicate AtCapacity()
      reads this
    {
      |activeQueries| >= MAX_CONCURRENT_SUBNET_QUERIES + if findPeerActive then 1 else 0
    }

    /** Starts a query for the subnets of a group that still lack peers. Without a valid record of our own none is started. */
    method StartSubnetQuery(group: seq<SubnetQuery>, enough: Subnet -> bool, enrValid: bool)
      modifies this`activeQueries
      ensures activeQueries == old(activeQueries) +
                if Needed(group, enough) == [] || !enrValid then [] else [QueryType.Subnets(Needed(group, enough))]
    {
      var filtered := [];
      for i := 0 to |group|
        invariant filtered == Needed(group[..i], enough) && activeQueries == old(activeQueries)
      {
        assert group[..i + 1][..i] == group[..i];
        if !enough(group[i].subnet) {
          filtered := filtered + [group[i]];
        }
      }
      assert group[..|group|] == group;
      if filtered != [] && enrValid {
        activeQueries := activeQueries + [QueryType.Subnets(filtered)];
      }
    }

    /** Starts the query of one more group, within the capacity. */
    method StartGroup(group: seq<SubnetQuery>, enough: Subnet -> bool, enrValid: bool, ghost first: seq<QueryType>, ghost groups0: seq<seq<SubnetQuery>>)
      returns (ghost groups: seq<seq<SubnetQuery>>)
      requires ActiveOk(activeQueries, findPeerActive, stale) && !AtCapacity() && QueueOk(group)
      requires 1 <= |group| <= MAX_SUBNETS_IN_QUERY && activeQueries == first + if enrValid then Started(groups0, enough) else []
      modifies this`activeQueries
      ensures ActiveOk(activeQueries, findPeerActive, stale) && groups == groups0 + [group]
      ensures activeQueries == first + if enrValid then Started(groups, enough) else []
    {
      hide QueueOk, ActiveOk, Needed, Started;
      NeededOk(group, enough);
      StartedOk(activeQueries, findPeerActive, stale, Needed(group, enough));
      ghost var before := activeQueries;
      StartSubnetQuery(group, enough, enrValid);
      assert before + [] == before;
      StartedSnoc(groups0, group, enough);
      groups := groups0 + [group];
    }

    method Sanitize(now: Instant)
      requires QueueOk(queuedQueries)
      modifies this`queuedQueries
      ensures QueueOk(queuedQueries) && queuedQueries == Fresh(old(queuedQueries), now)
    {
      var kept := [];
      for i := 0 to |queuedQueries|
        invariant kept == Fresh(queuedQueries[..i], now) && queuedQueries == old(queuedQueries)
      {
        assert queuedQueries[..i + 1][..i] == queuedQueries[..i];
        if !queuedQueries[i].Expired(now) {
          kept := kept + [queuedQueries[i]];
        }
      }
      assert queuedQueries[..|queuedQueries|] == queuedQueries;
      FreshOk(queuedQueries, now);
      queuedQueries := kept;
    }

    /**
      Takes queries from the queue in groups of at most three while there is capacity. Every query that has not
      expired is either still queued or in a group: none is lost between groups.
    */
    method ProcessQueue(now: Instant, enough: Subnet -> bool, enrValid: bool) returns (processed: bool, ghost groups: seq<seq<SubnetQuery>>)
      requires Valid()
      modifies this`queuedQueries, this`activeQueries
      ensures Valid() && GroupsOk(groups) && (processed <==> groups != [])
      ensures Flatten(groups) + queuedQueries == Fresh(old(queuedQueries), now)
      ensures activeQueries == old(activeQueries) + if enrValid then Started(groups, enough) else []
      ensures SubnetQueries(activeQueries) <= Room(stale)
      ensures queuedQueries != [] ==> SubnetQueries(activeQueries) == Room(stale)
    {
      hide Fresh, Flatten, Started, QueueOk, GroupsOk, ActiveOk, SubnetQueries, Grouped;
      Sanitize(now);
      ghost var current := queuedQueries;
      var pending: seq<SubnetQuery> := [];
      processed, groups := false, [];
      NoGroups(enough, current);
      while !AtCapacity() && queuedQueries != []
        invariant ActiveOk(activeQueries, findPeerActive, stale) && Grouped(groups, pending, queuedQueries, current)
        invariant (processed <==> groups != []) && (pending != [] ==> !AtCapacity() && queuedQueries != [])
        invariant |pending| < MAX_SUBNETS_IN_QUERY && activeQueries == old(activeQueries) + if enrValid then Started(groups, enough) else []
        decreases |queuedQueries|
      {
        GroupedTake(groups, pending, queuedQueries, current);
        pending := pending + [queuedQueries[0]];
        queuedQueries := queuedQueries[1..];
        if |pending| == MAX_SUBNETS_IN_QUERY || queuedQueries == [] {
          GroupedStart(groups, pending, queuedQueries, current);
          groups := StartGroup(pending, enough, enrValid, old(activeQueries), groups);
          pending := [];
          processed := true;
        }
      }
      GroupedEnd(groups, queuedQueries, current);
      CapacityIsRoom(activeQueries, findPeerActive, stale);
    }

    /** A subnet query is finished: its searches are queued again, and each record found is mapped to the furthest time asked for. */
    method CompleteSubnetQuery(i: nat, found: seq<Enr>, matches: (Subnet, Enr) -> bool) returns (mapped: Mapping)
      requires Valid() && i < |activeQueries| && activeQueries[i].Subnets?
      modifies this`queuedQueries, this`activeQueries
      ensures Valid() && activeQueries == old(activeQueries)[..i] + old(activeQueries)[i + 1..]
      ensures Maps(mapped, found, old(activeQueries)[i].queries, matches)
      ensures Requeued(old(queuedQueries), old(activeQueries)[i].queries, queuedQueries)
    {
      FinishedOk(activeQueries, findPeerActive, stale, i);
      var queries := activeQueries[i].queries;
      assert QueueOk(queries);
      hide Maps, EntryOf, QueueOk, ActiveOk;
      activeQueries := activeQueries[..i] + activeQueries[i + 1..];
      mapped := map[];
      NothingMapped(found, matches);
      ghost var rest := activeQueries;
      for n := 0 to |queries|
        invariant QueueOk(queuedQueries) && Maps(mapped, found, queries[..n], matches) && activeQueries == rest
        invariant Requeued(old(queuedQueries), queries[..n], queuedQueries)
      {
        ghost var before := queuedQueries;
        AddSubnetQuery(queries[n].subnet, queries[n].minTtl, queries[n].retries + 1);
        mapped := MapQuery(mapped, found, queries[..n], queries[n], matches);
        RequeuedNext(old(queuedQueries), queries, n, before, queuedQueries);
        assert queries[..n + 1] == queries[..n] + [queries[n]];
      }
      assert queries[..|queries|] == queries;
    }

    /** A query is finished. A failed subnet query is not queued again. */
    method ProcessCompleted(i: nat, result: Option<seq<Enr>>, matches: (Subnet, Enr) -> bool) returns (r: Option<Mapping>)
      requires Valid() && i < |activeQueries|
      modifies this`queuedQueries, this`activeQueries, this`findPeerActive
      ensures Valid() && activeQueries == old(activeQueries)[..i] + old(activeQueries)[i + 1..]
      ensures findPeerActive == (old(findPeerActive) && old(activeQueries)[i].Subnets?)
      ensures result.None? ==> r.None? && queuedQueries == old(queuedQueries)
      ensures result.Some? && old(activeQueries)[i].Subnets? ==>
                && Requeued(old(queuedQueries), old(activeQueries)[i].queries, queuedQueries)
                && Maps(if r.Some? then r.value else map[], result.value, old(activeQueries)[i].queries, matches)
      ensures result.Some? && old(activeQueries)[i].FindPeers? ==>
                && queuedQueries == old(queuedQueries) && (r.None? <==> result.value == [])
                && (r.Some? ==> forall e :: (e in r.value <==> e in result.value) && (e in r.value ==> r.value[e] == None))
    {
      hide Maps, Requeued, QueueOk, ActiveOk;
      FinishedOk(activeQueries, findPeerActive, stale, i);
      match activeQueries[i]
      case FindPeers =>
        findPeerActive := false;
        activeQueries := activeQueries[..i] + activeQueries[i + 1..];
        if result.None? || result.value == [] {
          return None;
        }
        return Some(map e | e in result.value :: None);
      case Subnets(queries) =>
        if result.None? {
          activeQueries := activeQueries[..i] + activeQueries[i + 1..];
          return None;
        }
        var mapped := CompleteSubnetQuery(i, result.value, matches);
        r := if mapped == map[] then None else Some(mapped);
    }

    ghost function Now(): Snapshot
      reads this
    {
      Snapshot(findPeerActive, activeQueries, queuedQueries)
    }

    /** One operation. */
    method Perform(op: Operation)
      requires Valid()
      modifies this
      ensures Valid() && Step(old(Now()), op, Now()) && stale == (old(stale) || Misses(op, old(findPeerActive)))
    {
      hide ActiveOk, QueueOk, EntryOf, Requeued, Fresh, Flatten, GroupsOk, Started, SubnetQueries;
      match op
      case Discover(started, enrValid) =>
        DiscoverPeers(started, enrValid);
      case Add(subnet, minTtl, retries) =>
        AddSubnetQuery(subnet, minTtl, retries);
      case Process(now, enough, enrValid) =>
        ghost var before := Now();
        var _, groups := ProcessQueue(now, enough, enrValid);
        CapacityIsRoom(activeQueries, findPeerActive, stale);
        assert StartedFrom(before, now, enough, enrValid, Now(), groups);
      case Complete(i, result, matches) =>
        if i < |activeQueries| {
          FinishedOk(activeQueries, findPeerActive, stale, i);
          var _ := ProcessCompleted(i, result, matches);
        }
    }
  }

  // ----- Whole runs -----

  datatype Operation =
    | Discover(started: bool, enrValid: bool)
    | Add(subnet: Subnet, minTtl: Option<Instant>, retries: nat)
    | Process(now: Instant, enough: Subnet -> bool, enrValid: bool)
    | Complete(i: nat, result: Option<seq<Enr>>, matches: (Subnet, Enr) -> bool)

  /** A search for peers is asked for, and does not start because our record is not valid. */
  predicate Misses(op: Operation, findPeerActive: bool) {
    op.Discover? && op.started && !op.enrValid && !findPeerActive
  }

  lemma FlagOfStale(active: seq<QueryType>, findPeerActive: bool, stale: bool)
    requires ActiveOk(active, findPeerActive, stale)
    ensures stale ==> findPeerActive
  {}

  /** What is observed of a service in one state. */
  datatype Snapshot = Snapshot(findPeerActive: bool, active: seq<QueryType>, queued: seq<SubnetQuery>)

  /** A query joins the queue, or updates the one of its subnet in place. */
  ghost predicate AddedTo(queue: seq<SubnetQuery>, q: SubnetQuery, queue': seq<SubnetQuery>) {
    if q.retries > MAX_DISCOVERY_RETRY then queue' == queue
    else if forall i :: 0 <= i < |queue| ==> queue[i].subnet != q.subnet then queue' == queue + [q]
    else exists i :: 0 <= i < |queue| && queue[i].subnet == q.subnet && queue' == queue[i := q.(minTtl := LaterTtl(queue[i].minTtl, q.minTtl))]
  }

  /** These groups left the queue, and a query of each that is still needed was started. */
  ghost predicate StartedFrom(s: Snapshot, now: Instant, enough: Subnet -> bool, enrValid: bool, s': Snapshot, groups: seq<seq<SubnetQuery>>) {
    && GroupsOk(groups) && Flatten(groups) + s'.queued == Fresh(s.queued, now)
    && s'.active == s.active + (if enrValid then Started(groups, enough) else [])
    && s'.findPeerActive == s.findPeerActive
    && (s'.queued != [] ==> |s'.active| >= MAX_CONCURRENT_SUBNET_QUERIES + if s'.findPeerActive then 1 else 0)
  }

  /** One operation, from one state to the next. A query that is not active cannot finish. */
  ghost predicate Step(s: Snapshot, op: Operation, s': Snapshot) {
    match op
    case Discover(started, enrValid) =>
      s' == s.(findPeerActive := s.findPeerActive || started,
               active := s.active + if started && !s.findPeerActive && enrValid then [FindPeers] else [])
    case Add(subnet, minTtl, retries) => s' == s.(queued := s'.queued) && AddedTo(s.queued, SubnetQuery(subnet, minTtl, retries), s'.queued)
    case Process(now, enough, enrValid) => exists groups :: StartedFrom(s, now, enough, enrValid, s', groups)
    case Complete(i, result, _) =>
      if i >= |s.active| then s' == s
      else
        && s'.active == s.active[..i] + s.active[i + 1..] && s'.findPeerActive == (s.findPeerActive && s.active[i].Subnets?)
        && if result.Some? && s.active[i].Subnets? then Requeued(s.queued, s.active[i].queries, s'.queued) else s'.queued == s.queued
  }

  /** The states of a run from a new service. */
  ghost predicate Run(ops: seq<Operation>, states: seq<Snapshot>) {
    && |states| == |ops| + 1 && states[0] == Snapshot(false, [], [])
    && forall i :: 0 <= i < |ops| ==> Step(states[i], ops[i], states[i + 1])
  }

  lemma RunNext(ops: seq<Operation>, states: seq<Snapshot>, op: Operation, s: Snapshot)
    requires Run(ops, states) && Step(states[|ops|], op, s)
    ensures Run(ops + [op], states + [s])
  {
    hide Step;
    var ops', states' := ops + [op], states + [s];
    forall i | 0 <= i < |ops'| ensures Step(states'[i], ops'[i], states'[i + 1]) {
      if i < |ops| { assert Step(states[i], ops[i], states[i + 1]); }
    }
  }

  /** Up to each state the limit is four if no search for peers has failed to start so far, and five after the first that has. */
  ghost predicate Bounded(ops: seq<Operation>, states: seq<Snapshot>) {
    && |states| == |ops| + 1
    && (forall n :: 0 <= n <= |ops| ==> SubnetQueries(states[n].active) <= Room(MissedBy(ops, states, n)))
    && (forall n, m :: 0 <= n <= m <= |ops| && MissedBy(ops, states, n) ==> states[m].findPeerActive)
  }

  ghost predicate MissedBy(ops: seq<Operation>, states: seq<Snapshot>, n: nat)
    requires n <= |ops| && n < |states|
  {
    exists i :: 0 <= i < n && Misses(ops[i], states[i].findPeerActive)
  }

  lemma MissedLater(ops: seq<Operation>, states: seq<Snapshot>, op: Operation, s: Snapshot, n: nat)
    requires |states| == |ops| + 1 && n <= |ops|
    ensures MissedBy(ops + [op], states + [s], n) == MissedBy(ops, states, n)
    ensures MissedBy(ops + [op], states + [s], |ops| + 1) == (MissedBy(ops, states, |ops|) || Misses(op, states[|ops|].findPeerActive))
  {
    hide Misses;
    assert forall i :: 0 <= i < |ops| ==> (ops + [op])[i] == ops[i] && (states + [s])[i] == states[i];
    if MissedBy(ops, states, |ops|) {
      var i :| 0 <= i < |ops| && Misses(ops[i], states[i].findPeerActive);
      assert Misses((ops + [op])[i], (states + [s])[i].findPeerActive);
    }
    if Misses(op, states[|ops|].findPeerActive) {
      assert Misses((ops + [op])[|ops|], (states + [s])[|ops|].findPeerActive);
    }
    if MissedBy(ops, states, n) {
      var i :| 0 <= i < n && Misses(ops[i], states[i].findPeerActive);
      assert Misses((ops + [op])[i], (states + [s])[i].findPeerActive);
    }
  }

  lemma BoundedNext(ops: seq<Operation>, states: seq<Snapshot>, op: Operation, s: Snapshot)
    requires Bounded(ops, states)
    requires var missed := MissedBy(ops, states, |ops|) || Misses(op, states[|ops|].findPeerActive);
             SubnetQueries(s.active) <= Room(missed) && (missed ==> s.findPeerActive)
    ensures Bounded(ops + [op], states + [s])
    ensures MissedBy(ops + [op], states + [s], |ops| + 1) == (MissedBy(ops, states, |ops|) || Misses(op, states[|ops|].findPeerActive))
  {
    hide Misses, MissedBy, SubnetQueries;
    var ops', states' := ops + [op], states + [s];
    MissedLater(ops, states, op, s, |ops|);
    forall n | 0 <= n <= |ops'|
      ensures SubnetQueries(states'[n].active) <= Room(MissedBy(ops', states', n))
    {
      if n <= |ops| { MissedLater(ops, states, op, s, n); }
    }
    forall n, m | 0 <= n <= m <= |ops'| && MissedBy(ops', states', n)
      ensures states'[m].findPeerActive
    {
      if n <= |ops| {
        MissedLater(ops, states, op, s, n);
        MissedStays(ops, states, n);
      }
    }
  }

  lemma MissedStays(ops: seq<Operation>, states: seq<Snapshot>, n: nat)
    requires |states| == |ops| + 1 && n <= |ops| && MissedBy(ops, states, n)
    ensures MissedBy(ops, states, |ops|)
  {}

  /**
    Over every run from a new service, in every state: at most four subnet queries are active, until a search for peers
    fails to start. From then on the flag is never cleared, and at most five are.
  */
  method Execute(ops: seq<Operation>) returns (service: Service, ghost states: seq<Snapshot>)
    ensures service.Valid() && Run(ops, states) && states[|ops|] == service.Now() && Bounded(ops, states)
  {
    hide ActiveOk, QueueOk, MissedBy, Misses, Bounded, SubnetQueries, Run, Step;
    service := new Service();
    states := [Snapshot(false, [], [])];
    BoundedAtFirst();
    for n := 0 to |ops|
      invariant service.Valid() && |states| == n + 1 && states[n] == service.Now() && Run(ops[..n], states)
      invariant Bounded(ops[..n], states) && service.stale == MissedBy(ops[..n], states, n)
    {
      service.Perform(ops[n]);
      ghost var s := service.Now();
      RunNext(ops[..n], states, ops[n], s);
      CapacityIsRoom(s.active, s.findPeerActive, service.stale);
      FlagOfStale(s.active, s.findPeerActive, service.stale);
      BoundedNext(ops[..n], states, ops[n], s);
      assert ops[..n + 1] == ops[..n] + [ops[n]];
      states := states + [s];
    }
    assert ops[..|ops|] == ops;
    SizeOfBounded(ops, states);
  }

  lemma SizeOfBounded(ops: seq<Operation>, states: seq<Snapshot>)
    requires Bounded(ops, states)
    ensures |states| == |ops| + 1
  {}

  lemma BoundedAtFirst()
    ensures Bounded([], [Snapshot(false, [], [])]) && !MissedBy([], [Snapshot(false, [], [])], 0) && Run([], [Snapshot(false, [], [])])
  {}

  /** So with a valid record, or without a search for peers, at most four are active in every state. */
  lemma FourWithAValidRecord(ops: seq<Operation>, states: seq<Snapshot>, n: nat)
    requires Bounded(ops, states) && n <= |ops|
    requires forall i :: 0 <= i < n && ops[i].Discover? && ops[i].started ==> ops[i].enrValid
    ensures SubnetQueries(states[n].active) <= 4
  {
    hide SubnetQueries;
    assert !MissedBy(ops, states, n);
  }

  /** The entry of a subnet after the searches of a finished query: one more retry and the later time, within the limit of retries. */
  function Again(entry: Option<SubnetQuery>, queries: seq<SubnetQuery>, s: Subnet): Option<SubnetQuery> {
    var q := EntryOf(queries, s);
    if q.Some? && q.value.retries < MAX_DISCOVERY_RETRY then Some(Merged(entry, q.value.(retries := q.value.retries + 1))) else entry
  }

  ghost predicate Requeued(before: seq<SubnetQuery>, queries: seq<SubnetQuery>, after: seq<SubnetQuery>) {
    forall s :: EntryOf(after, s) == Again(EntryOf(before, s), queries, s)
  }

  lemma RequeuedNext(before: seq<SubnetQuery>, queries: seq<SubnetQuery>, n: nat, mid: seq<SubnetQuery>, after: seq<SubnetQuery>)
    requires n < |queries| && QueueOk(queries) && Requeued(before, queries[..n], mid)
    requires forall s :: EntryOf(after, s) == if s == queries[n].subnet && queries[n].retries + 1 <= MAX_DISCOVERY_RETRY
                                              then Some(Merged(EntryOf(mid, s), queries[n].(retries := queries[n].retries + 1)))
                                              else EntryOf(mid, s)
    ensures Requeued(before, queries[..n + 1], after)
  {
    hide EntryOf;
    assert queries[..n + 1] == queries[..n] + [queries[n]];
    EntryIsThere(queries[..n], queries[n].subnet);
    forall s
      ensures EntryOf(after, s) == Again(EntryOf(before, s), queries[..n + 1], s)
    {
      EntryAppended(queries[..n], queries[n], s);
    }
  }

  /** The time is no earlier: none is the earliest. */
  predicate NoEarlier(a: Option<Instant>, b: Option<Instant>) {
    b.Some? ==> a.Some? && b.value <= a.value
  }

  /** The entry of a search that is queued again: one retry more, and the later of its time and that of an entry queued meanwhile. */
  ghost predicate QueuedAgain(before: seq<SubnetQuery>, q: SubnetQuery, e: SubnetQuery) {
    && e.subnet == q.subnet && e.retries == q.retries + 1 && NoEarlier(e.minTtl, q.minTtl)
    && (forall b :: b in before && b.subnet == q.subnet ==> NoEarlier(e.minTtl, b.minTtl))
    && (e.minTtl == q.minTtl || exists b :: b in before && b.subnet == q.subnet && b.minTtl == e.minTtl)
  }

  /** A search is repeated three times: then the queue keeps what it had for its subnet. */
  lemma SearchedAgain(before: seq<SubnetQuery>, queries: seq<SubnetQuery>, after: seq<SubnetQuery>, i: nat)
    requires QueueOk(before) && QueueOk(queries) && QueueOk(after) && Requeued(before, queries, after) && i < |queries|
    ensures queries[i].retries < 3 ==> exists e :: e in after && QueuedAgain(before, queries[i], e)
    ensures queries[i].retries >= 3 ==> forall e: SubnetQuery :: e.subnet == queries[i].subnet ==> (e in after <==> e in before)
  {
    hide EntryOf;
    var q := queries[i];
    EntryIsUnique(queries, i);
    assert EntryOf(after, q.subnet) == Again(EntryOf(before, q.subnet), queries, q.subnet);
    EntryIsThere(after, q.subnet);
    EntryIsThere(before, q.subnet);
    EntriesAre(before, q.subnet);
    EntriesAre(after, q.subnet);
    if q.retries < 3 {
      assert QueuedAgain(before, q, EntryOf(after, q.subnet).value);
    }
  }

  lemma EntriesAre(queue: seq<SubnetQuery>, subnet: Subnet)
    requires QueueOk(queue)
    ensures forall e :: e in queue && e.subnet == subnet ==> EntryOf(queue, subnet) == Some(e)
  {
    hide EntryOf;
    forall e | e in queue && e.subnet == subnet ensures EntryOf(queue, subnet) == Some(e) {
      var i :| 0 <= i < |queue| && queue[i] == e;
      EntryIsUnique(queue, i);
    }
  }

  /** Every query started is for one to three subnets that lack peers, all from the groups. */
  lemma {:induction false} StartedQueries(groups: seq<seq<SubnetQuery>>, enough: Subnet -> bool, i: nat)
    requires GroupsOk(groups) && QueueOk(Flatten(groups)) && i < |Started(groups, enough)|
    ensures Started(groups, enough)[i].Subnets? && 1 <= |Started(groups, enough)[i].queries| <= 3
    ensures forall q :: q in Started(groups, enough)[i].queries ==> q in Flatten(groups) && !enough(q.subnet)
  {
    hide QueueOk, Needed;
    var init, last := groups[..|groups| - 1], groups[|groups| - 1];
    QueueParts(Flatten(init), last);
    if i < |Started(init, enough)| {
      StartedQueries(init, enough, i);
    } else {
      NeededOk(last, enough);
      NeededIsShorter(last, enough);
    }
  }

  lemma {:induction false} NeededIsShorter(group: seq<SubnetQuery>, enough: Subnet -> bool)
    ensures |Needed(group, enough)| <= |group|
  {
    if group != [] {
      NeededIsShorter(group[..|group| - 1], enough);
    }
  }

  /** Groups so far, the group being formed and the rest of the queue. */
  ghost predicate Grouped(groups: seq<seq<SubnetQuery>>, pending: seq<SubnetQuery>, queue: seq<SubnetQuery>, all: seq<SubnetQuery>) {
    Flatten(groups) + pending + queue == all && QueueOk(pending + queue) && GroupsOk(groups)
  }

  lemma NoGroups(enough: Subnet -> bool, queue: seq<SubnetQuery>)
    requires QueueOk(queue)
    ensures Grouped([], [], queue, queue) && Started([], enough) == []
  {
    assert [] + [] + queue == queue && [] + queue == queue;
  }

  lemma GroupedTake(groups: seq<seq<SubnetQuery>>, pending: seq<SubnetQuery>, queue: seq<SubnetQuery>, all: seq<SubnetQuery>)
    requires Grouped(groups, pending, queue, all) && queue != []
    ensures Grouped(groups, pending + [queue[0]], queue[1..], all)
  {
    hide Flatten, QueueOk, GroupsOk;
    assert pending + [queue[0]] + queue[1..] == pending + queue;
    assert Flatten(groups) + (pending + [queue[0]]) + queue[1..] == Flatten(groups) + pending + queue;
  }

  lemma GroupedStart(groups: seq<seq<SubnetQuery>>, pending: seq<SubnetQuery>, queue: seq<SubnetQuery>, all: seq<SubnetQuery>)
    requires Grouped(groups, pending, queue, all) && 1 <= |pending| <= MAX_SUBNETS_IN_QUERY
    ensures QueueOk(pending) && Grouped(groups + [pending], [], queue, all)
  {
    hide Flatten, QueueOk;
    QueueParts(pending, queue);
    FlattenSnoc(groups, pending);
    assert [] + queue == queue;
    assert Flatten(groups) + pending + [] + queue == Flatten(groups) + pending + queue;
  }

  lemma GroupedEnd(groups: seq<seq<SubnetQuery>>, queue: seq<SubnetQuery>, all: seq<SubnetQuery>)
    requires Grouped(groups, [], queue, all)
    ensures Flatten(groups) + queue == all && QueueOk(queue) && GroupsOk(groups)
  {
    hide Flatten, QueueOk;
    assert [] + queue == queue;
    assert Flatten(groups) + [] + queue == Flatten(groups) + queue;
  }

  lemma QueueParts(a: seq<SubnetQuery>, b: seq<SubnetQuery>)
    requires QueueOk(a + b)
    ensures QueueOk(a) && QueueOk(b)
  {
    assert forall i :: 0 <= i < |a| ==> (a + b)[i] == a[i];
    assert forall i :: 0 <= i < |b| ==> (a + b)[|a| + i] == b[i];
  }

  lemma NothingMapped(found: seq<Enr>, matches: (Subnet, Enr) -> bool)
    ensures Maps(map[], found, [], matches)
  {}

  /** The records mapped are exactly those found that match a query, each to the furthest time asked for within 1 ms. */
  lemma MappedIsFurthest(m: Mapping, found: seq<Enr>, queries: seq<SubnetQuery>, matches: (Subnet, Enr) -> bool, e: Enr)
    requires Maps(m, found, queries, matches)
    ensures e in m <==> e in found && exists i :: 0 <= i < |queries| && matches(queries[i].subnet, e)
    ensures e in m ==> Furthest(Matching(queries, matches, e), m[e])
  {
    assert Lookup(m, e) == if e in found then Combined(Matching(queries, matches, e)) else None;
    SomeMatch(queries, matches, e);
    if e in m {
      CombinedIsFurthest(Matching(queries, matches, e));
    }
  }

  lemma {:induction false} SomeMatch(queries: seq<SubnetQuery>, matches: (Subnet, Enr) -> bool, e: Enr)
    ensures Matching(queries, matches, e) != [] <==> exists i :: 0 <= i < |queries| && matches(queries[i].subnet, e)
  {
    if queries != [] {
      var init, last := queries[..|queries| - 1], queries[|queries| - 1];
      SomeMatch(init, matches, e);
      assert forall i :: 0 <= i < |init| ==> queries[i] == init[i];
      if matches(last.subnet, e) {
        assert matches(queries[|queries| - 1].subnet, e);
      }
    }
  }

  // ----- Five subnet queries -----

  lemma {:induction false} NothingIsEnough(group: seq<SubnetQuery>)
    ensures Needed(group, _ => false) == group
  {
    if group != [] {
      NothingIsEnough(group[..|group| - 1]);
    }
  }

  lemma {:induction false} GroupsAreSmall(groups: seq<seq<SubnetQuery>>)
    requires GroupsOk(groups)
    ensures |Flatten(groups)| <= MAX_SUBNETS_IN_QUERY * |Started(groups, _ => false)|
    ensures Finds(Started(groups, _ => false)) == 0
  {
    if groups != [] {
      GroupsAreSmall(groups[..|groups| - 1]);
      NothingIsEnough(groups[|groups| - 1]);
    }
  }

  lemma {:induction false} LongLivedIsFresh(queue: seq<SubnetQuery>, now: Instant)
    requires forall i :: 0 <= i < |queue| ==> queue[i].minTtl.None?
    ensures Fresh(queue, now) == queue
  {
    if queue != [] {
      LongLivedIsFresh(queue[..|queue| - 1], now);
    }
  }

  lemma SixteenNeedFive(groups: seq<seq<SubnetQuery>>, rest: seq<SubnetQuery>, active: seq<QueryType>)
    requires |Flatten(groups) + rest| == 16 && GroupsOk(groups) && active == Started(groups, _ => false)
    requires rest != [] ==> SubnetQueries(active) == MAX_CONCURRENT_SUBNET_QUERIES + 1
    requires SubnetQueries(active) <= MAX_CONCURRENT_SUBNET_QUERIES + 1
    ensures SubnetQueries(active) == MAX_CONCURRENT_SUBNET_QUERIES + 1
  {
    hide Flatten, Started;
    GroupsAreSmall(groups);
  }

  /** The documented four are exceeded: a search for peers fails to start, and then five subnet queries are active at once. */
  method FiveSubnetQueries() returns (service: Service)
    ensures SubnetQueries(service.activeQueries) == 5
  {
    hide QueueOk, ActiveOk, EntryOf, Flatten, Started, Fresh, GroupsOk, SubnetQueries;
    service := new Service();
    service.DiscoverPeers(true, false);
    for n := 0 to 16
      invariant service.Valid() && service.stale && service.activeQueries == [] && |service.queuedQueries| == n
      invariant forall i :: 0 <= i < n ==> service.queuedQueries[i] == SubnetQuery(Attestation(i), None, 0)
    {
      service.AddSubnetQuery(Attestation(n), None, 0);
    }
    LongLivedIsFresh(service.queuedQueries, 0);
    var _, groups := service.ProcessQueue(0, _ => false, true);
    SixteenNeedFive(groups, service.queuedQueries, service.activeQueries);
  }
}
