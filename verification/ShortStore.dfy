/** The short-link store: an expiring in-memory list and a persisted table (src/sublink.rs). */
module ShortStore {
  import opened Seqs

  datatype Entry = Entry(code: string, query: string, expiresAt: nat)

  /** A persisted link; without an expiry it is permanent. */
  datatype Link = Link(code: string, query: string, expiry: Option<nat>)

  // ----- the in-memory list -----

  /** `retain(|entry| entry.expires_at > now)`. */
  function Prune(s: seq<Entry>, now: nat): seq<Entry> {
    if s == [] then []
    else Prune(s[..|s| - 1], now) + if s[|s| - 1].expiresAt > now then [s[|s| - 1]] else []
  }

  /** The first position of a code, or the length. */
  function Position(s: seq<Entry>, code: string): (i: nat)
    ensures i <= |s| && (i < |s| ==> s[i].code == code)
    ensures forall j :: 0 <= j < i ==> s[j].code != code
  {
    if s == [] || s[0].code == code then 0 else 1 + Position(s[1..], code)
  }

  function Without(s: seq<Entry>, code: string): seq<Entry> {
    var i := Position(s, code);
    if i < |s| then s[..i] + s[i + 1..] else s
  }

  /** `put`: prune, drop the old entry, pop the back down to `limit - 1`, push to the front. */
  function Insert(s: seq<Entry>, entry: Entry, pruneAt: nat, limit: nat): seq<Entry>
    requires limit > 0
  {
    var kept := Without(Prune(s, pruneAt), entry.code);
    [entry] + kept[..Min(|kept|, limit - 1)]
  }

  // ----- the persisted table -----

  predicate LiveLink(l: Link, unixNow: nat) { l.expiry.None? || l.expiry.value > unixNow }

  function RetainLinks(links: seq<Link>, unixNow: nat): seq<Link> {
    if links == [] then []
    else RetainLinks(links[..|links| - 1], unixNow)
         + if LiveLink(links[|links| - 1], unixNow) then [links[|links| - 1]] else []
  }

  function LinkPosition(links: seq<Link>, code: string): (i: nat)
    ensures i <= |links| && (i < |links| ==> links[i].code == code)
    ensures forall j :: 0 <= j < i ==> links[j].code != code
  {
    if links == [] || links[0].code == code then 0 else 1 + LinkPosition(links[1..], code)
  }

  /** Overwrite the link of this code, or append one. */
  function Upsert(links: seq<Link>, l: Link): seq<Link> {
    var i := LinkPosition(links, l.code);
    if i < |links| then links[i := l] else links + [l]
  }

  function ExpiringCount(links: seq<Link>): (n: nat)
    ensures n <= |links|
  {
    if links == [] then 0
    else ExpiringCount(links[..|links| - 1]) + if links[|links| - 1].expiry.Some? then 1 else 0
  }

  /** The first link among those that expire soonest (`min_by_key` keeps the first minimum). */
  ghost predicate IsSoonest(links: seq<Link>, i: nat) {
    && i < |links| && links[i].expiry.Some?
    && forall j :: 0 <= j < |links| && links[j].expiry.Some? ==>
         if j < i then links[i].expiry.value < links[j].expiry.value else links[i].expiry.value <= links[j].expiry.value
  }

  function Soonest(links: seq<Link>): (i: nat)
    requires ExpiringCount(links) > 0
    ensures IsSoonest(links, i)
  {
    var n := |links| - 1;
    if links[n].expiry.None? then Soonest(links[..n])
    else if ExpiringCount(links[..n]) == 0 then NoneExpire(links[..n]); n
    else
      var i := Soonest(links[..n]);
      if links[n].expiry.value < links[i].expiry.value then n else i
  }

  lemma {:induction false} NoneExpire(links: seq<Link>)
    requires ExpiringCount(links) == 0
    ensures forall j :: 0 <= j < |links| ==> links[j].expiry.None?
  {
    if links != [] {
      NoneExpire(links[..|links| - 1]);
    }
  }

  function RemoveAt(links: seq<Link>, i: nat): seq<Link>
    requires i < |links|
  {
    links[..i] + links[i + 1..]
  }

  /** The eviction loop of `put_persisted_expiring`. */
  function Evict(links: seq<Link>, limit: nat): seq<Link>
    decreases |links|
  {
    if ExpiringCount(links) < limit || ExpiringCount(links) == 0 then links
    else Evict(RemoveAt(links, Soonest(links)), limit)
  }

  function ExpiryAt(unixNow: nat, ttlSeconds: nat): nat {
    if unixNow + ttlSeconds <= U64_MAX then unixNow + ttlSeconds else U64_MAX
  }

  /** `put_persisted_expiring` on values. */
  function InsertExpiring(links: seq<Link>, l: Link, unixNow: nat, limit: nat): seq<Link> {
    var live := RetainLinks(links, unixNow);
    if LinkPosition(live, l.code) < |live| then Upsert(live, l) else Evict(live, limit) + [l]
  }

  // ----- the store object -----

  datatype PutError = Disabled | PersistFailed

  class ShortStore {
    var entries: seq<Entry>
    var permanent: seq<Link>
    const limit: nat
    const ttl: nat          // in units of the monotonic clock
    const ttlSeconds: nat   // the same in seconds of the wall clock
    const disabled: bool

    constructor (permanent: seq<Link>, limit: nat, ttl: nat, ttlSeconds: nat, disabled: bool)
      ensures entries == [] && this.permanent == permanent
      ensures this.limit == limit && this.ttl == ttl && this.ttlSeconds == ttlSeconds && this.disabled == disabled
    {
      entries := [];
      this.permanent := permanent;
      this.limit := limit;
      this.ttl := ttl;
      this.ttlSeconds := ttlSeconds;
      this.disabled := disabled;
    }

    method PruneNow(now: nat)
      modifies this`entries
      ensures entries == Prune(old(entries), now)
    {
      var kept: seq<Entry> := [];
      for i := 0 to |entries|
        invariant kept == Prune(entries[..i], now)
      {
        assert entries[..i + 1][..i] == entries[..i];
        if entries[i].expiresAt > now {
          kept := kept + [entries[i]];
        }
      }
      assert entries[..|entries|] == entries;
      entries := kept;
    }

    /** `put`; the clock is read once to prune and once to stamp the entry. */
    method Put(code: string, query: string, pruneAt: nat, stampAt: nat) returns (error: Option<PutError>)
      requires limit > 0
      modifies this`entries
      ensures error == if disabled then Some(Disabled) else None
      ensures entries == if disabled then old(entries)
                         else Insert(old(entries), Entry(code, query, stampAt + ttl), pruneAt, limit)
    {
      if disabled {
        return Some(Disabled);
      }
      PruneNow(pruneAt);
      ghost var pruned := entries;
      var position := FindEntry(entries, code);
      if position < |entries| {
        entries := entries[..position] + entries[position + 1..];
      }
      ghost var kept := Without(pruned, code);
      assert entries == kept;
      while |entries| >= limit
        invariant entries == kept[..|entries|] && |entries| <= |kept|
        invariant |entries| < limit ==> |entries| == Min(|kept|, limit - 1)
        decreases |entries|
      {
        entries := entries[..|entries| - 1];
      }
      entries := [Entry(code, query, stampAt + ttl)] + entries;
      return None;
    }

    /** `put_permanent`; whether writing the file works is decided elsewhere and changes no link. */
    method PutPermanent(code: string, query: string, persists: bool) returns (error: Option<PutError>)
      modifies this`permanent
      ensures error == if disabled then Some(Disabled) else if persists then None else Some(PersistFailed)
      ensures permanent == if disabled then old(permanent) else Upsert(old(permanent), Link(code, query, None))
    {
      if disabled {
        return Some(Disabled);
      }
      var i := FindLink(permanent, code);
      if i < |permanent| {
        permanent := permanent[i := Link(permanent[i].code, query, None)];
      } else {
        permanent := permanent + [Link(code, query, None)];
      }
      return if persists then None else Some(PersistFailed);
    }

    method RetainNow(unixNow: nat)
      modifies this`permanent
      ensures permanent == RetainLinks(old(permanent), unixNow)
    {
      var kept: seq<Link> := [];
      for i := 0 to |permanent|
        invariant kept == RetainLinks(permanent[..i], unixNow)
      {
        assert permanent[..i + 1][..i] == permanent[..i];
        if permanent[i].expiry.None? || permanent[i].expiry.value > unixNow {
          kept := kept + [permanent[i]];
        }
      }
      assert permanent[..|permanent|] == permanent;
      permanent := kept;
    }

    method PutPersistedExpiring(code: string, query: string, unixNow: nat, persists: bool)
      returns (error: Option<PutError>)
      modifies this`permanent
      ensures error == if disabled then Some(Disabled) else if persists then None else Some(PersistFailed)
      ensures permanent
           == if disabled then old(permanent)
              else InsertExpiring(old(permanent), Link(code, query, Some(ExpiryAt(unixNow, ttlSeconds))), unixNow, limit)
    {
      if disabled {
        return Some(Disabled);
      }
      RetainNow(unixNow);
      var expiry := ExpiryAt(unixNow, ttlSeconds);
      var i := FindLink(permanent, code);
      if i < |permanent| {
        permanent := permanent[i := Link(permanent[i].code, query, Some(expiry))];
      } else {
        ghost var live := permanent;
        while ExpiringCount(permanent) >= limit
          invariant Evict(permanent, limit) == Evict(live, limit)
          decreases |permanent|
        {
          var soonest := FindSoonest(permanent);
          if soonest.None? {
            break;
          }
          permanent := permanent[..soonest.value] + permanent[soonest.value + 1..];
        }
        permanent := permanent + [Link(code, query, Some(expiry))];
      }
      return if persists then None else Some(PersistFailed);
    }

    /** `get`: prune, then the persisted table, then the list. */
    method Get(code: string, now: nat, unixNow: nat) returns (query: Option<string>)
      modifies this`entries
      ensures entries == Prune(old(entries), now)
      ensures query == Lookup(permanent, entries, code, unixNow)
    {
      PruneNow(now);
      for i := 0 to |permanent|
        invariant forall j :: 0 <= j < i ==> !(permanent[j].code == code && LiveLink(permanent[j], unixNow))
        invariant LiveLinkPosition(permanent, code, unixNow) == i + LiveLinkPosition(permanent[i..], code, unixNow)
      {
        if permanent[i].code == code && (permanent[i].expiry.None? || permanent[i].expiry.value > unixNow) {
          return Some(permanent[i].query);
        }
        assert permanent[i..][1..] == permanent[i + 1..];
      }
      var position := FindEntry(entries, code);
      return if position < |entries| then Some(entries[position].query) else None;
    }
  }

  method FindEntry(s: seq<Entry>, code: string) returns (i: nat)
    ensures i == Position(s, code)
  {
    i := 0;
    while i < |s| && s[i].code != code
      invariant i <= |s| && forall j :: 0 <= j < i ==> s[j].code != code
    {
      i := i + 1;
    }
  }

  method FindLink(links: seq<Link>, code: string) returns (i: nat)
    ensures i == LinkPosition(links, code)
  {
    i := 0;
    while i < |links| && links[i].code != code
      invariant i <= |links| && forall j :: 0 <= j < i ==> links[j].code != code
    {
      i := i + 1;
    }
  }

  /** The `filter_map` and `min_by_key` scan. */
  method FindSoonest(links: seq<Link>) returns (best: Option<nat>)
    ensures best == if ExpiringCount(links) == 0 then None else Some(Soonest(links))
  {
    best := None;
    for i := 0 to |links|
      invariant best == if ExpiringCount(links[..i]) == 0 then None else Some(Soonest(links[..i]))
    {
      assert links[..i + 1][..i] == links[..i];
      if links[i].expiry.Some? && (best.None? || links[i].expiry.value < links[best.value].expiry.value) {
        best := Some(i);
      }
    }
    assert links[..|links|] == links;
  }

  /** The first link of this code that is still live, or the length. */
  function LiveLinkPosition(links: seq<Link>, code: string, unixNow: nat): (i: nat)
    ensures i <= |links| && (i < |links| ==> links[i].code == code && LiveLink(links[i], unixNow))
    ensures forall j :: 0 <= j < i ==> !(links[j].code == code && LiveLink(links[j], unixNow))
  {
    if links == [] || (links[0].code == code && LiveLink(links[0], unixNow)) then 0
    else 1 + LiveLinkPosition(links[1..], code, unixNow)
  }

  function Lookup(links: seq<Link>, pruned: seq<Entry>, code: string, unixNow: nat): Option<string> {
    var i := LiveLinkPosition(links, code, unixNow);
    var p := Position(pruned, code);
    if i < |links| then Some(links[i].query)
    else if p < |pruned| then Some(pruned[p].query)
    else None
  }
}
