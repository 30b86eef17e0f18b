/** What the short-link store promises over any sequence of operations (src/sublink.rs). */
module ShortStoreSpec {
  import opened Seqs
  import opened ShortStore

  datatype Config = Config(limit: nat, ttl: nat, ttlSeconds: nat)

  datatype Store = Store(entries: seq<Entry>, permanent: seq<Link>)

  /** `Get` matters because it prunes the list. */
  datatype Op =
    | Put(code: string, query: string, pruneAt: nat, stampAt: nat)
    | PutPermanent(code: string, query: string)
    | PutExpiring(code: string, query: string, unixNow: nat)
    | Get(now: nat)

  function ExpiringLink(op: Op, cfg: Config): Link
    requires op.PutExpiring?
  {
    Link(op.code, op.query, Some(ExpiryAt(op.unixNow, cfg.ttlSeconds)))
  }

  function Apply(s: Store, op: Op, cfg: Config): Store
    requires cfg.limit > 0
  {
    match op
    case Put(code, query, pruneAt, stampAt) =>
      s.(entries := Insert(s.entries, Entry(code, query, stampAt + cfg.ttl), pruneAt, cfg.limit))
    case PutPermanent(code, query) => s.(permanent := Upsert(s.permanent, Link(code, query, None)))
    case PutExpiring(_, _, unixNow) =>
      s.(permanent := InsertExpiring(s.permanent, ExpiringLink(op, cfg), unixNow, cfg.limit))
    case Get(now) => s.(entries := Prune(s.entries, now))
  }

  function Run(initial: seq<Link>, log: seq<Op>, cfg: Config): Store
    requires cfg.limit > 0
  {
    if log == [] then Store([], initial)
    else Apply(Run(initial, log[..|log| - 1], cfg), log[|log| - 1], cfg)
  }

  // ----- the list is the recency window -----

  function NextTime(time: nat, op: Op): nat {
    match op
    case Put(_, _, _, stampAt) => stampAt
    case Get(now) => now
    case _ => time
  }

  /** The last reading of the monotonic clock. */
  function LastTime(log: seq<Op>): nat {
    if log == [] then 0 else NextTime(LastTime(log[..|log| - 1]), log[|log| - 1])
  }

  predicate ClockStep(time: nat, op: Op) {
    match op
    case Put(_, _, pruneAt, stampAt) => time <= pruneAt <= stampAt
    case Get(now) => time <= now
    case _ => true
  }

  /** The monotonic clock does not go backwards. */
  predicate ClockOk(log: seq<Op>) {
    log == [] || (ClockOk(log[..|log| - 1]) && ClockStep(LastTime(log[..|log| - 1]), log[|log| - 1]))
  }

  function NextRecency(recency: seq<Entry>, op: Op, ttl: nat): seq<Entry> {
    match op
    case Put(code, query, _, stampAt) => [Entry(code, query, stampAt + ttl)] + Without(recency, code)
    case _ => recency
  }

  /** The reference: the latest put of every code, newest first, never forgotten. */
  function Recency(log: seq<Op>, ttl: nat): seq<Entry> {
    if log == [] then [] else NextRecency(Recency(log[..|log| - 1], ttl), log[|log| - 1], ttl)
  }

  ghost predicate UniqueCodes(s: seq<Entry>) {
    forall i, j :: 0 <= i < j < |s| ==> s[i].code != s[j].code
  }

  ghost predicate NewestFirst(s: seq<Entry>) {
    forall i, j :: 0 <= i <= j < |s| ==> s[i].expiresAt >= s[j].expiresAt
  }

  /** Where a prune cuts a list that is ordered by expiry. */
  function LiveCount(s: seq<Entry>, now: nat): (n: nat)
    ensures n <= |s|
    ensures forall i :: 0 <= i < n ==> s[i].expiresAt > now
    ensures n < |s| ==> s[n].expiresAt <= now
  {
    if s == [] || s[0].expiresAt <= now then 0 else 1 + LiveCount(s[1..], now)
  }

  lemma LiveCountUnique(s: seq<Entry>, now: nat, n: nat)
    requires n <= |s| && (forall i :: 0 <= i < n ==> s[i].expiresAt > now) && (n < |s| ==> s[n].expiresAt <= now)
    ensures LiveCount(s, now) == n
  {
    var m := LiveCount(s, now);
    assert m < |s| ==> s[m].expiresAt <= now;
    assert n < |s| ==> s[n].expiresAt <= now;
  }

  lemma {:induction false} PruneAllLive(a: seq<Entry>, now: nat)
    requires forall i :: 0 <= i < |a| ==> a[i].expiresAt > now
    ensures Prune(a, now) == a
  {
    if a != [] {
      PruneAllLive(a[..|a| - 1], now);
      assert a == a[..|a| - 1] + [a[|a| - 1]];
    }
  }

  lemma {:induction false} PruneSplit(a: seq<Entry>, b: seq<Entry>, now: nat)
    requires forall i :: 0 <= i < |a| ==> a[i].expiresAt > now
    requires forall i :: 0 <= i < |b| ==> b[i].expiresAt <= now
    ensures Prune(a + b, now) == a
    decreases |b|
  {
    if b == [] {
      PruneAllLive(a, now);
      assert a + b == a;
    } else {
      PruneSplit(a, b[..|b| - 1], now);
      assert (a + b)[..|a + b| - 1] == a + b[..|b| - 1];
    }
  }

  lemma PruneIsPrefix(s: seq<Entry>, now: nat)
    requires NewestFirst(s)
    ensures Prune(s, now) == s[..LiveCount(s, now)]
  {
    var n := LiveCount(s, now);
    forall i | n <= i < |s|
      ensures s[i].expiresAt <= now
    {
      assert s[n].expiresAt >= s[i].expiresAt;
    }
    PruneSplit(s[..n], s[n..], now);
    assert s[..n] + s[n..] == s;
  }

  /** `entries` is a prefix of the recency list, within the limit; what is missing from the window has expired. */
  ghost predicate IsWindow(entries: seq<Entry>, recency: seq<Entry>, now: nat, limit: nat) {
    && |entries| <= |recency| && |entries| <= limit
    && entries == recency[..|entries|]
    && forall k :: |entries| <= k < |recency| && k < limit ==> recency[k].expiresAt <= now
  }

  lemma PruneKeepsWindow(entries: seq<Entry>, recency: seq<Entry>, before: nat, now: nat, limit: nat)
    requires IsWindow(entries, recency, before, limit) && NewestFirst(recency) && before <= now
    ensures IsWindow(Prune(entries, now), recency, now, limit)
  {
    PruneIsPrefix(entries, now);
    var n := LiveCount(entries, now);
    forall k | n <= k < |recency| && k < limit
      ensures recency[k].expiresAt <= now
    {
      if n < |entries| {
        assert recency[n] == entries[n];
        assert recency[k].expiresAt <= recency[n].expiresAt;
      }
    }
  }

  /** Where element k of the list without `code` was before. */
  function Origin(s: seq<Entry>, code: string, k: nat): nat { if k < Position(s, code) then k else k + 1 }

  lemma WithoutAt(s: seq<Entry>, code: string, k: nat)
    requires k < |Without(s, code)|
    ensures Origin(s, code, k) < |s| && Without(s, code)[k] == s[Origin(s, code, k)]
  {
  }

  lemma PositionInPrefix(s: seq<Entry>, n: nat, code: string)
    requires n <= |s|
    ensures Position(s[..n], code) == Min(n, Position(s, code))
  {
    var i, p := Position(s, code), Position(s[..n], code);
    assert forall j :: 0 <= j < n ==> s[..n][j] == s[j];
    if p < n {
      assert s[p].code == code;
    }
  }

  /** Taking a code out of a list and out of its prefix. */
  lemma {:induction false} WithoutPrefix(s: seq<Entry>, n: nat, code: string)
    requires n <= |s|
    ensures var m := |Without(s[..n], code)|;
            && m <= |Without(s, code)|
            && Without(s[..n], code) == Without(s, code)[..m]
            && forall k :: m <= k < |Without(s, code)| ==>
                 n <= Origin(s, code, k) < |s| && Without(s, code)[k] == s[Origin(s, code, k)]
  {
    PositionInPrefix(s, n, code);
    var w, v := Without(s, code), Without(s[..n], code);
    var i := Position(s, code);
    if i < n {
      assert v == s[..i] + s[i + 1..n];
    } else {
      assert v == s[..n];
    }
    forall k | |v| <= k < |w|
      ensures n <= Origin(s, code, k) < |s| && w[k] == s[Origin(s, code, k)]
    {
      WithoutAt(s, code, k);
    }
  }

  lemma {:induction false} InsertKeepsWindow(entries: seq<Entry>, recency: seq<Entry>, before: nat, entry: Entry, pruneAt: nat, limit: nat)
    requires limit > 0 && before <= pruneAt
    requires IsWindow(entries, recency, before, limit) && NewestFirst(recency) && UniqueCodes(recency)
    ensures IsWindow(Insert(entries, entry, pruneAt, limit), [entry] + Without(recency, entry.code), pruneAt, limit)
  {
    PruneKeepsWindow(entries, recency, before, pruneAt, limit);
    var pruned := Prune(entries, pruneAt);
    WithoutPrefix(recency, |pruned|, entry.code);
    var kept, rest := Without(pruned, entry.code), Without(recency, entry.code);
    var inserted, longer := Insert(entries, entry, pruneAt, limit), [entry] + rest;
    assert inserted == longer[..|inserted|];
    forall k | |inserted| <= k < |longer| && k < limit
      ensures longer[k].expiresAt <= pruneAt
    {
      assert longer[k] == rest[k - 1] && |kept| <= k - 1;
      assert rest[k - 1] == recency[Origin(recency, entry.code, k - 1)];
    }
  }

  /** Newest first, no code twice, and nothing expires after the bound. */
  ghost predicate RecencyOk(recency: seq<Entry>, bound: nat) {
    && NewestFirst(recency) && UniqueCodes(recency)
    && forall k :: 0 <= k < |recency| ==> recency[k].expiresAt <= bound
  }

  lemma PrependNewest(entry: Entry, rest: seq<Entry>)
    requires RecencyOk(rest, entry.expiresAt) && forall k :: 0 <= k < |rest| ==> rest[k].code != entry.code
    ensures RecencyOk([entry] + rest, entry.expiresAt)
  {
    var longer := [entry] + rest;
    assert forall k :: 0 <= k < |longer| ==> longer[k] == if k == 0 then entry else rest[k - 1];
  }

  lemma WithoutKeepsOrder(s: seq<Entry>, code: string, bound: nat)
    requires RecencyOk(s, bound)
    ensures RecencyOk(Without(s, code), bound)
    ensures forall k :: 0 <= k < |Without(s, code)| ==> Without(s, code)[k].code != code
  {
    var i, w := Position(s, code), Without(s, code);
    assert forall k :: 0 <= k < |w| ==> w[k] == s[if k < i then k else k + 1];
    forall k | 0 <= k < |w|
      ensures w[k].code != code
    {
      if k >= i {
        assert s[i].code != s[k + 1].code;
      }
    }
  }

  lemma RecencyStep(recency: seq<Entry>, entry: Entry)
    requires RecencyOk(recency, entry.expiresAt)
    ensures RecencyOk([entry] + Without(recency, entry.code), entry.expiresAt)
  {
    WithoutKeepsOrder(recency, entry.code, entry.expiresAt);
    PrependNewest(entry, Without(recency, entry.code));
  }

  lemma BoundGrows(recency: seq<Entry>, bound: nat, later: nat)
    requires RecencyOk(recency, bound) && bound <= later
    ensures RecencyOk(recency, later)
  {
  }

  lemma {:induction false} PutKeepsRecency(recency: seq<Entry>, bound: nat, entry: Entry)
    requires RecencyOk(recency, bound) && bound <= entry.expiresAt
    ensures RecencyOk([entry] + Without(recency, entry.code), entry.expiresAt)
  {
    BoundGrows(recency, bound, entry.expiresAt);
    RecencyStep(recency, entry);
  }

  lemma {:induction false} RecencyOkStep(recency: seq<Entry>, time: nat, op: Op, ttl: nat)
    requires RecencyOk(recency, time + ttl) && ClockStep(time, op)
    ensures RecencyOk(NextRecency(recency, op, ttl), NextTime(time, op) + ttl)
  {
    match op
    case Put(code, query, _, stampAt) =>
      var entry := Entry(code, query, stampAt + ttl);
      PutKeepsRecency(recency, time + ttl, entry);
      assert NextRecency(recency, op, ttl) == [entry] + Without(recency, code);
    case Get(now) => BoundGrows(recency, time + ttl, now + ttl);
    case _ =>
  }

  lemma {:induction false} RecencyOrdered(log: seq<Op>, ttl: nat)
    requires ClockOk(log)
    ensures RecencyOk(Recency(log, ttl), LastTime(log) + ttl)
  {
    if log != [] {
      var n := |log| - 1;
      RecencyOrdered(log[..n], ttl);
      RecencyOkStep(Recency(log[..n], ttl), LastTime(log[..n]), log[n], ttl);
    }
  }

  lemma {:induction false} ListStep(s: Store, recency: seq<Entry>, time: nat, op: Op, cfg: Config)
    requires cfg.limit > 0 && ClockStep(time, op) && RecencyOk(recency, time + cfg.ttl)
    requires IsWindow(s.entries, recency, time, cfg.limit)
    ensures IsWindow(Apply(s, op, cfg).entries, NextRecency(recency, op, cfg.ttl), NextTime(time, op), cfg.limit)
  {
    match op
    case Put(code, query, pruneAt, stampAt) =>
      InsertKeepsWindow(s.entries, recency, time, Entry(code, query, stampAt + cfg.ttl), pruneAt, cfg.limit);
    case Get(now) => PruneKeepsWindow(s.entries, recency, time, now, cfg.limit);
    case _ =>
  }

  lemma {:induction false} ListIsWindow(initial: seq<Link>, log: seq<Op>, cfg: Config)
    requires cfg.limit > 0 && ClockOk(log)
    ensures IsWindow(Run(initial, log, cfg).entries, Recency(log, cfg.ttl), LastTime(log), cfg.limit)
  {
    if log != [] {
      var n := |log| - 1;
      ListIsWindow(initial, log[..n], cfg);
      RecencyOrdered(log[..n], cfg.ttl);
      ListStep(Run(initial, log[..n], cfg), Recency(log[..n], cfg.ttl), LastTime(log[..n]), log[n], cfg);
    }
  }

  lemma {:induction false} WindowPrune(entries: seq<Entry>, recency: seq<Entry>, time: nat, now: nat, limit: nat)
    requires IsWindow(entries, recency, time, limit) && NewestFirst(recency) && time <= now
    ensures Prune(entries, now) == Prune(recency[..Min(|recency|, limit)], now)
  {
    var window := recency[..Min(|recency|, limit)];
    PruneIsPrefix(entries, now);
    PruneIsPrefix(window, now);
    var n := LiveCount(entries, now);
    assert forall i :: 0 <= i < |entries| ==> window[i] == entries[i];
    LiveCountUnique(window, now, n);
  }

  /**
   * The bounded, eagerly pruned list answers like the unbounded recency list cut to its first
   * `limit` entries: early pruning and eviction never cost a live entry of that window. The list
   * has unique codes and its expiries do not increase, so popping the back drops the soonest to expire.
   */
  lemma {:induction false} ListIsLruWindow(initial: seq<Link>, log: seq<Op>, cfg: Config, now: nat)
    requires cfg.limit > 0 && ClockOk(log) && LastTime(log) <= now
    ensures var entries := Run(initial, log, cfg).entries;
            var recency := Recency(log, cfg.ttl);
            && Prune(entries, now) == Prune(recency[..Min(|recency|, cfg.limit)], now)
            && |entries| <= cfg.limit && UniqueCodes(entries) && NewestFirst(entries)
  {
    ListIsWindow(initial, log, cfg);
    RecencyOrdered(log, cfg.ttl);
    WindowPrune(Run(initial, log, cfg).entries, Recency(log, cfg.ttl), LastTime(log), now, cfg.limit);
  }

  // ----- the persisted table -----

  ghost predicate UniqueLinks(links: seq<Link>) {
    forall i, j :: 0 <= i < j < |links| ==> links[i].code != links[j].code
  }

  /** A link behind an earlier one of the same code. The store makes none; a loaded file may hold some. */
  ghost predicate Shadow(links: seq<Link>, x: Link) {
    exists i, j :: 0 <= i < j < |links| && links[i].code == x.code && links[j] == x
  }

  lemma UniqueMeansNoShadow(links: seq<Link>)
    ensures UniqueLinks(links) <==> forall x :: !Shadow(links, x)
  {
    if !UniqueLinks(links) {
      var i, j :| 0 <= i < j < |links| && links[i].code == links[j].code;
      assert Shadow(links, links[j]);
    }
  }

  /** The link written last for a code, whether or not it is still stored. */
  function LastLink(initial: seq<Link>, log: seq<Op>, code: string, cfg: Config): Option<Link> {
    if log == [] then
      var i := LinkPosition(initial, code);
      if i < |initial| then Some(initial[i]) else None
    else
      var op := log[|log| - 1];
      if op.PutPermanent? && op.code == code then Some(Link(code, op.query, None))
      else if op.PutExpiring? && op.code == code then Some(ExpiringLink(op, cfg))
      else LastLink(initial, log[..|log| - 1], code, cfg)
  }

  lemma {:induction false} RetainSound(links: seq<Link>, unixNow: nat)
    ensures forall l :: l in RetainLinks(links, unixNow) <==> l in links && LiveLink(l, unixNow)
    ensures forall x :: Shadow(RetainLinks(links, unixNow), x) ==> Shadow(links, x)
  {
    if links != [] {
      var n := |links| - 1;
      RetainSound(links[..n], unixNow);
      assert links == links[..n] + [links[n]];
      forall x | Shadow(RetainLinks(links, unixNow), x)
        ensures Shadow(links, x)
      {
        SnocShadow(RetainLinks(links[..n], unixNow), links[..n], links[n], x);
      }
    }
  }

  lemma ShadowOfLast(kept: seq<Link>, last: Link, x: Link) returns (i: nat)
    requires Shadow(kept + [last], x)
    ensures Shadow(kept, x) || (i < |kept| && kept[i].code == x.code && last == x)
  {
    var longer := kept + [last];
    var k, j :| 0 <= k < j < |longer| && longer[k].code == x.code && longer[j] == x;
    i := k;
    assert longer[k] == kept[k];
    if j < |kept| {
      assert longer[j] == kept[j];
    }
  }

  /** A shadow of a thinned-out list with or without the new last link is a shadow of the full list. */
  lemma SnocShadow(kept: seq<Link>, all: seq<Link>, last: Link, x: Link)
    requires forall l :: l in kept ==> l in all
    requires Shadow(kept, x) ==> Shadow(all, x)
    requires Shadow(kept, x) || Shadow(kept + [last], x)
    ensures Shadow(all + [last], x)
  {
    var full := all + [last];
    if Shadow(kept, x) {
      var i, j :| 0 <= i < j < |all| && all[i].code == x.code && all[j] == x;
      assert full[i] == all[i] && full[j] == all[j];
    } else {
      var i := ShadowOfLast(kept, last, x);
      assert kept[i] in all;
      var k :| 0 <= k < |all| && all[k] == kept[i];
      assert full[k] == all[k] && full[|all|] == x;
    }
  }

  /** Overwriting or appending changes exactly one link of one code; shadows behind it stay. */
  lemma UpsertSound(links: seq<Link>, l: Link)
    ensures forall x :: x in Upsert(links, l) <==>
              x == l || (x in links && x.code != l.code) || (Shadow(links, x) && x.code == l.code)
    ensures forall x :: Shadow(Upsert(links, l), x) ==> Shadow(links, x)
  {
    var i := LinkPosition(links, l.code);
    var after := Upsert(links, l);
    forall x
      ensures x in after <==> x == l || (x in links && x.code != l.code) || (Shadow(links, x) && x.code == l.code)
    {
      UpsertMember(links, l, x);
    }
    forall x | Shadow(after, x)
      ensures Shadow(links, x)
    {
      var j, k :| 0 <= j < k < |after| && after[j].code == x.code && after[k] == x;
      assert k != i;
      assert links[j].code == x.code && links[k] == x;
    }
  }

  lemma UpsertMember(links: seq<Link>, l: Link, x: Link)
    ensures x in Upsert(links, l) <==>
              x == l || (x in links && x.code != l.code) || (Shadow(links, x) && x.code == l.code)
  {
    var i := LinkPosition(links, l.code);
    var after := Upsert(links, l);
    if x in after && x != l {
      var k :| 0 <= k < |after| && after[k] == x;
      assert links[k] == x;
      if x.code == l.code {
        assert links[i].code == x.code && i < k;
      }
    }
    if i < |links| {
      assert after[i] == l;
      if x in links && x.code != l.code {
        var k :| 0 <= k < |links| && links[k] == x;
        assert after[k] == x;
      }
    }
    if Shadow(links, x) && x.code == l.code {
      var j, k :| 0 <= j < k < |links| && links[j].code == x.code && links[k] == x;
      assert i <= j && after[k] == x;
    }
  }

  lemma RemoveAtSound(links: seq<Link>, i: nat)
    requires i < |links|
    ensures forall x :: x in RemoveAt(links, i) ==> x in links
    ensures forall x :: x in links && x != links[i] ==> x in RemoveAt(links, i)
  {
    var after := RemoveAt(links, i);
    forall x | x in links && x != links[i]
      ensures x in after
    {
      var k :| 0 <= k < |links| && links[k] == x;
      assert x == if k < i then after[k] else after[k - 1];
    }
  }

  lemma RemoveAtShadows(links: seq<Link>, i: nat)
    requires i < |links|
    ensures forall x :: Shadow(RemoveAt(links, i), x) ==> Shadow(links, x)
  {
    var after := RemoveAt(links, i);
    forall x | Shadow(after, x)
      ensures Shadow(links, x)
    {
      var j, k :| 0 <= j < k < |after| && after[j].code == x.code && after[k] == x;
      var j', k' := if j < i then j else j + 1, if k < i then k else k + 1;
      assert links[j'].code == x.code && links[k'] == x;
    }
  }

  lemma {:induction false} CountSplit(a: seq<Link>, b: seq<Link>)
    ensures ExpiringCount(a + b) == ExpiringCount(a) + ExpiringCount(b)
  {
    if b == [] {
      assert a + b == a;
    } else {
      var n := |b| - 1;
      CountSplit(a, b[..n]);
      assert (a + b)[..|a| + n] == a + b[..n];
    }
  }

  lemma {:induction false} CountRemoveAt(links: seq<Link>, i: nat)
    requires i < |links| && links[i].expiry.Some?
    ensures ExpiringCount(RemoveAt(links, i)) == ExpiringCount(links) - 1
  {
    assert links == links[..i] + ([links[i]] + links[i + 1..]);
    CountSplit(links[..i], [links[i]] + links[i + 1..]);
    CountSplit([links[i]], links[i + 1..]);
    CountSplit(links[..i], links[i + 1..]);
    assert [links[i]][..0] == [];
  }

  /**
   * The eviction loop ends with fewer than `limit` expiring links, keeps every permanent link,
   * and whatever it drops expires no later than anything it keeps.
   */
  lemma {:induction false} EvictSound(links: seq<Link>, limit: nat)
    requires limit > 0
    ensures var kept := Evict(links, limit);
            && ExpiringCount(kept) == Min(ExpiringCount(links), limit - 1)
            && (forall x :: Shadow(kept, x) ==> Shadow(links, x))
            && (forall x :: x in kept ==> x in links)
            && (forall x :: x in links && x.expiry.None? ==> x in kept)
            && (forall x, y :: x in links && x !in kept && y in kept && y.expiry.Some? ==>
                  x.expiry.Some? && x.expiry.value <= y.expiry.value)
    decreases |links|
  {
    if ExpiringCount(links) >= limit {
      var i := Soonest(links);
      var rest := RemoveAt(links, i);
      RemoveAtSound(links, i);
      RemoveAtShadows(links, i);
      CountRemoveAt(links, i);
      EvictSound(rest, limit);
      var kept := Evict(rest, limit);
      forall x, y | x in links && x !in kept && y in kept && y.expiry.Some?
        ensures x.expiry.Some? && x.expiry.value <= y.expiry.value
      {
        if x == links[i] {
          assert y in rest && y in links;
          var k :| 0 <= k < |links| && links[k] == y;
        }
      }
    }
  }

  /**
   * `put_persisted_expiring`: the new link is stored, permanent links under other codes survive,
   * a live link under another code is lost only to one that expires later, and no shadow is made.
   */
  lemma InsertExpiringSound(links: seq<Link>, l: Link, unixNow: nat, limit: nat)
    requires limit > 0
    ensures var after := InsertExpiring(links, l, unixNow, limit);
            && l in after
            && (forall x :: Shadow(after, x) ==> Shadow(links, x))
            && (forall x :: x in after ==>
                  x == l || (x in links && LiveLink(x, unixNow) && (x.code != l.code || Shadow(links, x))))
            && (forall x :: x in links && x.code != l.code && x.expiry.None? ==> x in after)
            && (forall x, y :: x in links && x.code != l.code && LiveLink(x, unixNow) && x !in after ==>
                  (y in after && y != l && y.expiry.Some? ==> x.expiry.Some? && x.expiry.value <= y.expiry.value))
  {
    RetainSound(links, unixNow);
    var live := RetainLinks(links, unixNow);
    if LinkPosition(live, l.code) < |live| {
      UpsertSound(live, l);
      ShadowsAreMembers(live);
    } else {
      EvictSound(live, limit);
      assert forall x :: x in live ==> x.code != l.code;
      NewCodeShadows(Evict(live, limit), l);
    }
  }

  lemma ShadowsAreMembers(links: seq<Link>)
    ensures forall x :: Shadow(links, x) ==> x in links
  {
  }

  lemma NewCodeShadows(links: seq<Link>, l: Link)
    requires forall x :: x in links ==> x.code != l.code
    ensures forall x :: Shadow(links + [l], x) ==> Shadow(links, x)
  {
    forall x | Shadow(links + [l], x)
      ensures Shadow(links, x)
    {
      var i, j :| 0 <= i < j < |links + [l]| && (links + [l])[i].code == x.code && (links + [l])[j] == x;
      assert links[i] in links;
      assert links[i].code == x.code && links[j] == x;
    }
  }

  /**
   * The bound on expiring links and exactly when it holds. A new code always ends within the
   * limit. Overwriting skips the eviction loop: an expiring link keeps the count, a permanent
   * link that becomes expiring adds one.
   */
  lemma ExpiringCountAfter(links: seq<Link>, l: Link, unixNow: nat, limit: nat)
    requires limit > 0 && l.expiry.Some?
    ensures var live := RetainLinks(links, unixNow);
            var count := ExpiringCount(live);
            var i := LinkPosition(live, l.code);
            var stored := i < |live|;
            ExpiringCount(InsertExpiring(links, l, unixNow, limit)) <= limit
            <==> !stored || count < limit || (count == limit && live[i].expiry.Some?)
  {
    var live := RetainLinks(links, unixNow);
    var i := LinkPosition(live, l.code);
    if i < |live| {
      CountReplace(live, i, l);
    } else {
      EvictSound(live, limit);
      CountSplit(Evict(live, limit), [l]);
      assert [l][..0] == [];
    }
  }

  lemma {:induction false} CountReplace(links: seq<Link>, i: nat, l: Link)
    requires i < |links|
    ensures ExpiringCount(links[i := l])
         == ExpiringCount(links) - (if links[i].expiry.Some? then 1 else 0) + if l.expiry.Some? then 1 else 0
  {
    assert links == links[..i] + ([links[i]] + links[i + 1..]);
    assert links[i := l] == links[..i] + ([l] + links[i + 1..]);
    CountSplit(links[..i], [links[i]] + links[i + 1..]);
    CountSplit(links[..i], [l] + links[i + 1..]);
    CountSplit([links[i]], links[i + 1..]);
    CountSplit([l], links[i + 1..]);
    assert [links[i]][..0] == [] && [l][..0] == [];
  }

  /** Every stored link is the last one written for its code, or a shadow of the loaded file; permanent ones are all stored. */
  ghost predicate TableOk(links: seq<Link>, initial: seq<Link>, log: seq<Op>, cfg: Config) {
    && (forall x :: Shadow(links, x) ==> Shadow(initial, x))
    && (forall l :: l in links ==> LastLink(initial, log, l.code, cfg) == Some(l) || Shadow(initial, l))
    && (forall code :: PermanentlyLast(initial, log, code, cfg) ==> LastLink(initial, log, code, cfg).value in links)
  }

  predicate PermanentlyLast(initial: seq<Link>, log: seq<Op>, code: string, cfg: Config) {
    var last := LastLink(initial, log, code, cfg);
    last.Some? && last.value.expiry.None?
  }

  lemma LastLinkCode(initial: seq<Link>, log: seq<Op>, code: string, cfg: Config)
    ensures LastLink(initial, log, code, cfg).Some? ==> LastLink(initial, log, code, cfg).value.code == code
  {
  }

  /** Over any sequence of operations and any loaded file; a file that holds no code twice has no shadows. */
  lemma {:induction false} TableIsLastWritten(initial: seq<Link>, log: seq<Op>, cfg: Config)
    requires cfg.limit > 0
    ensures TableOk(Run(initial, log, cfg).permanent, initial, log, cfg)
    ensures UniqueLinks(initial) ==> UniqueLinks(Run(initial, log, cfg).permanent)
  {
    if log == [] {
      InitialTable(initial, cfg);
    } else {
      var earlier, op := log[..|log| - 1], log[|log| - 1];
      TableIsLastWritten(initial, earlier, cfg);
      TableStep(Run(initial, earlier, cfg).permanent, initial, log, cfg);
    }
    UniqueMeansNoShadow(initial);
    UniqueMeansNoShadow(Run(initial, log, cfg).permanent);
  }

  lemma InitialTable(initial: seq<Link>, cfg: Config)
    ensures TableOk(initial, initial, [], cfg)
  {
    forall l | l in initial
      ensures LastLink(initial, [], l.code, cfg) == Some(l) || Shadow(initial, l)
    {
      var k :| 0 <= k < |initial| && initial[k] == l;
      var i := LinkPosition(initial, l.code);
      assert i <= k && initial[i].code == l.code;
    }
  }

  lemma TableStep(links: seq<Link>, initial: seq<Link>, log: seq<Op>, cfg: Config)
    requires cfg.limit > 0 && log != [] && TableOk(links, initial, log[..|log| - 1], cfg)
    ensures TableOk(Apply(Store([], links), log[|log| - 1], cfg).permanent, initial, log, cfg)
  {
    var op := log[|log| - 1];
    var earlier := log[..|log| - 1];
    match op {
      case PutPermanent(code, query) => UpsertSound(links, Link(code, query, None));
      case PutExpiring(code, query, unixNow) => InsertExpiringSound(links, ExpiringLink(op, cfg), unixNow, cfg.limit);
      case _ =>
    }
    var after := Apply(Store([], links), op, cfg).permanent;
    forall code | PermanentlyLast(initial, log, code, cfg)
      ensures LastLink(initial, log, code, cfg).value in after
    {
      LastLinkCode(initial, earlier, code, cfg);
      if !(op.PutPermanent? && op.code == code) {
        assert PermanentlyLast(initial, earlier, code, cfg);
      }
    }
    forall l | l in after
      ensures LastLink(initial, log, l.code, cfg) == Some(l) || Shadow(initial, l)
    {
      assert l in links ==> LastLink(initial, earlier, l.code, cfg) == Some(l) || Shadow(initial, l);
    }
  }

  // ----- the link written last stays the first of its code -----

  /** The first link of a code: the one an overwrite replaces. */
  function First(links: seq<Link>, code: string): Option<Link> {
    var i := LinkPosition(links, code);
    if i < |links| then Some(links[i]) else None
  }

  lemma FirstConcat(a: seq<Link>, b: seq<Link>, code: string)
    ensures First(a + b, code) == if First(a, code).Some? then First(a, code) else First(b, code)
  {
    var i, j, k := LinkPosition(a, code), LinkPosition(b, code), LinkPosition(a + b, code);
    if i < |a| {
      assert (a + b)[i] == a[i];
      assert k == i;
    } else {
      assert j < |b| ==> (a + b)[|a| + j] == b[j];
      assert k == |a| + j;
    }
  }

  lemma FirstOfOne(l: Link, code: string)
    ensures First([l], code) == if l.code == code then Some(l) else None
  {
  }

  lemma NoFirst(links: seq<Link>, code: string)
    requires forall x :: x in links ==> x.code != code
    ensures First(links, code) == None
  {
  }

  lemma {:induction false} FirstRetained(links: seq<Link>, code: string, unixNow: nat)
    requires First(links, code).Some? && LiveLink(First(links, code).value, unixNow)
    ensures First(RetainLinks(links, unixNow), code) == First(links, code)
  {
    var n := |links| - 1;
    var front, last := links[..n], links[n];
    assert links == front + [last];
    FirstConcat(front, [last], code);
    FirstOfOne(last, code);
    FirstConcat(RetainLinks(front, unixNow), if LiveLink(last, unixNow) then [last] else [], code);
    if First(front, code).Some? {
      FirstRetained(front, code, unixNow);
    } else {
      RetainSound(front, unixNow);
      assert forall x :: x in front ==> x.code != code;
      NoFirst(RetainLinks(front, unixNow), code);
    }
  }

  lemma FirstAfterRemoval(links: seq<Link>, i: nat, code: string)
    requires i < |links| && First(links, code) != Some(links[i])
    ensures First(RemoveAt(links, i), code) == First(links, code)
  {
    var a, b := links[..i], links[i + 1..];
    assert links == a + ([links[i]] + b);
    FirstConcat(a, [links[i]] + b, code);
    FirstConcat([links[i]], b, code);
    FirstOfOne(links[i], code);
    FirstConcat(a, b, code);
  }

  lemma {:induction false} FirstNotEvicted(links: seq<Link>, limit: nat, code: string)
    requires First(links, code).Some? && First(links, code).value.expiry.None?
    ensures First(Evict(links, limit), code) == First(links, code)
    decreases |links|
  {
    if ExpiringCount(links) >= limit && ExpiringCount(links) > 0 {
      var i := Soonest(links);
      FirstAfterRemoval(links, i, code);
      FirstNotEvicted(RemoveAt(links, i), limit, code);
    }
  }

  /** Overwriting or appending makes the link the first of its code and leaves other codes alone. */
  lemma FirstUpserted(links: seq<Link>, l: Link, code: string)
    ensures First(Upsert(links, l), code) == if l.code == code then Some(l) else First(links, code)
  {
    var i := LinkPosition(links, l.code);
    if i < |links| {
      var a, b := links[..i], links[i + 1..];
      assert links == a + ([links[i]] + b) && links[i := l] == a + ([l] + b);
      FirstConcat(a, [links[i]] + b, code);
      FirstConcat([links[i]], b, code);
      FirstConcat(a, [l] + b, code);
      FirstConcat([l], b, code);
      FirstOfOne(links[i], code);
      FirstOfOne(l, code);
      if code == l.code {
        NoFirst(a, code);
      }
    } else {
      FirstConcat(links, [l], code);
      FirstOfOne(l, code);
    }
  }

  lemma FirstInserted(links: seq<Link>, l: Link, unixNow: nat, limit: nat)
    requires limit > 0
    ensures First(InsertExpiring(links, l, unixNow, limit), l.code) == Some(l)
  {
    var live := RetainLinks(links, unixNow);
    if LinkPosition(live, l.code) < |live| {
      FirstUpserted(live, l, l.code);
    } else {
      EvictSound(live, limit);
      assert forall x :: x in live ==> x.code != l.code;
      NoFirst(Evict(live, limit), l.code);
      FirstConcat(Evict(live, limit), [l], l.code);
      FirstOfOne(l, l.code);
    }
  }

  lemma PermanentStaysFirst(links: seq<Link>, l: Link, unixNow: nat, limit: nat, code: string)
    requires limit > 0 && l.code != code && First(links, code).Some? && First(links, code).value.expiry.None?
    ensures First(InsertExpiring(links, l, unixNow, limit), code) == First(links, code)
  {
    var live := RetainLinks(links, unixNow);
    FirstRetained(links, code, unixNow);
    if LinkPosition(live, l.code) < |live| {
      FirstUpserted(live, l, code);
    } else {
      FirstNotEvicted(live, limit, code);
      FirstConcat(Evict(live, limit), [l], code);
    }
  }

  predicate Writes(op: Op, code: string) { (op.PutPermanent? || op.PutExpiring?) && op.code == code }

  /** The link written last for the code has been the first of its code in the table ever since. */
  predicate Held(initial: seq<Link>, log: seq<Op>, code: string, cfg: Config)
    requires cfg.limit > 0
  {
    if log == [] then LinkPosition(initial, code) < |initial|
    else
      || Writes(log[|log| - 1], code)
      || (&& Held(initial, log[..|log| - 1], code, cfg)
          && First(Run(initial, log, cfg).permanent, code) == LastLink(initial, log, code, cfg))
  }

  /** A held link is the first of its code; otherwise the table has only repetitions the file held. */
  ghost predicate CodeOk(links: seq<Link>, initial: seq<Link>, log: seq<Op>, code: string, cfg: Config)
    requires cfg.limit > 0
  {
    var last := LastLink(initial, log, code, cfg);
    if Held(initial, log, code, cfg) then last.Some? && First(links, code) == last
    else forall x :: x in links && x.code == code ==> Shadow(initial, x)
  }

  /** A step keeps or thins out the links of a code it does not write, and makes no shadow of it. */
  lemma OtherCodeThinned(links: seq<Link>, op: Op, cfg: Config, code: string)
    requires cfg.limit > 0 && !Writes(op, code)
    ensures var after := Apply(Store([], links), op, cfg).permanent;
            && (forall x :: x in after && x.code == code ==> x in links)
            && (forall x :: Shadow(after, x) ==> Shadow(links, x))
  {
    match op
    case PutPermanent(_, query) => UpsertSound(links, Link(op.code, query, None));
    case PutExpiring(_, _, unixNow) => InsertExpiringSound(links, ExpiringLink(op, cfg), unixNow, cfg.limit);
    case _ =>
  }

  lemma FirstOrShadow(links: seq<Link>, x: Link)
    requires x in links
    ensures First(links, x.code).Some? && (First(links, x.code) == Some(x) || Shadow(links, x))
  {
    var k :| 0 <= k < |links| && links[k] == x;
    var i := LinkPosition(links, x.code);
    assert i <= k && links[i].code == x.code;
  }

  /** Once the held link is gone, what is left of its code was behind it. */
  lemma LeftoversAreShadows(before: seq<Link>, after: seq<Link>, code: string, x: Link)
    requires forall y :: y in after && y.code == code ==> y in before
    requires forall y :: Shadow(after, y) ==> Shadow(before, y)
    requires First(after, code) != First(before, code) && x in after && x.code == code
    ensures Shadow(before, x)
  {
    FirstOrShadow(after, x);
    if First(after, code) == Some(x) {
      FirstOrShadow(before, x);
    }
  }

  lemma FirstWritten(links: seq<Link>, op: Op, cfg: Config)
    requires cfg.limit > 0 && (op.PutPermanent? || op.PutExpiring?)
    ensures First(Apply(Store([], links), op, cfg).permanent, op.code)
         == Some(if op.PutPermanent? then Link(op.code, op.query, None) else ExpiringLink(op, cfg))
  {
    if op.PutPermanent? {
      FirstUpserted(links, Link(op.code, op.query, None), op.code);
    } else {
      FirstInserted(links, ExpiringLink(op, cfg), op.unixNow, cfg.limit);
    }
  }

  lemma CodeStep(links: seq<Link>, initial: seq<Link>, log: seq<Op>, code: string, cfg: Config)
    requires cfg.limit > 0 && log != [] && links == Run(initial, log[..|log| - 1], cfg).permanent
    requires CodeOk(links, initial, log[..|log| - 1], code, cfg)
    requires forall x :: Shadow(links, x) ==> Shadow(initial, x)
    ensures CodeOk(Run(initial, log, cfg).permanent, initial, log, code, cfg)
  {
    var op := log[|log| - 1];
    var after := Run(initial, log, cfg).permanent;
    assert after == Apply(Store([], links), op, cfg).permanent;
    if Writes(op, code) {
      FirstWritten(links, op, cfg);
    } else {
      OtherCodeThinned(links, op, cfg, code);
      if Held(initial, log[..|log| - 1], code, cfg) && !Held(initial, log, code, cfg) {
        forall x | x in after && x.code == code
          ensures Shadow(initial, x)
        {
          LeftoversAreShadows(links, after, code, x);
        }
      }
    }
  }

  /** Over any sequence of operations and any loaded file. */
  lemma {:induction false} LastStaysFirst(initial: seq<Link>, log: seq<Op>, code: string, cfg: Config)
    requires cfg.limit > 0
    ensures CodeOk(Run(initial, log, cfg).permanent, initial, log, code, cfg)
    ensures PermanentlyLast(initial, log, code, cfg) ==> Held(initial, log, code, cfg)
  {
    if log == [] {
      if LinkPosition(initial, code) == |initial| {
        assert forall x :: x in initial ==> x.code != code;
      }
    } else {
      var earlier, op := log[..|log| - 1], log[|log| - 1];
      LastStaysFirst(initial, earlier, code, cfg);
      TableIsLastWritten(initial, earlier, cfg);
      var links := Run(initial, earlier, cfg).permanent;
      CodeStep(links, initial, log, code, cfg);
      if PermanentlyLast(initial, log, code, cfg) && !Writes(op, code) {
        PermanentKept(links, op, cfg, code);
      }
    }
  }

  lemma PermanentKept(links: seq<Link>, op: Op, cfg: Config, code: string)
    requires cfg.limit > 0 && !Writes(op, code) && First(links, code).Some? && First(links, code).value.expiry.None?
    ensures First(Apply(Store([], links), op, cfg).permanent, code) == First(links, code)
  {
    match op
    case PutPermanent(_, query) => FirstUpserted(links, Link(op.code, query, None), code);
    case PutExpiring(_, _, unixNow) => PermanentStaysFirst(links, ExpiringLink(op, cfg), unixNow, cfg.limit, code);
    case _ =>
  }

  /** Held means stored, unless the file also held an expiring repetition equal to the link written last. */
  lemma HeldWhenStored(initial: seq<Link>, log: seq<Op>, code: string, cfg: Config)
    requires cfg.limit > 0 && LastLink(initial, log, code, cfg).Some?
    ensures var last := LastLink(initial, log, code, cfg).value;
            last.expiry.None? || !Shadow(initial, last) ==>
              (Held(initial, log, code, cfg) <==> last in Run(initial, log, cfg).permanent)
  {
    LastStaysFirst(initial, log, code, cfg);
    LastLinkCode(initial, log, code, cfg);
  }

  // ----- get -----

  /** The record an answer comes from. */
  datatype Answer = Persisted(link: Link) | Listed(entry: Entry) | Missing

  function QueryOf(a: Answer): Option<string> {
    match a
    case Persisted(link) => Some(link.query)
    case Listed(entry) => Some(entry.query)
    case Missing => None
  }

  function FromList(entries: seq<Entry>, code: string): Answer {
    var p := Position(entries, code);
    if p < |entries| then Listed(entries[p]) else Missing
  }

  /** The record `get` answers from. */
  function GetAnswer(s: Store, code: string, now: nat, unixNow: nat): Answer {
    var i := LiveLinkPosition(s.permanent, code, unixNow);
    if i < |s.permanent| then Persisted(s.permanent[i]) else FromList(Prune(s.entries, now), code)
  }

  /** The link written last is still held and has not expired. */
  predicate LastAnswers(initial: seq<Link>, log: seq<Op>, code: string, cfg: Config, unixNow: nat)
    requires cfg.limit > 0
  {
    var last := LastLink(initial, log, code, cfg);
    last.Some? && Held(initial, log, code, cfg) && LiveLink(last.value, unixNow)
  }

  /** The record a map answers from: the link written last, else the live entry of the recency window. */
  function MapAnswer(initial: seq<Link>, log: seq<Op>, cfg: Config, code: string, now: nat, unixNow: nat): Answer
    requires cfg.limit > 0
  {
    var recency := Recency(log, cfg.ttl);
    if LastAnswers(initial, log, code, cfg, unixNow) then Persisted(LastLink(initial, log, code, cfg).value)
    else FromList(Prune(recency[..Min(|recency|, cfg.limit)], now), code)
  }

  /** A repetition the file held is stored and live. */
  ghost predicate LiveRepetition(links: seq<Link>, initial: seq<Link>, code: string, unixNow: nat) {
    exists x :: x in links && x.code == code && LiveLink(x, unixNow) && Shadow(initial, x)
  }

  /** What the persisted table says about a code: the link written last, a repetition, or nothing. */
  lemma TableAnswers(links: seq<Link>, initial: seq<Link>, log: seq<Op>, cfg: Config, code: string, unixNow: nat)
    requires cfg.limit > 0 && CodeOk(links, initial, log, code, cfg)
    requires forall x :: Shadow(links, x) ==> Shadow(initial, x)
    ensures var i := LiveLinkPosition(links, code, unixNow);
            if LastAnswers(initial, log, code, cfg, unixNow)
            then i < |links| && LastLink(initial, log, code, cfg) == Some(links[i])
            else && (i < |links| <==> LiveRepetition(links, initial, code, unixNow))
                 && (i < |links| ==> Shadow(initial, links[i]))
  {
    var i, f := LiveLinkPosition(links, code, unixNow), LinkPosition(links, code);
    if LastAnswers(initial, log, code, cfg, unixNow) {
      assert i == f;
    } else {
      if i < |links| {
        assert links[i] in links;
        if Held(initial, log, code, cfg) {
          assert f < i && links[f].code == links[i].code;
        }
        assert Shadow(initial, links[i]);
      }
      if LiveRepetition(links, initial, code, unixNow) {
        var x :| x in links && x.code == code && LiveLink(x, unixNow) && Shadow(initial, x);
        var k :| 0 <= k < |links| && links[k] == x;
      }
    }
  }

  lemma ListAnswers(initial: seq<Link>, log: seq<Op>, cfg: Config, code: string, now: nat)
    requires cfg.limit > 0 && ClockOk(log) && LastTime(log) <= now
    ensures var recency := Recency(log, cfg.ttl);
            FromList(Prune(Run(initial, log, cfg).entries, now), code)
            == FromList(Prune(recency[..Min(|recency|, cfg.limit)], now), code)
  {
    ListIsLruWindow(initial, log, cfg, now);
  }

  /**
   * `get` over any sequence of operations and any loaded file answers from the record a map answers
   * from, if and only if the link written last for the code is held and live or the table has no
   * live repetition of the code that the file held. Where it deviates it answers with such a
   * repetition. So a held live link is always found, in particular a permanent one; and a file that
   * holds no code twice always answers like a map.
   */
  lemma GetRefinesMap(initial: seq<Link>, log: seq<Op>, cfg: Config, code: string, now: nat, unixNow: nat)
    requires cfg.limit > 0 && ClockOk(log) && LastTime(log) <= now
    ensures var s := Run(initial, log, cfg);
            var last := LastLink(initial, log, code, cfg);
            var get, expected := GetAnswer(s, code, now, unixNow), MapAnswer(initial, log, cfg, code, now, unixNow);
            && Lookup(s.permanent, Prune(s.entries, now), code, unixNow) == QueryOf(get)
            && (get == expected <==> LastAnswers(initial, log, code, cfg, unixNow) || !LiveRepetition(s.permanent, initial, code, unixNow))
            && (get != expected ==> get.Persisted? && Shadow(initial, get.link) && LiveLink(get.link, unixNow) && get.link.code == code)
            && (LastAnswers(initial, log, code, cfg, unixNow) ==> get == Persisted(last.value))
            && (PermanentlyLast(initial, log, code, cfg) ==> get == Persisted(last.value))
            && (UniqueLinks(initial) ==> get == expected)
  {
    var s := Run(initial, log, cfg);
    TableIsLastWritten(initial, log, cfg);
    LastStaysFirst(initial, log, code, cfg);
    ListAnswers(initial, log, cfg, code, now);
    TableAnswers(s.permanent, initial, log, cfg, code, unixNow);
    if UniqueLinks(initial) {
      UniqueMeansNoShadow(initial);
      assert !LiveRepetition(s.permanent, initial, code, unixNow);
    }
  }

  /** A link that was written last, is stored and is live is what `get` returns, whatever else the file held. */
  lemma StoredLastAnswers(initial: seq<Link>, log: seq<Op>, cfg: Config, code: string, now: nat, unixNow: nat)
    requires cfg.limit > 0 && ClockOk(log) && LastTime(log) <= now && LastLink(initial, log, code, cfg).Some?
    ensures var s := Run(initial, log, cfg);
            var last := LastLink(initial, log, code, cfg).value;
            (last.expiry.None? || !Shadow(initial, last)) && last in s.permanent && LiveLink(last, unixNow) ==>
              Lookup(s.permanent, Prune(s.entries, now), code, unixNow) == Some(last.query)
  {
    GetRefinesMap(initial, log, cfg, code, now, unixNow);
    HeldWhenStored(initial, log, code, cfg);
  }

  /** The deviation is real: behind an expired link its repetition answers. */
  lemma ShadowCanAnswer(code: string, query: string, other: string, cfg: Config)
    requires cfg.limit > 0
    ensures var initial := [Link(code, query, Some(5)), Link(code, other, None)];
            && MapAnswer(initial, [], cfg, code, 0, 5) == Missing
            && GetAnswer(Run(initial, [], cfg), code, 0, 5) == Persisted(Link(code, other, None))
  {
    var initial := [Link(code, query, Some(5)), Link(code, other, None)];
    assert LinkPosition(initial, code) == 0;
    assert LiveLinkPosition(initial, code, 5) == 1;
  }

  // ----- lifetimes -----

  /** No operation after number i writes the persisted link of the code. */
  ghost predicate NotRewritten(log: seq<Op>, i: nat, code: string) {
    forall j :: i < j < |log| ==> !Writes(log[j], code)
  }

  lemma {:induction false} LastLinkIs(initial: seq<Link>, log: seq<Op>, i: nat, cfg: Config)
    requires i < |log| && log[i].PutExpiring? && NotRewritten(log, i, log[i].code)
    ensures LastLink(initial, log, log[i].code, cfg) == Some(ExpiringLink(log[i], cfg))
  {
    var n := |log| - 1;
    if i < n {
      LastLinkIs(initial, log[..n], i, cfg);
    }
  }

  /**
   * The life of an expiring link: written at `at`, not rewritten and still held, it is what `get`
   * returns at every time below `at` plus the time to live (or below the largest u64), and from then
   * on `get` does not answer with it.
   */
  lemma ExpiringLinkLifetime(initial: seq<Link>, log: seq<Op>, i: nat, cfg: Config, now: nat, unixNow: nat)
    requires cfg.limit > 0 && ClockOk(log) && LastTime(log) <= now
    requires i < |log| && log[i].PutExpiring? && NotRewritten(log, i, log[i].code) && Held(initial, log, log[i].code, cfg)
    ensures var s, op := Run(initial, log, cfg), log[i];
            var deadline := Min(op.unixNow + cfg.ttlSeconds, 0xFFFF_FFFF_FFFF_FFFF);
            && (unixNow < deadline ==> Lookup(s.permanent, Prune(s.entries, now), op.code, unixNow) == Some(op.query))
            && (unixNow >= deadline ==> GetAnswer(s, op.code, now, unixNow) != Persisted(Link(op.code, op.query, Some(deadline))))
  {
    LastLinkIs(initial, log, i, cfg);
    GetRefinesMap(initial, log, cfg, log[i].code, now, unixNow);
  }

  /** No operation after number i puts the code into the list. */
  ghost predicate NotPutAgain(log: seq<Op>, i: nat, code: string) {
    forall j :: i < j < |log| ==> !(log[j].Put? && log[j].code == code)
  }

  /** The entry holds its code within the first `bound` ranks. */
  predicate Ranked(recency: seq<Entry>, entry: Entry, bound: nat) {
    var p := Position(recency, entry.code);
    p < |recency| && p <= bound && recency[p] == entry
  }

  lemma RankStep(log: seq<Op>, ttl: nat, entry: Entry, bound: nat)
    requires log != [] && Ranked(Recency(log[..|log| - 1], ttl), entry, bound)
    requires !(log[|log| - 1].Put? && log[|log| - 1].code == entry.code)
    ensures Ranked(Recency(log, ttl), entry, bound + 1)
  {
    var before, op := Recency(log[..|log| - 1], ttl), log[|log| - 1];
    if op.Put? {
      PositionAfterPut(before, Entry(op.code, op.query, op.stampAt + ttl), entry.code);
    }
  }

  /** The rank of a code is at most the number of operations since it was put. */
  lemma {:induction false} RankOfPut(log: seq<Op>, i: nat, ttl: nat)
    requires i < |log| && log[i].Put? && NotPutAgain(log, i, log[i].code)
    ensures Ranked(Recency(log, ttl), Entry(log[i].code, log[i].query, log[i].stampAt + ttl), |log| - 1 - i)
  {
    var n, entry := |log| - 1, Entry(log[i].code, log[i].query, log[i].stampAt + ttl);
    if i < n {
      RankOfPut(log[..n], i, ttl);
      RankStep(log, ttl, entry, n - 1 - i);
    } else {
      PositionIs(Recency(log, ttl), entry.code, 0);
    }
  }

  lemma PositionIs(s: seq<Entry>, code: string, i: nat)
    requires i < |s| && s[i].code == code && forall j :: 0 <= j < i ==> s[j].code != code
    ensures Position(s, code) == i
  {
  }

  lemma PositionWithout(s: seq<Entry>, other: string, code: string)
    requires Position(s, code) < |s| && other != code
    ensures var w, p := Without(s, other), Position(Without(s, other), code);
            p < |w| && p <= Position(s, code) && w[p] == s[Position(s, code)]
  {
    var i, b, w := Position(s, other), Position(s, code), Without(s, other);
    var q := if i < b then b - 1 else b;
    assert q < |w| && w[q] == s[b];
    forall j | 0 <= j < q
      ensures w[j].code != code
    {
      WithoutAt(s, other, j);
    }
    PositionIs(w, code, q);
  }

  lemma PositionAfterPut(before: seq<Entry>, entry: Entry, code: string)
    requires Position(before, code) < |before| && entry.code != code
    ensures var after, p := [entry] + Without(before, entry.code), Position([entry] + Without(before, entry.code), code);
            p < |after| && p <= Position(before, code) + 1 && after[p] == before[Position(before, code)]
  {
    PositionWithout(before, entry.code, code);
    var rest := Without(before, entry.code);
    assert ([entry] + rest)[1..] == rest;
  }

  /**
   * The life of a listed entry: put at `stampAt`, not put again and among the `limit` most recent
   * codes, it is found at every time below `stampAt` plus the time to live and never afterwards.
   */
  lemma EntryLifetime(initial: seq<Link>, log: seq<Op>, i: nat, cfg: Config, now: nat)
    requires cfg.limit > 0 && ClockOk(log) && LastTime(log) <= now
    requires i < |log| && log[i].Put? && NotPutAgain(log, i, log[i].code)
    requires Position(Recency(log, cfg.ttl), log[i].code) < cfg.limit
    ensures var op := log[i];
            FromList(Prune(Run(initial, log, cfg).entries, now), op.code)
            == if now < op.stampAt + cfg.ttl then Listed(Entry(op.code, op.query, op.stampAt + cfg.ttl)) else Missing
  {
    var recency, code := Recency(log, cfg.ttl), log[i].code;
    RankOfPut(log, i, cfg.ttl);
    RecencyOrdered(log, cfg.ttl);
    ListAnswers(initial, log, cfg, code, now);
    var window := recency[..Min(|recency|, cfg.limit)];
    PruneIsPrefix(window, now);
    PositionInPrefix(recency, |window|, code);
    PositionInPrefix(window, LiveCount(window, now), code);
    var p := Position(recency, code);
    assert window[p] == recency[p];
  }

  // ----- the bound on expiring links over whole runs -----

  lemma {:induction false} RetainCount(links: seq<Link>, unixNow: nat)
    ensures ExpiringCount(RetainLinks(links, unixNow)) <= ExpiringCount(links)
  {
    if links != [] {
      var n := |links| - 1;
      RetainCount(links[..n], unixNow);
      var kept := RetainLinks(links[..n], unixNow);
      assert (kept + [links[n]])[..|kept|] == kept && kept + [] == kept;
    }
  }

  lemma UpsertPermanentCount(links: seq<Link>, l: Link)
    requires l.expiry.None?
    ensures ExpiringCount(Upsert(links, l)) <= ExpiringCount(links)
  {
    var i := LinkPosition(links, l.code);
    if i < |links| {
      CountReplace(links, i, l);
    } else {
      assert (links + [l])[..|links|] == links;
    }
  }

  /** The call overwrites a live permanent link next to a full set of live expiring ones. */
  predicate Overflows(links: seq<Link>, op: Op, limit: nat) {
    op.PutExpiring?
    && var live := RetainLinks(links, op.unixNow);
       var i := LinkPosition(live, op.code);
       i < |live| && live[i].expiry.None? && ExpiringCount(live) >= limit
  }

  ghost predicate NeverOverflows(initial: seq<Link>, log: seq<Op>, cfg: Config)
    requires cfg.limit > 0
  {
    forall n :: 0 <= n < |log| ==> !Overflows(Run(initial, log[..n], cfg).permanent, log[n], cfg.limit)
  }

  ghost predicate AlwaysWithin(initial: seq<Link>, log: seq<Op>, cfg: Config)
    requires cfg.limit > 0
  {
    forall n :: 0 <= n <= |log| ==> ExpiringCount(Run(initial, log[..n], cfg).permanent) <= cfg.limit
  }

  lemma WithinStep(links: seq<Link>, op: Op, cfg: Config)
    requires cfg.limit > 0 && ExpiringCount(links) <= cfg.limit
    ensures ExpiringCount(Apply(Store([], links), op, cfg).permanent) <= cfg.limit <==> !Overflows(links, op, cfg.limit)
  {
    match op {
      case PutPermanent(code, query) => UpsertPermanentCount(links, Link(code, query, None));
      case PutExpiring(code, query, unixNow) =>
        RetainCount(links, unixNow);
        ExpiringCountAfter(links, ExpiringLink(op, cfg), unixNow, cfg.limit);
      case _ =>
    }
  }

  lemma RunStep(initial: seq<Link>, log: seq<Op>, cfg: Config, n: nat)
    requires cfg.limit > 0 && n < |log|
    ensures Run(initial, log[..n + 1], cfg).permanent == Apply(Store([], Run(initial, log[..n], cfg).permanent), log[n], cfg).permanent
  {
    assert log[..n + 1][..n] == log[..n];
  }

  lemma {:induction false} WithinUpTo(initial: seq<Link>, log: seq<Op>, cfg: Config, n: nat)
    requires cfg.limit > 0 && n <= |log| && ExpiringCount(initial) <= cfg.limit && NeverOverflows(initial, log, cfg)
    ensures ExpiringCount(Run(initial, log[..n], cfg).permanent) <= cfg.limit
  {
    if n > 0 {
      WithinUpTo(initial, log, cfg, n - 1);
      RunStep(initial, log, cfg, n - 1);
      WithinStep(Run(initial, log[..n - 1], cfg).permanent, log[n - 1], cfg);
    }
  }

  /** Over a whole run the limit is respected throughout if and only if no call overflows it. */
  lemma LimitHoldsExactlyWhen(initial: seq<Link>, log: seq<Op>, cfg: Config)
    requires cfg.limit > 0 && ExpiringCount(initial) <= cfg.limit
    ensures AlwaysWithin(initial, log, cfg) <==> NeverOverflows(initial, log, cfg)
  {
    if NeverOverflows(initial, log, cfg) {
      forall n | 0 <= n <= |log|
        ensures ExpiringCount(Run(initial, log[..n], cfg).permanent) <= cfg.limit
      {
        WithinUpTo(initial, log, cfg, n);
      }
    }
    if AlwaysWithin(initial, log, cfg) {
      forall n | 0 <= n < |log|
        ensures !Overflows(Run(initial, log[..n], cfg).permanent, log[n], cfg.limit)
      {
        RunStep(initial, log, cfg, n);
        assert ExpiringCount(Run(initial, log[..n + 1], cfg).permanent) <= cfg.limit;
        WithinStep(Run(initial, log[..n], cfg).permanent, log[n], cfg);
      }
    }
  }

  /** The link last written for the code is permanent, or so is a shadow of the code in the loaded file. */
  ghost predicate MayBePermanent(initial: seq<Link>, log: seq<Op>, code: string, cfg: Config) {
    PermanentlyLast(initial, log, code, cfg) || exists x :: Shadow(initial, x) && x.code == code && x.expiry.None?
  }

  lemma OverflowMeansPermanent(initial: seq<Link>, log: seq<Op>, op: Op, cfg: Config)
    requires cfg.limit > 0
    requires Overflows(Run(initial, log, cfg).permanent, op, cfg.limit)
    ensures MayBePermanent(initial, log, op.code, cfg)
  {
    var links := Run(initial, log, cfg).permanent;
    var live := RetainLinks(links, op.unixNow);
    RetainSound(links, op.unixNow);
    assert live[LinkPosition(live, op.code)] in live;
    TableIsLastWritten(initial, log, cfg);
  }

  /** Whoever never turns a permanent link into an expiring one stays within the limit. */
  lemma LimitHolds(initial: seq<Link>, log: seq<Op>, cfg: Config)
    requires cfg.limit > 0 && ExpiringCount(initial) <= cfg.limit
    requires forall n :: 0 <= n < |log| && log[n].PutExpiring? ==> !MayBePermanent(initial, log[..n], log[n].code, cfg)
    ensures AlwaysWithin(initial, log, cfg)
  {
    forall n | 0 <= n < |log|
      ensures !Overflows(Run(initial, log[..n], cfg).permanent, log[n], cfg.limit)
    {
      if Overflows(Run(initial, log[..n], cfg).permanent, log[n], cfg.limit) {
        OverflowMeansPermanent(initial, log[..n], log[n], cfg);
      }
    }
    LimitHoldsExactlyWhen(initial, log, cfg);
  }

  lemma FirstExpiring(op: Op, cfg: Config)
    requires cfg.limit == 1 && op.PutExpiring?
    ensures Run([], [op], cfg).permanent == [ExpiringLink(op, cfg)]
  {
    assert [op][..0] == [];
  }

  lemma ThenPermanent(links: seq<Link>, log: seq<Op>, code: string, query: string, cfg: Config)
    requires cfg.limit > 0 && |links| == 1 && links[0].code != code && Run([], log, cfg).permanent == links
    ensures Run([], log + [PutPermanent(code, query)], cfg).permanent == links + [Link(code, query, None)]
  {
    assert (log + [PutPermanent(code, query)])[..|log|] == log;
    assert LinkPosition(links, code) == 1;
  }

  lemma PermanentTurnedExpiring(a: Link, b: Link, l: Link, unixNow: nat)
    requires a.code != b.code && a.expiry.Some? && LiveLink(a, unixNow) && b.expiry.None? && l.code == b.code && l.expiry.Some?
    ensures ExpiringCount([a, b]) == 1 < ExpiringCount(InsertExpiring([a, b], l, unixNow, 1))
  {
    var links := [a, b];
    assert links[..1] == [a] && [a][..0] == [];
    assert RetainLinks([a], unixNow) == [a] && ExpiringCount([a]) == 1;
    assert RetainLinks(links, unixNow) == links;
    ExpiringCountAfter(links, l, unixNow, 1);
  }

  /**
   * The limit can be exceeded, at any time: with room for one expiring link, store one, store a
   * permanent one under another code, and make that one expiring before the first has expired.
   */
  lemma LimitCanBeExceeded(a: string, b: string, query: string, first: nat, later: nat, cfg: Config)
    requires a != b && cfg.limit == 1 && later < ExpiryAt(first, cfg.ttlSeconds)
    ensures var log := [PutExpiring(a, query, first)] + [PutPermanent(b, query)] + [PutExpiring(b, query, later)];
            ExpiringCount(Run([], log, cfg).permanent) > cfg.limit
  {
    var put, again := PutExpiring(a, query, first), PutExpiring(b, query, later);
    var before := [put] + [PutPermanent(b, query)];
    FirstExpiring(put, cfg);
    ThenPermanent([ExpiringLink(put, cfg)], [put], b, query, cfg);
    assert (before + [again])[..|before|] == before;
    var stored, permanent := ExpiringLink(put, cfg), Link(b, query, None);
    assert [stored] + [permanent] == [stored, permanent];
    PermanentTurnedExpiring(stored, permanent, ExpiringLink(again, cfg), later);
  }
}
