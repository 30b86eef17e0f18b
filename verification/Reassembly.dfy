/** The bounded, expiring table that puts UDP fragments back together (src/protocol/udp.rs). */
module Reassembly {
  import opened Seqs
  import opened Varint
  import opened UdpCodec

  /** Ten seconds; instants count milliseconds. */
  const REASSEMBLY_TIMEOUT: nat := 10_000
  const MAX_INCOMPLETE_PACKETS: nat := 1024

  datatype Key = Key(session: U32, packet: U16)

  datatype Partial = Partial(updatedAt: nat, destination: Bytes, fragments: seq<Option<Bytes>>)

  type Table = map<Key, Partial>

  type Outcome = Result<Option<Message>, UdpError>

  /**
   * One call of `push_at`. The hash map's iteration order decides which of several equally old
   * packets `min_by_key` picks; `victim` is that choice and matters only when a packet is evicted.
   */
  datatype Event = Event(message: Message, now: nat, victim: Key)

  datatype Pushed = Pushed(table: Table, outcome: Outcome)

  function KeyOf(m: Message): Key { Key(m.sessionId, m.packetId) }

  /** `duration_since` saturates at zero. */
  function Age(now: nat, earlier: nat): nat { if now >= earlier then now - earlier else 0 }

  predicate Expired(p: Partial, now: nat) { Age(now, p.updatedAt) >= REASSEMBLY_TIMEOUT }

  function Live(t: Table, now: nat): Table {
    map k | k in t && !Expired(t[k], now) :: t[k]
  }

  /** The message is one fragment of several and its index is in range. */
  predicate IsFragment(m: Message) { m.fragmentCount > 1 && m.fragmentId < m.fragmentCount }

  ghost predicate Oldest(t: Table, k: Key) {
    k in t && forall other :: other in t ==> t[k].updatedAt <= t[other].updatedAt
  }

  predicate MustEvict(live: Table, key: Key) { key !in live && |live| >= MAX_INCOMPLETE_PACKETS }

  /** The victim named by the event is one `min_by_key` may return. */
  ghost predicate Legal(t: Table, e: Event) {
    IsFragment(e.message) && MustEvict(Live(t, e.now), KeyOf(e.message)) ==> Oldest(Live(t, e.now), e.victim)
  }

  function Admit(live: Table, key: Key, victim: Key): Table {
    if MustEvict(live, key) then live - {victim} else live
  }

  function Empty(count: nat): seq<Option<Bytes>> { seq(count, _ => None) }

  predicate Complete(fragments: seq<Option<Bytes>>) {
    forall i :: 0 <= i < |fragments| ==> fragments[i].Some?
  }

  function Values(fragments: seq<Option<Bytes>>): (r: seq<Bytes>)
    requires Complete(fragments)
    ensures |r| == |fragments| && forall i :: 0 <= i < |r| ==> fragments[i] == Some(r[i])
  {
    seq(|fragments|, i requires 0 <= i < |fragments| => fragments[i].value)
  }

  function Finish(key: Key, destination: Bytes, fragments: seq<Option<Bytes>>): Outcome
    requires Complete(fragments)
  {
    var payload := Concat(Values(fragments));
    if |payload| > MAX_UDP_SIZE then Err(PayloadTooLarge)
    else Ok(Some(Message(key.session, key.packet, 0, 1, destination, payload)))
  }

  predicate Mismatch(p: Partial, m: Message) {
    p.destination != m.destination || |p.fragments| != m.fragmentCount
  }

  function Fill(p: Partial, m: Message): seq<Option<Bytes>>
    requires IsFragment(m) && !Mismatch(p, m)
  {
    p.fragments[m.fragmentId := Some(m.payload)]
  }

  /** The packet a fragment is added to: the stored one, or a new empty one. */
  function Target(live: Table, m: Message, now: nat): Partial {
    if KeyOf(m) in live then live[KeyOf(m)] else Partial(now, m.destination, Empty(m.fragmentCount))
  }

  function AddFragment(live: Table, e: Event): Pushed
    requires IsFragment(e.message)
  {
    var key := KeyOf(e.message);
    var table := Admit(live, key, e.victim);
    var p := Target(live, e.message, e.now);
    if Mismatch(p, e.message) then Pushed(table - {key}, Err(InvalidFragment)) else
    var filled := Fill(p, e.message);
    if Complete(filled) then Pushed(table - {key}, Finish(key, p.destination, filled))
    else Pushed(table[key := Partial(e.now, p.destination, filled)], Ok(None))
  }

  /** One call of `push_at` on values. */
  function Push(t: Table, e: Event): Pushed {
    var live := Live(t, e.now);
    if e.message.fragmentCount <= 1 then Pushed(live, Ok(Some(e.message)))
    else if e.message.fragmentId >= e.message.fragmentCount then Pushed(live, Err(InvalidFragment))
    else AddFragment(live, e)
  }

  // ----- the mutable reassembler -----

  class UdpReassembler {
    var packets: Table

    constructor ()
      ensures packets == map[]
    {
      packets := map[];
    }

    method PushAt(message: Message, now: nat) returns (r: Outcome, ghost victim: Key)
      modifies this
      ensures Legal(old(packets), Event(message, now, victim))
      ensures Pushed(packets, r) == Push(old(packets), Event(message, now, victim))
    {
      var key := KeyOf(message);
      victim := key;
      packets := Live(packets, now);
      ghost var live := packets;
      if message.fragmentCount <= 1 {
        return Ok(Some(message)), victim;
      }
      if message.fragmentId >= message.fragmentCount {
        return Err(InvalidFragment), victim;
      }
      if key !in packets && |packets| >= MAX_INCOMPLETE_PACKETS {
        var oldest := FindOldest(packets);
        victim := oldest;
        packets := packets - {oldest};
      }
      r := AddToPacket(live, message, now, victim);
    }

    /** The entry API part of `push_at`: find or create the packet, fill the slot, hand out a full one. */
    method AddToPacket(ghost live: Table, message: Message, now: nat, ghost victim: Key) returns (r: Outcome)
      requires IsFragment(message)
      requires packets == Admit(live, KeyOf(message), victim)
      requires MustEvict(live, KeyOf(message)) ==> victim in live
      modifies this
      ensures Pushed(packets, r) == AddFragment(live, Event(message, now, victim))
    {
      var key := KeyOf(message);
      var partial := if key in packets then packets[key] else Partial(now, message.destination, Empty(message.fragmentCount));
      if partial.destination != message.destination || |partial.fragments| != message.fragmentCount {
        packets := packets - {key};
        return Err(InvalidFragment);
      }
      var filled := partial.fragments[message.fragmentId := Some(message.payload)];
      var full := AllPresent(filled);
      if !full {
        packets := packets[key := Partial(now, partial.destination, filled)];
        return Ok(None);
      }
      packets := packets - {key};
      var payload := Join(filled);
      if |payload| > MAX_UDP_SIZE {
        return Err(PayloadTooLarge);
      }
      return Ok(Some(Message(key.session, key.packet, 0, 1, partial.destination, payload)));
    }
  }

  /** The scan behind `min_by_key`. */
  method FindOldest(t: Table) returns (oldest: Key)
    requires |t| > 0
    ensures Oldest(t, oldest)
  {
    assert t.Keys != {};
    oldest :| oldest in t;
    var left := t.Keys - {oldest};
    while left != {}
      invariant left <= t.Keys && oldest in t
      invariant forall k :: k in t && k !in left ==> t[oldest].updatedAt <= t[k].updatedAt
      decreases left
    {
      var k :| k in left;
      left := left - {k};
      if t[k].updatedAt < t[oldest].updatedAt {
        oldest := k;
      }
    }
  }

  method AllPresent(fragments: seq<Option<Bytes>>) returns (full: bool)
    ensures full == Complete(fragments)
  {
    for i := 0 to |fragments|
      invariant forall j :: 0 <= j < i ==> fragments[j].Some?
    {
      if fragments[i].None? {
        return false;
      }
    }
    return true;
  }

  method Join(fragments: seq<Option<Bytes>>) returns (payload: Bytes)
    requires Complete(fragments)
    ensures payload == Concat(Values(fragments))
  {
    payload := [];
    ghost var values := Values(fragments);
    for i := 0 to |fragments|
      invariant payload == Concat(values[..i])
    {
      ConcatTake(values, i);
      payload := payload + fragments[i].value;
    }
    assert values[..|fragments|] == values;
  }

  // ----- what every push keeps -----

  ghost predicate WellFormed(p: Partial) {
    && 2 <= |p.fragments| <= 255
    && (exists i :: 0 <= i < |p.fragments| && p.fragments[i].Some?)
    && (exists i :: 0 <= i < |p.fragments| && p.fragments[i].None?)
  }

  /** At most 1024 packets, each partly filled and updated less than ten seconds before `now`. */
  ghost predicate Inv(t: Table, now: nat) {
    && |t| <= MAX_INCOMPLETE_PACKETS
    && forall k :: k in t ==> WellFormed(t[k]) && !Expired(t[k], now)
  }

  lemma SubsetSize<K, V>(a: map<K, V>, b: map<K, V>)
    requires a.Keys <= b.Keys
    ensures |a| <= |b|
  {
    SetSubsetSize(a.Keys, b.Keys);
    assert |a| == |a.Keys| && |b| == |b.Keys|;
  }

  lemma {:induction false} SetSubsetSize<K>(a: set<K>, b: set<K>)
    requires a <= b
    ensures |a| <= |b|
    decreases a
  {
    if a != {} {
      var x :| x in a;
      SetSubsetSize(a - {x}, b - {x});
    }
  }

  lemma AdmitSize(live: Table, key: Key, victim: Key)
    requires |live| <= MAX_INCOMPLETE_PACKETS
    requires MustEvict(live, key) ==> victim in live
    ensures |Admit(live, key, victim)[key := Partial(0, [], [])]| <= MAX_INCOMPLETE_PACKETS
  {
    var table := Admit(live, key, victim);
    var grown := table[key := Partial(0, [], [])];
    assert grown.Keys == table.Keys + {key};
    if MustEvict(live, key) {
      assert table.Keys == live.Keys - {victim};
    }
  }

  lemma PushSize(t: Table, e: Event)
    requires |t| <= MAX_INCOMPLETE_PACKETS && Legal(t, e)
    ensures |Push(t, e).table| <= MAX_INCOMPLETE_PACKETS
  {
    var live := Live(t, e.now);
    SubsetSize(live, t);
    if IsFragment(e.message) {
      var key := KeyOf(e.message);
      AdmitSize(live, key, e.victim);
      SubsetSize(Push(t, e).table, Admit(live, key, e.victim)[key := Partial(0, [], [])]);
    }
  }

  /** What can be stored after a push: the packet just filled, or a live packet as it was. */
  lemma StoredAfter(t: Table, e: Event, k: Key)
    requires k in Push(t, e).table
    ensures var after := Push(t, e).table[k];
            if Hits(e, k) then
              var p := Target(Live(t, e.now), e.message, e.now);
              !Mismatch(p, e.message) && !Complete(Fill(p, e.message))
              && after == Partial(e.now, p.destination, Fill(p, e.message))
            else k in t && !Expired(t[k], e.now) && after == t[k]
  {
  }

  /** One legal push keeps the invariant, whatever the state's earlier clock reading was. */
  lemma PushKeepsInv(t: Table, before: nat, e: Event)
    requires Inv(t, before) && Legal(t, e)
    ensures Inv(Push(t, e).table, e.now)
  {
    PushSize(t, e);
    var after := Push(t, e).table;
    forall k | k in after
      ensures WellFormed(after[k]) && !Expired(after[k], e.now)
    {
      StoredAfter(t, e, k);
      if Hits(e, k) {
        assert after[k].fragments[e.message.fragmentId].Some?;
      }
    }
  }

  // ----- whole runs -----

  function Run(t: Table, log: seq<Event>): Table {
    if log == [] then t else Push(Run(t, log[..|log| - 1]), log[|log| - 1]).table
  }

  /** What the call number j of a run returned. */
  function Returned(t: Table, log: seq<Event>, j: nat): Outcome
    requires j < |log|
  {
    Push(Run(t, log[..j]), log[j]).outcome
  }

  ghost predicate LegalRun(t: Table, log: seq<Event>) {
    forall j :: 0 <= j < |log| ==> Legal(Run(t, log[..j]), log[j])
  }

  lemma {:induction false} RunSnoc(t: Table, log: seq<Event>, e: Event)
    ensures Run(t, log + [e]) == Push(Run(t, log), e).table
  {
    assert (log + [e])[..|log|] == log;
  }

  lemma {:induction false} LegalPrefix(t: Table, log: seq<Event>, n: nat)
    requires n <= |log| && LegalRun(t, log)
    ensures LegalRun(t, log[..n])
  {
    forall j | 0 <= j < n
      ensures Legal(Run(t, log[..n][..j]), log[..n][j])
    {
      assert log[..n][..j] == log[..j];
    }
  }

  /** Every reachable state satisfies the invariant at the time of its last push. */
  lemma {:induction false} ReachableInv(log: seq<Event>)
    requires LegalRun(map[], log)
    ensures Inv(Run(map[], log), if log == [] then 0 else log[|log| - 1].now)
  {
    if log != [] {
      var n := |log| - 1;
      LegalPrefix(map[], log, n);
      ReachableInv(log[..n]);
      PushKeepsInv(Run(map[], log[..n]), if n == 0 then 0 else log[n - 1].now, log[n]);
    }
  }

  // ----- why a packet leaves -----

  datatype Fate = Kept | Filled | TimedOut | Mismatched | Completed | Evicted

  /** What one push does to the packet stored under `k`. */
  function FateOf(t: Table, e: Event, k: Key): Fate
    requires k in t
  {
    if Expired(t[k], e.now) then TimedOut
    else if !IsFragment(e.message) then Kept
    else if KeyOf(e.message) == k then
      if Mismatch(t[k], e.message) then Mismatched
      else if Complete(Fill(t[k], e.message)) then Completed
      else Filled
    else if MustEvict(Live(t, e.now), KeyOf(e.message)) && e.victim == k then Evicted
    else Kept
  }

  /**
   * The six fates are the whole story: a packet survives a push exactly when it is kept or
   * filled, and it leaves only at age ten seconds, on a mismatching fragment, by completing, or
   * as a least recently updated packet when a new key meets a full table.
   */
  lemma FatesAreExact(t: Table, e: Event, k: Key)
    requires k in t && Legal(t, e)
    ensures var after := Push(t, e).table;
            match FateOf(t, e, k)
            case Kept => k in after && after[k] == t[k]
            case Filled => k in after && after[k] == Partial(e.now, t[k].destination, Fill(t[k], e.message))
            case TimedOut =>
              k in after ==> && IsFragment(e.message) && KeyOf(e.message) == k
                             && after[k].fragments == Empty(e.message.fragmentCount)[e.message.fragmentId := Some(e.message.payload)]
            case Mismatched => k !in after && Push(t, e).outcome == Err(InvalidFragment)
            case Completed => k !in after && Push(t, e).outcome == Finish(k, t[k].destination, Fill(t[k], e.message))
            case Evicted =>
              && k !in after && Oldest(Live(t, e.now), k) && KeyOf(e.message) !in Live(t, e.now)
              && |Live(t, e.now)| >= MAX_INCOMPLETE_PACKETS
  {
  }

  predicate IsLoss(f: Fate) { f != Kept && f != Filled }

  /** A packet that meets no loss is still there, filled if the fragment was for it. */
  lemma Survivor(t: Table, e: Event, k: Key)
    requires k in t && Legal(t, e) && !IsLoss(FateOf(t, e, k))
    ensures Hits(e, k) ==> !Mismatch(t[k], e.message)
    ensures k in Push(t, e).table
    ensures Push(t, e).table[k] == if Hits(e, k) then Partial(e.now, t[k].destination, Fill(t[k], e.message)) else t[k]
  {
    FatesAreExact(t, e, k);
  }

  /** Push number i is a loss of the packet stored under k. */
  ghost predicate LostAt(t: Table, log: seq<Event>, i: nat, k: Key)
    requires i < |log|
  {
    k in Run(t, log[..i]) && IsLoss(FateOf(Run(t, log[..i]), log[i], k))
  }

  lemma SurvivesOrLost(before: Table, after: Table, e: Event, k: Key)
    requires after == Push(before, e).table && Legal(before, e) && k in before
    ensures IsLoss(FateOf(before, e, k)) || k in after
  {
    if !IsLoss(FateOf(before, e, k)) {
      Survivor(before, e, k);
    }
  }

  lemma {:induction false} RunStep(t: Table, log: seq<Event>, i: nat)
    requires i < |log|
    ensures Run(t, log[..i + 1]) == Push(Run(t, log[..i]), log[i]).table
  {
    assert log[..i + 1] == log[..i] + [log[i]];
    RunSnoc(t, log[..i], log[i]);
  }

  /** Over a whole run: a packet that is stored at some point and gone later met one of the four losses. */
  lemma {:induction false} LossHasCause(t: Table, log: seq<Event>, i: nat, k: Key) returns (j: nat)
    requires i <= |log| && LegalRun(t, log)
    requires k in Run(t, log[..i]) && k !in Run(t, log)
    ensures i <= j < |log| && LostAt(t, log, j, k)
    decreases |log| - i
  {
    assert log[..|log|] == log;
    assert Legal(Run(t, log[..i]), log[i]);
    RunStep(t, log, i);
    SurvivesOrLost(Run(t, log[..i]), Run(t, log[..i + 1]), log[i], k);
    if LostAt(t, log, i, k) {
      j := i;
    } else {
      j := LossHasCause(t, log, i + 1, k);
    }
  }

  // ----- provenance -----

  /** The event is a fragment for packet `k`. */
  predicate Hits(e: Event, k: Key) { IsFragment(e.message) && KeyOf(e.message) == k }

  /** The payload most recently pushed for index i of packet k since event number `from`. */
  function Latest(log: seq<Event>, from: nat, k: Key, i: nat): Option<Bytes> {
    if |log| <= from then None
    else
      var e := log[|log| - 1];
      if Hits(e, k) && e.message.fragmentId == i then Some(e.message.payload)
      else Latest(log[..|log| - 1], from, k, i)
  }

  /** Event number b created packet k: no live packet was stored under k. */
  ghost predicate CreatedAt(log: seq<Event>, b: nat, k: Key) {
    b < |log| && Hits(log[b], k) && k !in Live(Run(map[], log[..b]), log[b].now)
  }

  /** Every push after event number b found packet k stored and live. */
  ghost predicate LiveSince(log: seq<Event>, b: nat, k: Key) {
    forall j :: 0 <= j < |log| ==> j <= b || k in Live(Run(map[], log[..j]), log[j].now)
  }

  /** Every fragment for k since event number b has this destination and this count. */
  ghost predicate AgreeSince(log: seq<Event>, b: nat, k: Key, destination: Bytes, count: nat) {
    forall j :: b <= j < |log| && Hits(log[j], k) ==>
      log[j].message.destination == destination && log[j].message.fragmentCount == count
  }

  ghost predicate HoldsLatest(log: seq<Event>, b: nat, k: Key, fragments: seq<Option<Bytes>>) {
    forall i :: 0 <= i < |fragments| ==> fragments[i] == Latest(log, b, k, i)
  }

  /**
   * Event number b created packet k, which has been live ever since; every fragment for k since
   * then agrees with `destination` and with the number of slots, and each slot holds the latest
   * payload pushed for it.
   */
  ghost predicate Explains(log: seq<Event>, b: nat, k: Key, destination: Bytes, fragments: seq<Option<Bytes>>) {
    && CreatedAt(log, b, k) && LiveSince(log, b, k)
    && AgreeSince(log, b, k, destination, |fragments|) && HoldsLatest(log, b, k, fragments)
  }

  /** The creating push is the last one that found no live packet under k, so there is only one. */
  lemma CreationIsUnique(log: seq<Event>, b: nat, c: nat, k: Key)
    requires CreatedAt(log, b, k) && LiveSince(log, b, k) && CreatedAt(log, c, k) && LiveSince(log, c, k)
    ensures b == c
  {
  }

  lemma {:induction false} ExplainsStart(log: seq<Event>, e: Event)
    requires IsFragment(e.message)
    requires KeyOf(e.message) !in Live(Run(map[], log), e.now)
    ensures Explains(log + [e], |log|, KeyOf(e.message), e.message.destination,
                     Empty(e.message.fragmentCount)[e.message.fragmentId := Some(e.message.payload)])
  {
    var longer, k := log + [e], KeyOf(e.message);
    assert longer[..|log|] == log;
    forall i: nat
      ensures Latest(longer, |log|, k, i) == if e.message.fragmentId == i then Some(e.message.payload) else None
    {
      assert Latest(longer[..|longer| - 1], |log|, k, i) == None;
    }
  }

  lemma StaysLive(log: seq<Event>, e: Event, b: nat, k: Key)
    requires CreatedAt(log, b, k) && LiveSince(log, b, k) && k in Live(Run(map[], log), e.now)
    ensures CreatedAt(log + [e], b, k) && LiveSince(log + [e], b, k)
  {
    var longer := log + [e];
    assert longer[..b] == log[..b];
    forall j | 0 <= j < |longer|
      ensures j <= b || k in Live(Run(map[], longer[..j]), longer[j].now)
    {
      assert longer[..j] == log[..j];
      if j == |log| {
        assert log[..j] == log;
      }
    }
  }

  lemma LatestFilled(log: seq<Event>, e: Event, b: nat, k: Key, p: Partial)
    requires b < |log| && HoldsLatest(log, b, k, p.fragments) && (Hits(e, k) ==> !Mismatch(p, e.message))
    ensures HoldsLatest(log + [e], b, k, if Hits(e, k) then Fill(p, e.message) else p.fragments)
  {
    var longer := log + [e];
    assert longer[..|log|] == log;
    assert forall i :: Latest(longer, b, k, i)
                    == if Hits(e, k) && e.message.fragmentId == i then Some(e.message.payload) else Latest(log, b, k, i);
  }

  lemma {:induction false} ExplainsStep(log: seq<Event>, e: Event, b: nat, k: Key, p: Partial)
    requires Explains(log, b, k, p.destination, p.fragments)
    requires k in Live(Run(map[], log), e.now)
    requires Hits(e, k) ==> !Mismatch(p, e.message)
    ensures Explains(log + [e], b, k, p.destination, if Hits(e, k) then Fill(p, e.message) else p.fragments)
  {
    StaysLive(log, e, b, k);
    LatestFilled(log, e, b, k, p);
    assert AgreeSince(log + [e], b, k, p.destination, |p.fragments|);
  }

  /** A packet stored after a push that did not survive the push was created by it. */
  lemma CreatedByPush(t: Table, e: Event, k: Key)
    requires k in Push(t, e).table && (k in t ==> IsLoss(FateOf(t, e, k))) && Legal(t, e)
    ensures Hits(e, k) && k !in Live(t, e.now)
    ensures Push(t, e).table[k].destination == e.message.destination
    ensures Push(t, e).table[k].fragments == Empty(e.message.fragmentCount)[e.message.fragmentId := Some(e.message.payload)]
  {
    if k in t {
      FatesAreExact(t, e, k);
    }
  }

  lemma {:induction false} SurvivorExplained(log: seq<Event>, e: Event, b: nat, k: Key)
    requires var t := Run(map[], log);
             && k in t && Legal(t, e) && !IsLoss(FateOf(t, e, k))
             && Explains(log, b, k, t[k].destination, t[k].fragments)
    ensures var t' := Run(map[], log + [e]);
            k in t' && Explains(log + [e], b, k, t'[k].destination, t'[k].fragments)
  {
    var t := Run(map[], log);
    RunSnoc(map[], log, e);
    Survivor(t, e, k);
    ExplainsStep(log, e, b, k, t[k]);
  }

  lemma {:induction false} NewcomerExplained(log: seq<Event>, e: Event, k: Key)
    requires var t := Run(map[], log);
             Legal(t, e) && k in Push(t, e).table && (k in t ==> IsLoss(FateOf(t, e, k)))
    ensures var t' := Run(map[], log + [e]);
            k in t' && Explains(log + [e], |log|, k, t'[k].destination, t'[k].fragments)
  {
    RunSnoc(map[], log, e);
    CreatedByPush(Run(map[], log), e, k);
    ExplainsStart(log, e);
  }

  /** Every packet stored in a reachable state is explained by the pushes that led there. */
  lemma {:induction false} StoredProvenance(log: seq<Event>, k: Key) returns (b: nat)
    requires LegalRun(map[], log)
    requires k in Run(map[], log)
    ensures Explains(log, b, k, Run(map[], log)[k].destination, Run(map[], log)[k].fragments)
  {
    var n := |log| - 1;
    var earlier, e := log[..n], log[n];
    var t := Run(map[], earlier);
    LegalPrefix(map[], log, n);
    assert log == earlier + [e];
    if k in t && !IsLoss(FateOf(t, e, k)) {
      b := StoredProvenance(earlier, k);
      SurvivorExplained(earlier, e, b, k);
    } else {
      b := n;
      NewcomerExplained(earlier, e, k);
    }
  }

  function LatestAll(log: seq<Event>, from: nat, k: Key, count: nat): (r: seq<Option<Bytes>>)
    ensures |r| == count && forall i :: 0 <= i < count ==> r[i] == Latest(log, from, k, i)
  {
    seq(count, i requires 0 <= i < count => Latest(log, from, k, i))
  }

  lemma {:induction false} ExplainedByLatest(log: seq<Event>, b: nat, k: Key, destination: Bytes, fragments: seq<Option<Bytes>>)
    requires Explains(log, b, k, destination, fragments)
    ensures fragments == LatestAll(log, b, k, |fragments|)
  {
  }

  lemma OneSlotIsNotEnough(m: Message)
    requires IsFragment(m)
    ensures !Complete(Empty(m.fragmentCount)[m.fragmentId := Some(m.payload)])
  {
    var other := if m.fragmentId == 0 then 1 else 0;
    assert Empty(m.fragmentCount)[m.fragmentId := Some(m.payload)][other].None?;
  }

  /** A fragment that makes `push_at` return a message completes a packet that was stored and live. */
  lemma OnlyStoredPacketsComplete(t: Table, e: Event)
    requires IsFragment(e.message)
    requires Push(t, e).outcome.Ok? && Push(t, e).outcome.value.Some?
    ensures var k := KeyOf(e.message);
            && k in t && !Expired(t[k], e.now) && FateOf(t, e, k) == Completed
            && Push(t, e).outcome == Finish(k, t[k].destination, Fill(t[k], e.message))
  {
    OneSlotIsNotEnough(e.message);
  }

  /**
   * Every multi-fragment message a run returns is the concatenation, in index order, of the latest
   * payload pushed for each index since the packet was created; all those fragments agree on
   * session, packet id, destination and count, and the total is at most 4096 bytes.
   */
  lemma {:induction false} ReturnedProvenance(log: seq<Event>) returns (b: nat)
    requires log != [] && LegalRun(map[], log)
    requires IsFragment(log[|log| - 1].message)
    requires var r := Returned(map[], log, |log| - 1); r.Ok? && r.value.Some?
    ensures var r := Returned(map[], log, |log| - 1).value.value;
            var e := log[|log| - 1];
            var latest := LatestAll(log, b, KeyOf(e.message), e.message.fragmentCount);
            && Explains(log, b, KeyOf(e.message), e.message.destination, latest)
            && Complete(latest)
            && r == Message(e.message.sessionId, e.message.packetId, 0, 1, e.message.destination, Concat(Values(latest)))
            && |r.payload| <= MAX_UDP_SIZE
  {
    var n := |log| - 1;
    var earlier, e := log[..n], log[n];
    var k := KeyOf(e.message);
    var t := Run(map[], earlier);
    LegalPrefix(map[], log, n);
    assert log == earlier + [e];
    OnlyStoredPacketsComplete(t, e);
    b := StoredProvenance(earlier, k);
    ExplainsStep(earlier, e, b, k, t[k]);
    ExplainedByLatest(log, b, k, t[k].destination, Fill(t[k], e.message));
  }

  // ----- delivery in any order -----

  /** Every fragment for packet k in the log is a piece of one and the same message. */
  ghost predicate FedBy(log: seq<Event>, k: Key, destination: Bytes, pieces: seq<Bytes>) {
    forall j :: 0 <= j < |log| && Hits(log[j], k) ==> IsPiece(log[j].message, destination, pieces)
  }

  predicate IsPiece(m: Message, destination: Bytes, pieces: seq<Bytes>) {
    m.destination == destination && m.fragmentCount == |pieces|
    && m.fragmentId < |pieces| && m.payload == pieces[m.fragmentId]
  }

  /** The fragment indices of packet k that occur in the log. */
  function Seen(log: seq<Event>, k: Key): set<nat> {
    if log == [] then {} else
    var e := log[|log| - 1];
    Seen(log[..|log| - 1], k) + if Hits(e, k) then {e.message.fragmentId} else {}
  }

  predicate AllSeen(n: nat, seen: set<nat>) { forall i :: 0 <= i < n ==> i in seen }

  /** Along the run the packet neither times out nor is evicted. */
  ghost predicate Undisturbed(t: Table, log: seq<Event>, k: Key) {
    forall j :: 0 <= j < |log| && k in Run(t, log[..j]) ==>
      var f := FateOf(Run(t, log[..j]), log[j], k); f != TimedOut && f != Evicted
  }

  /** The table holds exactly the seen pieces of the message under k. */
  ghost predicate Holds(t: Table, k: Key, destination: Bytes, pieces: seq<Bytes>, seen: set<nat>) {
    if seen == {} then k !in t
    else
      && k in t && t[k].destination == destination && |t[k].fragments| == |pieces|
      && forall i :: 0 <= i < |pieces| ==> t[k].fragments[i] == if i in seen then Some(pieces[i]) else None
  }

  lemma MissStep(t: Table, e: Event, k: Key, destination: Bytes, pieces: seq<Bytes>, seen: set<nat>)
    requires Holds(t, k, destination, pieces, seen) && !Hits(e, k)
    requires k in t ==> FateOf(t, e, k) != TimedOut && FateOf(t, e, k) != Evicted
    requires Legal(t, e)
    ensures Holds(Push(t, e).table, k, destination, pieces, seen)
  {
    if k in t {
      FatesAreExact(t, e, k);
    }
  }

  lemma HitStep(t: Table, e: Event, k: Key, destination: Bytes, pieces: seq<Bytes>, seen: set<nat>)
    requires 2 <= |pieces| && |Concat(pieces)| <= MAX_UDP_SIZE
    requires Holds(t, k, destination, pieces, seen) && Hits(e, k) && IsPiece(e.message, destination, pieces)
    requires k in t ==> FateOf(t, e, k) != TimedOut
    ensures var grown := seen + {e.message.fragmentId};
            if AllSeen(|pieces|, grown)
            then Push(t, e).outcome == Ok(Some(Message(k.session, k.packet, 0, 1, destination, Concat(pieces))))
            else Push(t, e).outcome == Ok(None) && Holds(Push(t, e).table, k, destination, pieces, grown)
  {
    var grown := seen + {e.message.fragmentId};
    var live := Live(t, e.now);
    var p := Target(live, e.message, e.now);
    assert k in live <==> k in t;
    assert forall i :: 0 <= i < |pieces| ==> p.fragments[i] == if i in seen then Some(pieces[i]) else None;
    var filled := Fill(p, e.message);
    assert forall i :: 0 <= i < |pieces| ==> filled[i] == if i in grown then Some(pieces[i]) else None;
    if AllSeen(|pieces|, grown) {
      assert Values(filled) == pieces;
    } else {
      var i :| 0 <= i < |pieces| && i !in grown;
      assert filled[i].None?;
    }
  }

  /** While an index is missing the table holds exactly the pieces seen so far. */
  lemma {:induction false} Collecting(t: Table, log: seq<Event>, k: Key, destination: Bytes, pieces: seq<Bytes>)
    requires 2 <= |pieces| && |Concat(pieces)| <= MAX_UDP_SIZE
    requires k !in t && LegalRun(t, log) && Undisturbed(t, log, k) && FedBy(log, k, destination, pieces)
    requires !AllSeen(|pieces|, Seen(log, k))
    ensures Holds(Run(t, log), k, destination, pieces, Seen(log, k))
  {
    if log != [] {
      var n := |log| - 1;
      var earlier, e := log[..n], log[n];
      Prefixes(t, log, n, k, destination, pieces);
      Collecting(t, earlier, k, destination, pieces);
      if Hits(e, k) {
        HitStep(Run(t, earlier), e, k, destination, pieces, Seen(earlier, k));
      } else {
        MissStep(Run(t, earlier), e, k, destination, pieces, Seen(earlier, k));
      }
    }
  }

  /** What push number j for the packet returns, when an index was still missing before it. */
  lemma {:induction false} CollectingReturns(t: Table, log: seq<Event>, j: nat, k: Key, destination: Bytes, pieces: seq<Bytes>)
    requires 2 <= |pieces| && |Concat(pieces)| <= MAX_UDP_SIZE
    requires k !in t && LegalRun(t, log) && Undisturbed(t, log, k) && FedBy(log, k, destination, pieces)
    requires j < |log| && Hits(log[j], k) && !AllSeen(|pieces|, Seen(log[..j], k))
    ensures Returned(t, log, j)
         == if AllSeen(|pieces|, Seen(log[..j + 1], k))
            then Ok(Some(Message(k.session, k.packet, 0, 1, destination, Concat(pieces))))
            else Ok(None)
  {
    Prefixes(t, log, j, k, destination, pieces);
    Collecting(t, log[..j], k, destination, pieces);
    HitStep(Run(t, log[..j]), log[j], k, destination, pieces, Seen(log[..j], k));
    assert log[..j + 1][..j] == log[..j];
  }

  lemma {:induction false} Prefixes(t: Table, log: seq<Event>, n: nat, k: Key, destination: Bytes, pieces: seq<Bytes>)
    requires n <= |log|
    requires LegalRun(t, log) && Undisturbed(t, log, k) && FedBy(log, k, destination, pieces)
    ensures LegalRun(t, log[..n]) && Undisturbed(t, log[..n], k) && FedBy(log[..n], k, destination, pieces)
  {
    LegalPrefix(t, log, n);
    assert forall j :: 0 <= j < n ==> log[..n][..j] == log[..j] && log[..n][j] == log[j];
  }

  /**
   * Delivery. Cut a message with `encode_fragments`, decode the datagrams and push them in any
   * order, with repeats, interleaved with any other packets. As long as some index is missing,
   * the next push for the packet returns nothing, unless it supplies the last missing index:
   * then it returns exactly the original session, packet id, destination and payload.
   */
  lemma {:induction false} AnyOrderDelivery(t: Table, log: seq<Event>, j: nat, sessionId: U32, packetId: U16, destination: Bytes,
                         payload: Bytes, limit: nat, lossy: Lossy, datagrams: seq<Bytes>)
    requires lossy(destination) == destination
    requires EncodeFragments(sessionId, packetId, destination, payload, limit) == Ok(datagrams)
    requires 2 <= |datagrams|
    requires var k := Key(sessionId, packetId);
             && k !in t && LegalRun(t, log) && Undisturbed(t, log, k)
             && (forall n :: 0 <= n < |log| && Hits(log[n], k) ==>
                   exists i :: 0 <= i < |datagrams| && Decode(datagrams[i], lossy) == Ok(log[n].message))
             && j < |log| && Hits(log[j], k) && !AllSeen(|datagrams|, Seen(log[..j], k))
    ensures Returned(t, log, j)
         == if AllSeen(|datagrams|, Seen(log[..j + 1], Key(sessionId, packetId)))
            then Ok(Some(Message(sessionId, packetId, 0, 1, destination, payload)))
            else Ok(None)
  {
    var k := Key(sessionId, packetId);
    EncodeFragmentsCorrect(sessionId, packetId, destination, payload, limit, lossy);
    var pieces := Pieces(payload, limit - HeaderSize(destination));
    DatagramsFeed(log, k, destination, pieces, limit, lossy, datagrams);
    CollectingReturns(t, log, j, k, destination, pieces);
  }

  lemma {:induction false} DatagramsFeed(log: seq<Event>, k: Key, destination: Bytes, pieces: seq<Bytes>, limit: nat, lossy: Lossy,
                      datagrams: seq<Bytes>)
    requires AllFragments(datagrams, k.session, k.packet, destination, pieces, limit, lossy)
    requires forall j :: 0 <= j < |log| && Hits(log[j], k) ==>
               exists i :: 0 <= i < |datagrams| && Decode(datagrams[i], lossy) == Ok(log[j].message)
    ensures FedBy(log, k, destination, pieces)
  {
    forall j | 0 <= j < |log| && Hits(log[j], k)
      ensures IsPiece(log[j].message, destination, pieces)
    {
      var i :| 0 <= i < |datagrams| && Decode(datagrams[i], lossy) == Ok(log[j].message);
      assert Carries(datagrams[i], limit, Message(k.session, k.packet, i, |pieces|, destination, pieces[i]), lossy);
    }
  }

  // ----- when a sender can rely on delivery -----

  function KeysIn(log: seq<Event>): set<Key> {
    set j | 0 <= j < |log| && IsFragment(log[j].message) :: KeyOf(log[j].message)
  }

  /** Conditions a sender can check: a burst shorter than the timeout that touches at most 1024 packets. */
  ghost predicate Calm(log: seq<Event>) {
    && |KeysIn(log)| <= MAX_INCOMPLETE_PACKETS
    && forall i, j :: 0 <= i <= j < |log| ==> Age(log[j].now, log[i].now) < REASSEMBLY_TIMEOUT
  }

  lemma {:induction false} StoredKeysWereSent(log: seq<Event>, k: Key) returns (i: nat)
    requires k in Run(map[], log)
    ensures i < |log| && Hits(log[i], k) && Run(map[], log)[k].updatedAt == log[i].now
  {
    var n := |log| - 1;
    var earlier, e := log[..n], log[n];
    if Hits(e, k) {
      i := n;
    } else {
      i := StoredKeysWereSent(earlier, k);
    }
  }

  /** In a calm burst that starts from an empty table no packet times out and none is evicted. */
  lemma {:induction false} CalmIsUndisturbed(log: seq<Event>, k: Key)
    requires Calm(log)
    ensures Undisturbed(map[], log, k)
    ensures LegalRun(map[], log)
  {
    forall j | 0 <= j < |log|
      ensures IsFragment(log[j].message) ==> !MustEvict(Live(Run(map[], log[..j]), log[j].now), KeyOf(log[j].message))
    {
      if IsFragment(log[j].message) {
        RoomForNewKey(log, j);
      }
    }
    forall j | 0 <= j < |log| && k in Run(map[], log[..j])
      ensures FateOf(Run(map[], log[..j]), log[j], k) != TimedOut
    {
      var i := StoredKeysWereSent(log[..j], k);
      assert log[..j][i] == log[i];
    }
  }

  lemma {:induction false} RoomForNewKey(log: seq<Event>, j: nat)
    requires Calm(log) && j < |log| && IsFragment(log[j].message)
    ensures !MustEvict(Live(Run(map[], log[..j]), log[j].now), KeyOf(log[j].message))
  {
    var live := Live(Run(map[], log[..j]), log[j].now);
    var key := KeyOf(log[j].message);
    if key !in live {
      forall k | k in live
        ensures k in KeysIn(log)
      {
        var i := StoredKeysWereSent(log[..j], k);
        assert log[..j][i] == log[i];
      }
      assert key in KeysIn(log);
      SetSubsetSize(live.Keys + {key}, KeysIn(log));
      assert |live| == |live.Keys|;
    }
  }

  /**
   * Delivery a sender can count on: from an empty table, in a burst shorter than the timeout with at
   * most 1024 packets in it, whatever the order, the repeats and the other traffic.
   */
  lemma {:induction false} CalmDelivery(log: seq<Event>, j: nat, sessionId: U32, packetId: U16, destination: Bytes,
                                        payload: Bytes, limit: nat, lossy: Lossy, datagrams: seq<Bytes>)
    requires lossy(destination) == destination
    requires EncodeFragments(sessionId, packetId, destination, payload, limit) == Ok(datagrams)
    requires 2 <= |datagrams| && Calm(log)
    requires var k := Key(sessionId, packetId);
             && (forall n :: 0 <= n < |log| && Hits(log[n], k) ==>
                   exists i :: 0 <= i < |datagrams| && Decode(datagrams[i], lossy) == Ok(log[n].message))
             && j < |log| && Hits(log[j], k)
             && !AllSeen(|datagrams|, Seen(log[..j], k)) && AllSeen(|datagrams|, Seen(log[..j + 1], k))
    ensures Returned(map[], log, j) == Ok(Some(Message(sessionId, packetId, 0, 1, destination, payload)))
  {
    CalmIsUndisturbed(log, Key(sessionId, packetId));
    AnyOrderDelivery(map[], log, j, sessionId, packetId, destination, payload, limit, lossy, datagrams);
  }
}
