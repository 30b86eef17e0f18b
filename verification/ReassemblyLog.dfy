/**
 * What a reassembler answers, from the log of its calls alone (src/protocol/udp.rs): no table, only
 * which call created each incomplete packet.
 */
module ReassemblyLog {
  import opened Seqs
  import opened Varint
  import opened UdpCodec
  import opened Reassembly

  /** For each incomplete packet the number of the call that created it. */
  type Births = map<Key, nat>

  /** When a fragment for packet k was last pushed. */
  function Touched(log: seq<Event>, k: Key): nat {
    if log == [] then 0 else
    var e := log[|log| - 1];
    if Hits(e, k) then e.now else Touched(log[..|log| - 1], k)
  }

  /** The packets that have not timed out at `now`. */
  function Fresh(log: seq<Event>, births: Births, now: nat): Births {
    map k | k in births && now < Touched(log, k) + 10_000 :: births[k]
  }

  /** The fragment has the destination and the count of the one that created the packet. */
  predicate Agrees(first: Message, m: Message) {
    first.destination == m.destination && first.fragmentCount == m.fragmentCount
  }

  /** Every index below `count` was pushed since call number b. */
  predicate AllPushed(log: seq<Event>, b: nat, k: Key, count: nat) {
    forall i :: 0 <= i < count ==> Latest(log, b, k, i).Some?
  }

  /** The latest payloads since call number b, joined in index order. */
  function Joined(log: seq<Event>, b: nat, k: Key, count: nat): Bytes
    requires AllPushed(log, b, k, count)
  {
    if count == 0 then [] else Joined(log, b, k, count - 1) + Latest(log, b, k, count - 1).value
  }

  /** A call that is one fragment of several: it disagrees or completes and the packet is gone, it adds, or it creates. */
  function NextBirths(log: seq<Event>, births: Births, e: Event): (r: Births)
    requires forall k :: k in births ==> births[k] < |log|
    ensures forall k :: k in r ==> r[k] <= |log|
  {
    var m, k := e.message, KeyOf(e.message);
    var recent := Fresh(log, births, e.now);
    if m.fragmentCount <= 1 || m.fragmentId >= m.fragmentCount then recent
    else if k !in recent then (if |recent| >= 1024 then recent - {e.victim} else recent)[k := |log|]
    else if !Agrees(log[recent[k]].message, m) || AllPushed(log + [e], recent[k], k, m.fragmentCount) then recent - {k}
    else recent
  }

  function BirthsOf(log: seq<Event>): (r: Births)
    ensures forall k :: k in r ==> r[k] < |log|
  {
    if log == [] then map[] else NextBirths(log[..|log| - 1], BirthsOf(log[..|log| - 1]), log[|log| - 1])
  }

  /** The incomplete packet of call j, if there is one that has not timed out: the call that created it. */
  function PacketAt(log: seq<Event>, j: nat): (b: Option<nat>)
    requires j < |log|
    ensures b.Some? ==> b.value < j
  {
    var recent := Fresh(log[..j], BirthsOf(log[..j]), log[j].now);
    var k := KeyOf(log[j].message);
    if k in recent then Some(recent[k]) else None
  }

  /** What call j has to return. */
  function Expected(log: seq<Event>, j: nat): Outcome
    requires j < |log|
  {
    var m, k, b, upTo := log[j].message, KeyOf(log[j].message), PacketAt(log, j), log[..j + 1];
    if m.fragmentCount <= 1 then Ok(Some(m))
    else if m.fragmentId >= m.fragmentCount then Err(InvalidFragment)
    else if b.None? then Ok(None)
    else if !Agrees(log[b.value].message, m) then Err(InvalidFragment)
    else if !AllPushed(upTo, b.value, k, m.fragmentCount) then Ok(None)
    else
      var payload := Joined(upTo, b.value, k, m.fragmentCount);
      if |payload| > 4096 then Err(PayloadTooLarge)
      else Ok(Some(Message(m.sessionId, m.packetId, 0, 1, m.destination, payload)))
  }

  // ----- the table is what the log says -----

  ghost predicate Fits(p: Partial, log: seq<Event>, b: nat, k: Key) {
    && b < |log| && Hits(log[b], k)
    && p.updatedAt == Touched(log, k)
    && p.destination == log[b].message.destination && |p.fragments| == log[b].message.fragmentCount
    && HoldsLatest(log, b, k, p.fragments)
  }

  /** The table holds exactly the packets the log says, each with the latest payloads since its creation. */
  ghost predicate Rebuilt(t: Table, log: seq<Event>, births: Births) {
    && (forall k :: k in t <==> k in births)
    && (forall k :: k in t ==> Fits(t[k], log, births[k], k))
  }

  lemma LiveIsFresh(t: Table, log: seq<Event>, births: Births, now: nat)
    requires Rebuilt(t, log, births)
    ensures Rebuilt(Live(t, now), log, Fresh(log, births, now))
    ensures |Live(t, now)| == |Fresh(log, births, now)|
  {
    var live, recent := Live(t, now), Fresh(log, births, now);
    forall k
      ensures k in live <==> k in recent
    {
      assert k in t ==> Fits(t[k], log, births[k], k);
    }
    forall k | k in live
      ensures Fits(live[k], log, recent[k], k)
    {
      assert Fits(t[k], log, births[k], k);
    }
    assert live.Keys == recent.Keys;
    assert |live| == |live.Keys| && |recent| == |recent.Keys|;
  }

  lemma OneMore(log: seq<Event>, e: Event, b: nat, k: Key)
    requires b < |log|
    ensures Touched(log + [e], k) == if Hits(e, k) then e.now else Touched(log, k)
    ensures forall i :: Latest(log + [e], b, k, i)
                     == if Hits(e, k) && e.message.fragmentId == i then Some(e.message.payload) else Latest(log, b, k, i)
  {
    assert (log + [e])[..|log|] == log;
  }

  /** A call for another packet, or none, leaves a packet as it is. */
  lemma FitsMiss(p: Partial, log: seq<Event>, e: Event, b: nat, k: Key)
    requires Fits(p, log, b, k) && !Hits(e, k)
    ensures Fits(p, log + [e], b, k)
  {
    OneMore(log, e, b, k);
  }

  lemma FitsHit(p: Partial, log: seq<Event>, e: Event, b: nat, k: Key)
    requires Fits(p, log, b, k) && Hits(e, k)
    ensures Mismatch(p, e.message) <==> !Agrees(log[b].message, e.message)
    ensures !Mismatch(p, e.message) ==>
              && Fits(Partial(e.now, p.destination, Fill(p, e.message)), log + [e], b, k)
              && (Complete(Fill(p, e.message)) <==> AllPushed(log + [e], b, k, e.message.fragmentCount))
  {
    OneMore(log, e, b, k);
    if !Mismatch(p, e.message) {
      LatestFilled(log, e, b, k, p);
    }
  }

  lemma FitsNew(log: seq<Event>, e: Event)
    requires IsFragment(e.message)
    ensures Fits(Partial(e.now, e.message.destination, Fill(Partial(e.now, e.message.destination, Empty(e.message.fragmentCount)), e.message)),
                 log + [e], |log|, KeyOf(e.message))
  {
    var longer, k := log + [e], KeyOf(e.message);
    assert longer[..|log|] == log;
    forall i: nat
      ensures Latest(longer, |log|, k, i) == if e.message.fragmentId == i then Some(e.message.payload) else None
    {
      assert Latest(longer[..|longer| - 1], |log|, k, i) == None;
    }
  }

  lemma RestFits(t: Table, log: seq<Event>, births: Births, e: Event)
    requires Rebuilt(t, log, births)
    ensures forall k :: k in t && !Hits(e, k) ==> Fits(t[k], log + [e], births[k], k)
  {
    forall k | k in t && !Hits(e, k)
      ensures Fits(t[k], log + [e], births[k], k)
    {
      FitsMiss(t[k], log, e, births[k], k);
    }
  }

  lemma StoredHit(live: Table, log: seq<Event>, recent: Births, e: Event)
    requires Rebuilt(live, log, recent) && IsFragment(e.message) && KeyOf(e.message) in live
    ensures var k := KeyOf(e.message);
            var gone := !Agrees(log[recent[k]].message, e.message) || AllPushed(log + [e], recent[k], k, e.message.fragmentCount);
            Rebuilt(AddFragment(live, e).table, log + [e], if gone then recent - {k} else recent)
  {
    var k := KeyOf(e.message);
    assert Fits(live[k], log, recent[k], k);
    FitsHit(live[k], log, e, recent[k], k);
    RestFits(live, log, recent, e);
  }

  lemma NewHit(live: Table, log: seq<Event>, recent: Births, e: Event)
    requires Rebuilt(live, log, recent) && |live| == |recent| && IsFragment(e.message) && KeyOf(e.message) !in live
    ensures Rebuilt(AddFragment(live, e).table, log + [e],
                    (if |recent| >= 1024 then recent - {e.victim} else recent)[KeyOf(e.message) := |log|])
    ensures AddFragment(live, e).outcome == Ok(None)
  {
    OneSlotIsNotEnough(e.message);
    FitsNew(log, e);
    RestFits(live, log, recent, e);
  }

  lemma RebuiltStep(t: Table, log: seq<Event>, births: Births, e: Event)
    requires Rebuilt(t, log, births)
    ensures forall k :: k in births ==> births[k] < |log|
    ensures Rebuilt(Push(t, e).table, log + [e], NextBirths(log, births, e))
  {
    LiveIsFresh(t, log, births, e.now);
    var live, recent := Live(t, e.now), Fresh(log, births, e.now);
    assert forall k :: k in births ==> Fits(t[k], log, births[k], k);
    if !IsFragment(e.message) {
      RestFits(live, log, recent, e);
    } else if KeyOf(e.message) in live {
      StoredHit(live, log, recent, e);
    } else {
      NewHit(live, log, recent, e);
    }
  }

  /** After any calls the table is the one the log describes. */
  lemma {:induction false} TableFromLog(log: seq<Event>)
    ensures Rebuilt(Run(map[], log), log, BirthsOf(log))
  {
    if log != [] {
      var earlier, e := log[..|log| - 1], log[|log| - 1];
      TableFromLog(earlier);
      assert log == earlier + [e];
      RunSnoc(map[], earlier, e);
      RebuiltStep(Run(map[], earlier), earlier, BirthsOf(earlier), e);
    }
  }

  // ----- so are the answers -----

  lemma {:induction false} JoinedIsConcat(log: seq<Event>, b: nat, k: Key, fragments: seq<Option<Bytes>>)
    requires Complete(fragments) && HoldsLatest(log, b, k, fragments)
    ensures AllPushed(log, b, k, |fragments|) && Joined(log, b, k, |fragments|) == Concat(Values(fragments))
  {
    if fragments != [] {
      var n := |fragments| - 1;
      JoinedIsConcat(log, b, k, fragments[..n]);
      assert Values(fragments) == Values(fragments[..n]) + [fragments[n].value];
      ConcatSnoc(Values(fragments[..n]), fragments[n].value);
    }
  }

  lemma HitAnswer(live: Table, log: seq<Event>, recent: Births, e: Event)
    requires Rebuilt(live, log, recent) && IsFragment(e.message) && KeyOf(e.message) in live
    ensures var m, k := e.message, KeyOf(e.message);
            var outcome := AddFragment(live, e).outcome;
            if !Agrees(log[recent[k]].message, m) then outcome == Err(InvalidFragment)
            else if !AllPushed(log + [e], recent[k], k, m.fragmentCount) then outcome == Ok(None)
            else
              var payload := Joined(log + [e], recent[k], k, m.fragmentCount);
              outcome == if |payload| > 4096 then Err(PayloadTooLarge)
                         else Ok(Some(Message(m.sessionId, m.packetId, 0, 1, m.destination, payload)))
  {
    var k := KeyOf(e.message);
    var p := live[k];
    assert Fits(p, log, recent[k], k);
    FitsHit(p, log, e, recent[k], k);
    if !Mismatch(p, e.message) && Complete(Fill(p, e.message)) {
      JoinedIsConcat(log + [e], recent[k], k, Fill(p, e.message));
    }
  }

  /** The result of every call of every run, from the log alone. */
  lemma ResultFromLog(log: seq<Event>, j: nat)
    requires j < |log|
    ensures Returned(map[], log, j) == Expected(log, j)
  {
    var earlier, e := log[..j], log[j];
    assert log[..j + 1] == earlier + [e];
    var t := Run(map[], earlier);
    TableFromLog(earlier);
    LiveIsFresh(t, earlier, BirthsOf(earlier), e.now);
    var live, recent := Live(t, e.now), Fresh(earlier, BirthsOf(earlier), e.now);
    if IsFragment(e.message) {
      if KeyOf(e.message) in live {
        HitAnswer(live, earlier, recent, e);
      } else {
        NewHit(live, earlier, recent, e);
      }
    }
  }

  /** The two errors and exactly when. */
  lemma ErrorsExactlyWhen(log: seq<Event>, j: nat)
    requires j < |log|
    ensures var m, k, b, upTo := log[j].message, KeyOf(log[j].message), PacketAt(log, j), log[..j + 1];
            && (Returned(map[], log, j) == Err(InvalidFragment) <==>
                  m.fragmentCount > 1 && (m.fragmentId >= m.fragmentCount || (b.Some? && !Agrees(log[b.value].message, m))))
            && (Returned(map[], log, j) == Err(PayloadTooLarge) <==>
                  && m.fragmentCount > 1 && m.fragmentId < m.fragmentCount && b.Some? && Agrees(log[b.value].message, m)
                  && AllPushed(upTo, b.value, k, m.fragmentCount) && |Joined(upTo, b.value, k, m.fragmentCount)| > 4096)
            && (Returned(map[], log, j).Err? ==>
                  Returned(map[], log, j) == Err(InvalidFragment) || Returned(map[], log, j) == Err(PayloadTooLarge))
  {
    ResultFromLog(log, j);
  }

  /** Which packet may be evicted, from the log alone: one touched least recently. */
  lemma LegalFromLog(log: seq<Event>, e: Event)
    ensures var recent := Fresh(log, BirthsOf(log), e.now);
            Legal(Run(map[], log), e) <==>
              (e.message.fragmentCount > 1 && e.message.fragmentId < e.message.fragmentCount
               && KeyOf(e.message) !in recent && |recent| >= 1024 ==>
                 e.victim in recent && forall k :: k in recent ==> Touched(log, e.victim) <= Touched(log, k))
  {
    var t := Run(map[], log);
    TableFromLog(log);
    LiveIsFresh(t, log, BirthsOf(log), e.now);
    var live, recent := Live(t, e.now), Fresh(log, BirthsOf(log), e.now);
    assert forall k :: k in live ==> Fits(live[k], log, recent[k], k);
  }

  /** A message that fits one datagram is returned by the call that pushes it, in any run from any table. */
  lemma OneDatagramDelivery(t: Table, log: seq<Event>, j: nat, sessionId: U32, packetId: U16, destination: Bytes,
                            payload: Bytes, limit: nat, lossy: Lossy, datagram: Bytes)
    requires lossy(destination) == destination
    requires EncodeFragments(sessionId, packetId, destination, payload, limit) == Ok([datagram])
    requires j < |log| && Decode(datagram, lossy) == Ok(log[j].message)
    ensures Returned(t, log, j) == Ok(Some(Message(sessionId, packetId, 0, 1, destination, payload)))
  {
    EncodeFragmentsCorrect(sessionId, packetId, destination, payload, limit, lossy);
    var pieces := Pieces(payload, limit - HeaderSize(destination));
    assert [datagram][0] == datagram && |pieces| == 1;
    assert Concat(pieces) == pieces[0] + Concat(pieces[1..]);
  }
}
