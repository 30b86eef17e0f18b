/**
 * The NAT gateway (src/nat_tunnel.rs): the shared idle pool, one manager per tunnel and any number
 * of public connections, as a transition system over all their interleavings.
 */
module NatGateway {
  import opened Seqs
  import Link = TunnelLink

  type TunnelId = nat
  type ConnId = nat

  const MAX_ATTEMPTS: nat := 8

  // ----- the idle queue -----

  /** `retain` on a queue. */
  function Keep<T(==)>(queue: seq<T>, alive: set<T>): seq<T> {
    if queue == [] then []
    else Keep(queue[..|queue| - 1], alive) + if queue[|queue| - 1] in alive then [queue[|queue| - 1]] else []
  }

  ghost predicate NoRepeats<T>(s: seq<T>) {
    forall i, j :: 0 <= i < j < |s| ==> s[i] != s[j]
  }

  lemma {:induction false} KeepSound<T>(queue: seq<T>, alive: set<T>)
    ensures |Keep(queue, alive)| <= |queue|
    ensures forall x :: x in Keep(queue, alive) <==> x in queue && x in alive
    ensures NoRepeats(queue) ==> NoRepeats(Keep(queue, alive))
  {
    if queue != [] {
      var n := |queue| - 1;
      KeepSound(queue[..n], alive);
      assert queue == queue[..n] + [queue[n]];
      if NoRepeats(queue) {
        assert queue[n] !in queue[..n];
      }
    }
  }

  /** The queue is in the order of birth. */
  ghost predicate Ordered<T(!new)>(queue: seq<T>, born: T -> nat) {
    forall p, q :: 0 <= p < q < |queue| ==> born(queue[p]) < born(queue[q])
  }

  /** Retaining keeps the order. */
  lemma {:induction false} KeepInOrder<T(!new)>(queue: seq<T>, alive: set<T>, born: T -> nat)
    requires Ordered(queue, born)
    ensures Ordered(Keep(queue, alive), born)
  {
    if queue != [] {
      var n := |queue| - 1;
      var front := Keep(queue[..n], alive);
      KeepInOrder(queue[..n], alive, born);
      KeepSound(queue[..n], alive);
      forall p | 0 <= p < |front|
        ensures born(front[p]) < born(queue[n])
      {
        assert front[p] in front;
        assert front[p] in queue[..n];
        var a :| 0 <= a < n && queue[..n][a] == front[p];
      }
    }
  }

  lemma OrderedSame<T(!new)>(queue: seq<T>, born: T -> nat, born': T -> nat)
    requires Ordered(queue, born) && forall x :: x in queue ==> born'(x) == born(x)
    ensures Ordered(queue, born')
  {
  }

  lemma KeptAreAlive<T>(queue: seq<T>, alive: set<T>, i: nat)
    requires i < |Keep(queue, alive)|
    ensures Keep(queue, alive)[i] in alive && Keep(queue, alive)[i] in queue
  {
    KeepSound(queue, alive);
    assert Keep(queue, alive)[i] in Keep(queue, alive);
  }

  /** One registered tunnel as the pool sees it; `id` names it in the transition system below. */
  class IdleTunnel {
    const id: TunnelId
    var alive: bool

    constructor (id: TunnelId)
      ensures alive && this.id == id
    {
      this.id := id;
      alive := true;
    }
  }

  ghost function AliveOf(queue: seq<IdleTunnel>): set<IdleTunnel>
    reads queue
  {
    set t | t in queue && t.alive
  }

  ghost function Ids(queue: seq<IdleTunnel>): (ids: seq<TunnelId>)
    ensures |ids| == |queue| && forall i :: 0 <= i < |queue| ==> ids[i] == queue[i].id
  {
    seq(|queue|, i requires 0 <= i < |queue| => queue[i].id)
  }

  ghost predicate SameAlive(queue: seq<IdleTunnel>, s: State)
    reads queue
  {
    forall i :: 0 <= i < |queue| ==> queue[i].id in s.tunnels && (queue[i].alive <==> s.tunnels[queue[i].id].alive)
  }

  /** `retain` on the handles is `retain` on the ids. */
  lemma {:induction false} KeepIds(queue: seq<IdleTunnel>, alive: set<IdleTunnel>, aliveIds: set<TunnelId>)
    requires forall i :: 0 <= i < |queue| ==> (queue[i] in alive <==> queue[i].id in aliveIds)
    ensures Ids(Keep(queue, alive)) == Keep(Ids(queue), aliveIds)
  {
    if queue != [] {
      var n := |queue| - 1;
      KeepIds(queue[..n], alive, aliveIds);
      assert Ids(queue)[..n] == Ids(queue[..n]);
      assert Ids(Keep(queue[..n], alive) + [queue[n]]) == Ids(Keep(queue[..n], alive)) + [queue[n].id];
    }
  }

  /** The handles stand for the queue of a gateway state. */
  ghost predicate Mirrors(queue: seq<IdleTunnel>, s: State)
    reads queue
  {
    s.idle == Ids(queue) && SameAlive(queue, s)
  }

  lemma LiveQueuesAgree(queue: seq<IdleTunnel>, s: State)
    requires Mirrors(queue, s)
    ensures var live := Keep(queue, AliveOf(queue)); Ids(live) == LiveIdle(s) && SameAlive(live, s)
  {
    var alive, aliveIds := AliveOf(queue), set t | t in s.tunnels && s.tunnels[t].alive;
    forall i | 0 <= i < |queue|
      ensures queue[i] in alive <==> queue[i].id in aliveIds
    {
      assert queue[i] in queue;
    }
    KeepIds(queue, alive, aliveIds);
    KeepSound(queue, alive);
    var live := Keep(queue, alive);
    forall i | 0 <= i < |live|
      ensures live[i].id in s.tunnels && (live[i].alive <==> s.tunnels[live[i].id].alive)
    {
      KeptAreAlive(queue, alive, i);
      var k :| 0 <= k < |queue| && queue[k] == live[i];
    }
  }

  /** `register` on the handles is the Register step of the transition system. */
  lemma RegisterMirrored(queue: seq<IdleTunnel>, handle: IdleTunnel, s: State)
    requires Mirrors(queue, s) && handle.alive && handle.id !in s.tunnels
    ensures var live := Keep(queue, AliveOf(queue));
            var s' := DoRegister(s, handle.id);
            if |live| < s.capacity
            then Mirrors(live + [handle], s') && handle.id in s'.tunnels
            else Mirrors(live, s') && handle.id !in s'.tunnels
  {
    LiveQueuesAgree(queue, s);
    var live := Keep(queue, AliveOf(queue));
    assert Ids(live + [handle]) == Ids(live) + [handle.id];
  }

  /** `acquire` on the handles is the Acquire step. */
  lemma AcquireMirrored(queue: seq<IdleTunnel>, s: State, c: ConnId)
    requires Mirrors(queue, s) && c in s.conns
    ensures var live := Keep(queue, AliveOf(queue));
            var s' := DoAcquire(s, c);
            if live == [] then Mirrors([], s') && s'.conns == s.conns
            else Mirrors(live[1..], s') && InPhase(s', c, Holding(live[0].id))
  {
    LiveQueuesAgree(queue, s);
    var live := Keep(queue, AliveOf(queue));
    if live != [] {
      assert Ids(live)[0] == live[0].id && Ids(live[1..]) == Ids(live)[1..];
    }
  }

  class TunnelPool {
    var idle: seq<IdleTunnel>
    const capacity: nat

    ghost predicate Valid()
      reads this
    {
      |idle| <= capacity && NoRepeats(idle)
    }

    constructor (capacity: nat)
      ensures Valid() && idle == [] && this.capacity == capacity
    {
      this.capacity := capacity;
      idle := [];
    }

    /** The queue after `retain`: dead tunnels dropped, order kept. */
    ghost function Live(): seq<IdleTunnel>
      reads this, idle
    {
      Keep(idle, AliveOf(idle))
    }

    method Retain()
      requires Valid()
      modifies this
      ensures Valid() && idle == old(Live())
    {
      var kept: seq<IdleTunnel> := [];
      ghost var alive := AliveOf(idle);
      for i := 0 to |idle|
        invariant kept == Keep(idle[..i], alive)
      {
        assert idle[..i + 1][..i] == idle[..i];
        if idle[i].alive {
          kept := kept + [idle[i]];
        }
      }
      assert idle[..|idle|] == idle;
      KeepSound(idle, alive);
      idle := kept;
    }

    /** The locked part of `register`: the tunnel is queued last unless the live queue is full. */
    method Register(handle: IdleTunnel) returns (accepted: bool)
      requires Valid() && handle !in idle
      modifies this
      ensures Valid()
      ensures accepted == (|old(Live())| < capacity)
      ensures idle == old(Live()) + if accepted then [handle] else []
    {
      KeepSound(idle, AliveOf(idle));
      Retain();
      if |idle| >= capacity {
        return false;
      }
      idle := idle + [handle];
      return true;
    }

    /** The locked part of `acquire`: the longest-waiting live tunnel leaves the queue, if there is one. */
    method TryAcquire() returns (tunnel: Option<IdleTunnel>)
      requires Valid()
      modifies this
      ensures Valid()
      ensures if old(Live()) == [] then tunnel == None && idle == []
              else tunnel == Some(old(Live())[0]) && idle == old(Live())[1..]
      ensures tunnel.Some? ==> tunnel.value.alive && tunnel.value !in idle
    {
      ghost var alive := AliveOf(idle);
      KeepSound(idle, alive);
      Retain();
      if |idle| == 0 {
        return None;
      }
      tunnel := Some(idle[0]);
      KeptAreAlive(old(idle), alive, 0);
      idle := idle[1..];
    }
  }

  // ----- the whole gateway -----

  /**
   * `holder` is the public connection that took the tunnel out of the queue; `mailbox` its
   * unread assignment, `assignment` the one the manager is working on, `reply` the answer in the
   * one-shot channel that has not been received yet, `owner` the connection that received the
   * stream. `receiving` tells whether the manager still holds the receiving end of the mailbox.
   */
  datatype Tunnel = Tunnel(
    link: Link.Link,
    alive: bool,
    holder: Option<ConnId>,
    receiving: bool,
    mailbox: Option<ConnId>,
    assignment: Option<ConnId>,
    reply: Reply,
    owner: Option<ConnId>)

  /** What the one-shot channel holds; a dropped sender counts as an error. */
  datatype Reply = NoReply | StreamSent | ErrorSent

  const NEW_TUNNEL: Tunnel := Tunnel(Link.NEW_LINK, true, None, true, None, None, NoReply, None)

  datatype Phase = Seeking | Holding(t: TunnelId) | Awaiting(t: TunnelId) | Serving(t: TunnelId) | Failed

  /** One `serve_public_connection`; `tried` are the tunnels it has taken so far. */
  datatype Conn = Conn(attempts: nat, tried: seq<TunnelId>, phase: Phase)

  datatype State = State(capacity: nat, idle: seq<TunnelId>, tunnels: map<TunnelId, Tunnel>, conns: map<ConnId, Conn>)

  datatype Event =
    | Register(t: TunnelId)
    | OpenPublic(c: ConnId)
    | Acquire(c: ConnId)
    | AcquireTimeout(c: ConnId)
    | SendAssignment(c: ConnId)
    | TakeAssignment(t: TunnelId)
    | MarkDead(t: TunnelId)
    | SendReply(t: TunnelId)
    | CloseMailbox(t: TunnelId)
    | ReceiveReply(c: ConnId)
    | ReplyTimeout(c: ConnId)
    | OnLink(t: TunnelId, a: Link.Action)

  function LiveIdle(s: State): seq<TunnelId> {
    Keep(s.idle, set t | t in s.tunnels && s.tunnels[t].alive)
  }

  predicate ManagerRuns(x: Tunnel) {
    Link.BeforeStart(x.link.gateway) || x.link.gateway == Link.AwaitReady
  }

  predicate InPhase(s: State, c: ConnId, p: Phase) { c in s.conns && s.conns[c].phase == p }

  predicate Enabled(s: State, e: Event) {
    match e
    case Register(t) => t !in s.tunnels
    case OpenPublic(c) => c !in s.conns
    case Acquire(c) => InPhase(s, c, Seeking)
    case AcquireTimeout(c) => InPhase(s, c, Seeking)
    case SendAssignment(c) =>
      && c in s.conns && s.conns[c].phase.Holding? && s.conns[c].phase.t in s.tunnels
      && var x := s.tunnels[s.conns[c].phase.t]; !x.receiving || x.mailbox.None?
    case TakeAssignment(t) => t in s.tunnels && s.tunnels[t].mailbox.Some? && s.tunnels[t].link.gateway == Link.Idle
    case MarkDead(t) => t in s.tunnels && !ManagerRuns(s.tunnels[t])
    case SendReply(t) =>
      && t in s.tunnels && s.tunnels[t].assignment.Some? && s.tunnels[t].assignment.value in s.conns
      && !ManagerRuns(s.tunnels[t]) && !s.tunnels[t].alive
    case CloseMailbox(t) =>
      && t in s.tunnels && s.tunnels[t].receiving && s.tunnels[t].assignment.None?
      && !ManagerRuns(s.tunnels[t]) && !s.tunnels[t].alive
      && (s.tunnels[t].mailbox.Some? ==> s.tunnels[t].mailbox.value in s.conns)
    case ReceiveReply(c) =>
      && c in s.conns && s.conns[c].phase.Awaiting? && s.conns[c].phase.t in s.tunnels
      && s.tunnels[s.conns[c].phase.t].reply != NoReply
    case ReplyTimeout(c) => c in s.conns && s.conns[c].phase.Awaiting? && s.conns[c].phase.t in s.tunnels
    case OnLink(t, a) =>
      && t in s.tunnels && Link.Enabled(s.tunnels[t].link, a) && !a.Assign?
      && (Link.IsPublicCopy(a) ==> s.tunnels[t].owner.Some?)
  }

  /** The tail of the loop in `serve_public_connection`: give up after eight attempts. */
  function Retry(x: Conn): Conn {
    x.(phase := if x.attempts >= MAX_ATTEMPTS then Failed else Seeking)
  }

  function SetTunnel(s: State, t: TunnelId, x: Tunnel): State { s.(tunnels := s.tunnels[t := x]) }

  function SetConn(s: State, c: ConnId, x: Conn): State { s.(conns := s.conns[c := x]) }

  function DoRegister(s: State, t: TunnelId): State {
    var live := LiveIdle(s);
    if |live| >= s.capacity then s.(idle := live)
    else SetTunnel(s, t, NEW_TUNNEL).(idle := live + [t])
  }

  function DoAcquire(s: State, c: ConnId): State
    requires c in s.conns
  {
    var live := LiveIdle(s);
    if live == [] || live[0] !in s.tunnels then s.(idle := live)
    else TakeFront(s.(idle := live), c, live[0])
  }

  /** The first tunnel of the pruned queue changes hands. */
  function TakeFront(s: State, c: ConnId, t: TunnelId): State
    requires c in s.conns && t in s.tunnels && s.idle != []
  {
    var x := s.conns[c];
    SetConn(SetTunnel(s, t, s.tunnels[t].(holder := Some(c))), c, Conn(x.attempts + 1, x.tried + [t], Holding(t)))
    .(idle := s.idle[1..])
  }

  /** The send succeeds while the manager holds the receiver, even after its loop has failed. */
  function DoSend(s: State, c: ConnId): State
    requires c in s.conns && s.conns[c].phase.Holding? && s.conns[c].phase.t in s.tunnels
  {
    var t := s.conns[c].phase.t;
    if s.tunnels[t].receiving then
      SetConn(SetTunnel(s, t, s.tunnels[t].(mailbox := Some(c))), c, s.conns[c].(phase := Awaiting(t)))
    else SetConn(s, c, Retry(s.conns[c]))
  }

  function DoTake(s: State, t: TunnelId): State
    requires t in s.tunnels && s.tunnels[t].link.gateway == Link.Idle
  {
    var x := s.tunnels[t];
    SetTunnel(s, t, x.(link := Link.Apply(x.link, Link.Assign), mailbox := None, assignment := x.mailbox))
  }

  /** The stream is dropped: this end of the link is closed. */
  function DropStream(x: Tunnel): (r: Tunnel)
    ensures r.link.gateway == Link.Dead && r.link.publicIn == x.link.publicIn && r.link.publicOut == x.link.publicOut
    ensures r == x.(link := r.link)
  {
    if x.link.gateway == Link.Dead then x else x.(link := Link.Apply(x.link, Link.GatewayFails))
  }

  /** The manager answers; if the connection stopped waiting, the answer and the stream are dropped. */
  function DoSendReply(s: State, t: TunnelId): State
    requires t in s.tunnels && s.tunnels[t].assignment.Some? && s.tunnels[t].assignment.value in s.conns
  {
    var x := s.tunnels[t].(assignment := None);
    SetTunnel(s, t,
      if s.conns[s.tunnels[t].assignment.value].phase != Awaiting(t) then DropStream(x)
      else x.(reply := if x.link.gateway == Link.Dead then ErrorSent else StreamSent))
  }

  /** The manager's task ends: the receiver goes, and an unread assignment with it. */
  function DoCloseMailbox(s: State, t: TunnelId): State
    requires t in s.tunnels && (s.tunnels[t].mailbox.Some? ==> s.tunnels[t].mailbox.value in s.conns)
  {
    var x := s.tunnels[t].(receiving := false, mailbox := None);
    var waiting := s.tunnels[t].mailbox.Some? && s.conns[s.tunnels[t].mailbox.value].phase == Awaiting(t);
    SetTunnel(s, t, if waiting then x.(reply := ErrorSent) else x)
  }

  function DoReceive(s: State, c: ConnId): State
    requires c in s.conns && s.conns[c].phase.Awaiting? && s.conns[c].phase.t in s.tunnels
  {
    var t := s.conns[c].phase.t;
    var x := s.tunnels[t].(reply := NoReply);
    if s.tunnels[t].reply == StreamSent then
      SetConn(SetTunnel(s, t, x.(owner := Some(c))), c, s.conns[c].(phase := Serving(t)))
    else SetConn(SetTunnel(s, t, x), c, Retry(s.conns[c]))
  }

  /** The connection stops waiting; a stream already in the channel is dropped with it. */
  function DoReplyTimeout(s: State, c: ConnId): State
    requires c in s.conns && s.conns[c].phase.Awaiting? && s.conns[c].phase.t in s.tunnels
  {
    var t := s.conns[c].phase.t;
    var x := s.tunnels[t];
    SetConn(SetTunnel(s, t, if x.reply == StreamSent then DropStream(x.(reply := NoReply)) else x.(reply := NoReply)),
            c, Retry(s.conns[c]))
  }

  function Apply(s: State, e: Event): State
    requires Enabled(s, e)
  {
    match e
    case Register(t) => DoRegister(s, t)
    case OpenPublic(c) => SetConn(s, c, Conn(0, [], Seeking))
    case Acquire(c) => DoAcquire(s, c)
    case AcquireTimeout(c) => SetConn(s, c, s.conns[c].(phase := Failed))
    case SendAssignment(c) => DoSend(s, c)
    case TakeAssignment(t) => DoTake(s, t)
    case MarkDead(t) => SetTunnel(s, t, s.tunnels[t].(alive := false))
    case SendReply(t) => DoSendReply(s, t)
    case CloseMailbox(t) => DoCloseMailbox(s, t)
    case ReceiveReply(c) => DoReceive(s, c)
    case ReplyTimeout(c) => DoReplyTimeout(s, c)
    case OnLink(t, a) => SetTunnel(s, t, s.tunnels[t].(link := Link.Apply(s.tunnels[t].link, a)))
  }

  // ----- the invariant -----

  ghost predicate QueueOk(s: State) {
    && |s.idle| <= s.capacity && NoRepeats(s.idle)
    && forall t :: t in s.idle ==> t in s.tunnels && s.tunnels[t].holder.None?
  }

  /** A tunnel's claims all come from the one connection that took it, one stage at a time. */
  ghost predicate TunnelOk(s: State, t: TunnelId)
    requires t in s.tunnels
  {
    var x := s.tunnels[t];
    && (x.holder.Some? ==> x.holder.value in s.conns && t in s.conns[x.holder.value].tried)
    && (x.mailbox.Some? ==> x.mailbox == x.holder && x.receiving && x.assignment.None? && x.reply == NoReply && x.owner.None?)
    && (x.assignment.Some? ==> && x.assignment == x.holder && x.reply == NoReply && x.owner.None?
                               && !Link.BeforeStart(x.link.gateway))
    && (x.reply != NoReply ==> && x.holder.Some? && InPhase(s, x.holder.value, Awaiting(t)) && x.owner.None?
                               && !ManagerRuns(x))
    && (x.owner.Some? ==> x.owner == x.holder && !ManagerRuns(x) && InPhase(s, x.owner.value, Serving(t)))
    && (ManagerRuns(x) ==> x.receiving)
    && (x.link.gateway == Link.AwaitReady ==> x.assignment.Some?)
    && (x.link.gateway == Link.Handed ==> x.assignment.Some? || x.reply == StreamSent || x.owner.Some?)
    && (x.owner.None? ==> x.link.publicIn == [] && x.link.publicOut == [])
  }

  /** The assignment of a waiting connection is unread, being worked on, or answered. */
  predicate Pending(x: Tunnel, c: ConnId) { x.mailbox == Some(c) || x.assignment == Some(c) || x.reply != NoReply }

  predicate Unclaimed(x: Tunnel) { x.mailbox.None? && x.assignment.None? && x.reply == NoReply && x.owner.None? }

  /** A connection holds each tunnel it tried, and only those, and is at one definite stage with the last. */
  ghost predicate ConnOk(s: State, c: ConnId)
    requires c in s.conns
  {
    var x := s.conns[c];
    && |x.tried| == x.attempts <= MAX_ATTEMPTS && NoRepeats(x.tried)
    && (forall t :: t in x.tried ==> t in s.tunnels && s.tunnels[t].holder == Some(c))
    && (x.phase == Seeking ==> x.attempts < MAX_ATTEMPTS)
    && (x.phase.Holding? ==> x.phase.t in x.tried && Unclaimed(s.tunnels[x.phase.t]))
    && (x.phase.Awaiting? ==> && x.phase.t in x.tried && s.tunnels[x.phase.t].owner.None?
                              && Pending(s.tunnels[x.phase.t], c))
    && (x.phase.Serving? ==> x.phase.t in x.tried && s.tunnels[x.phase.t].owner == Some(c))
  }

  ghost predicate Inv(s: State) {
    && QueueOk(s)
    && (forall t :: t in s.tunnels ==> TunnelOk(s, t))
    && (forall c :: c in s.conns ==> ConnOk(s, c))
  }

  lemma LiveSound(s: State)
    requires QueueOk(s)
    ensures |LiveIdle(s)| <= |s.idle| && NoRepeats(LiveIdle(s))
    ensures forall t :: t in LiveIdle(s) ==> t in s.idle
  {
    KeepSound(s.idle, set t | t in s.tunnels && s.tunnels[t].alive);
  }

  lemma PruneKeepsInv(s: State)
    requires Inv(s)
    ensures Inv(s.(idle := LiveIdle(s)))
  {
    LiveSound(s);
    var s' := s.(idle := LiveIdle(s));
    assert forall t :: t in s'.tunnels ==> TunnelOk(s, t) && TunnelOk(s', t);
    assert forall c :: c in s'.conns ==> ConnOk(s, c) && ConnOk(s', c);
  }

  lemma {:induction false} EnqueueKeepsInv(s: State, t: TunnelId)
    requires Inv(s) && t !in s.tunnels && |s.idle| < s.capacity
    ensures Inv(SetTunnel(s, t, NEW_TUNNEL).(idle := s.idle + [t]))
  {
    var s' := SetTunnel(s, t, NEW_TUNNEL).(idle := s.idle + [t]);
    assert forall u :: u in s.tunnels ==> TunnelOk(s, u);
    assert forall c :: c in s'.conns ==> ConnOk(s, c) && ConnOk(s', c);
  }

  lemma RegisterKeepsInv(s: State, t: TunnelId)
    requires Inv(s) && t !in s.tunnels
    ensures Inv(DoRegister(s, t))
  {
    PruneKeepsInv(s);
    if |LiveIdle(s)| < s.capacity {
      EnqueueKeepsInv(s.(idle := LiveIdle(s)), t);
    }
  }

  lemma TakeFrontKeepsQueue(s: State, c: ConnId)
    requires QueueOk(s) && c in s.conns && s.idle != []
    ensures s.idle[0] in s.tunnels && QueueOk(TakeFront(s, c, s.idle[0]))
  {
    assert s.idle[0] in s.idle;
    assert forall u :: u in s.idle[1..] ==> u in s.idle && u != s.idle[0];
  }

  lemma TakeFrontKeepsTunnel(s: State, c: ConnId, u: TunnelId)
    requires Inv(s) && InPhase(s, c, Seeking) && s.idle != [] && s.idle[0] in s.tunnels && u in s.tunnels
    ensures TunnelOk(TakeFront(s, c, s.idle[0]), u)
  {
    assert s.idle[0] in s.idle;
    assert TunnelOk(s, u);
  }

  lemma TakeFrontKeepsConn(s: State, c: ConnId, d: ConnId)
    requires Inv(s) && InPhase(s, c, Seeking) && s.idle != [] && s.idle[0] in s.tunnels && d in s.conns
    ensures ConnOk(TakeFront(s, c, s.idle[0]), d)
  {
    assert s.idle[0] in s.idle;
    assert TunnelOk(s, s.idle[0]) && ConnOk(s, d);
  }

  lemma TakeFrontKeepsInv(s: State, c: ConnId)
    requires Inv(s) && InPhase(s, c, Seeking) && s.idle != []
    ensures s.idle[0] in s.tunnels && Inv(TakeFront(s, c, s.idle[0]))
  {
    TakeFrontKeepsQueue(s, c);
    var s' := TakeFront(s, c, s.idle[0]);
    forall u | u in s'.tunnels ensures TunnelOk(s', u) { TakeFrontKeepsTunnel(s, c, u); }
    forall d | d in s'.conns ensures ConnOk(s', d) { TakeFrontKeepsConn(s, c, d); }
  }

  lemma AcquireKeepsInv(s: State, c: ConnId)
    requires Inv(s) && InPhase(s, c, Seeking)
    ensures Inv(DoAcquire(s, c))
  {
    PruneKeepsInv(s);
    if LiveIdle(s) != [] {
      TakeFrontKeepsInv(s.(idle := LiveIdle(s)), c);
    }
  }

  /** A connection's phase may change to Seeking or Failed as long as it owns no stream and awaits none. */
  lemma SetPhaseKeepsInv(s: State, c: ConnId, phase: Phase)
    requires Inv(s) && c in s.conns && !s.conns[c].phase.Serving? && !s.conns[c].phase.Awaiting?
    requires phase == Failed || (phase == Seeking && s.conns[c].attempts < MAX_ATTEMPTS)
    ensures Inv(SetConn(s, c, s.conns[c].(phase := phase)))
  {
    var s' := SetConn(s, c, s.conns[c].(phase := phase));
    forall u | u in s'.tunnels
      ensures TunnelOk(s', u)
    {
      assert TunnelOk(s, u);
    }
    forall d | d in s'.conns
      ensures ConnOk(s', d)
    {
      assert ConnOk(s, d);
    }
  }

  lemma RetryKeepsInv(s: State, c: ConnId)
    requires Inv(s) && c in s.conns && !s.conns[c].phase.Serving? && !s.conns[c].phase.Awaiting?
    ensures Inv(SetConn(s, c, Retry(s.conns[c])))
  {
    SetPhaseKeepsInv(s, c, Retry(s.conns[c]).phase);
  }

  lemma OpenKeepsInv(s: State, c: ConnId)
    requires Inv(s) && c !in s.conns
    ensures Inv(SetConn(s, c, Conn(0, [], Seeking)))
  {
    var s' := SetConn(s, c, Conn(0, [], Seeking));
    forall u | u in s'.tunnels
      ensures TunnelOk(s', u)
    {
      assert TunnelOk(s, u);
    }
    forall d | d in s.conns
      ensures ConnOk(s', d)
    {
      assert ConnOk(s, d);
    }
  }

  /** One tunnel and one connection change together; everybody else is untouched. */
  lemma PairKeepsInv(s: State, t: TunnelId, x: Tunnel, c: ConnId, y: Conn)
    requires Inv(s) && t in s.tunnels && c in s.conns
    requires x.holder == s.tunnels[t].holder == Some(c) && y.tried == s.conns[c].tried && y.attempts == s.conns[c].attempts
    requires !s.conns[c].phase.Serving? && (s.conns[c].phase.Awaiting? ==> s.conns[c].phase.t == t)
    requires var s' := SetConn(SetTunnel(s, t, x), c, y); TunnelOk(s', t) && ConnOk(s', c)
    ensures Inv(SetConn(SetTunnel(s, t, x), c, y))
  {
    var s' := SetConn(SetTunnel(s, t, x), c, y);
    forall u | u in s'.tunnels && u != t
      ensures TunnelOk(s', u)
    {
      assert TunnelOk(s, u);
    }
    forall d | d in s'.conns && d != c
      ensures ConnOk(s', d)
    {
      assert ConnOk(s, d);
    }
    assert QueueOk(s');
  }

  lemma SendKeepsInv(s: State, c: ConnId)
    requires Inv(s) && Enabled(s, SendAssignment(c))
    ensures Inv(DoSend(s, c))
  {
    var t := s.conns[c].phase.t;
    assert ConnOk(s, c) && TunnelOk(s, t);
    if s.tunnels[t].receiving {
      PairKeepsInv(s, t, s.tunnels[t].(mailbox := Some(c)), c, s.conns[c].(phase := Awaiting(t)));
    } else {
      RetryKeepsInv(s, c);
    }
  }

  /** Only the tunnel changes; nobody but its holder refers to it. */
  lemma TunnelOnlyKeepsInv(s: State, t: TunnelId, x: Tunnel)
    requires Inv(s) && t in s.tunnels && x.holder == s.tunnels[t].holder
    requires TunnelOk(SetTunnel(s, t, x), t)
    requires x.holder.Some? ==> x.holder.value in s.conns && ConnOk(SetTunnel(s, t, x), x.holder.value)
    ensures Inv(SetTunnel(s, t, x))
  {
    var s' := SetTunnel(s, t, x);
    forall u | u in s'.tunnels && u != t
      ensures TunnelOk(s', u)
    {
      assert TunnelOk(s, u);
    }
    forall d | d in s'.conns && Some(d) != x.holder
      ensures ConnOk(s', d)
    {
      assert ConnOk(s, d);
      assert t !in s.conns[d].tried;
    }
    assert QueueOk(s');
  }

  lemma TakeKeepsInv(s: State, t: TunnelId)
    requires Inv(s) && Enabled(s, TakeAssignment(t))
    ensures Inv(DoTake(s, t))
  {
    assert TunnelOk(s, t) && ConnOk(s, s.tunnels[t].holder.value);
    TunnelOnlyKeepsInv(s, t, DoTake(s, t).tunnels[t]);
  }

  lemma SendReplyKeepsInv(s: State, t: TunnelId)
    requires Inv(s) && Enabled(s, SendReply(t))
    ensures Inv(DoSendReply(s, t))
  {
    assert TunnelOk(s, t) && ConnOk(s, s.tunnels[t].holder.value);
    TunnelOnlyKeepsInv(s, t, DoSendReply(s, t).tunnels[t]);
  }

  lemma CloseMailboxKeepsInv(s: State, t: TunnelId)
    requires Inv(s) && Enabled(s, CloseMailbox(t))
    ensures Inv(DoCloseMailbox(s, t))
  {
    assert TunnelOk(s, t);
    if s.tunnels[t].holder.Some? {
      assert ConnOk(s, s.tunnels[t].holder.value);
    }
    TunnelOnlyKeepsInv(s, t, DoCloseMailbox(s, t).tunnels[t]);
  }

  lemma ReceiveKeepsInv(s: State, c: ConnId)
    requires Inv(s) && Enabled(s, ReceiveReply(c))
    ensures Inv(DoReceive(s, c))
  {
    var t := s.conns[c].phase.t;
    assert ConnOk(s, c) && TunnelOk(s, t);
    PairKeepsInv(s, t, DoReceive(s, c).tunnels[t], c, DoReceive(s, c).conns[c]);
  }

  lemma ReplyTimeoutKeepsInv(s: State, c: ConnId)
    requires Inv(s) && Enabled(s, ReplyTimeout(c))
    ensures Inv(DoReplyTimeout(s, c))
  {
    var t := s.conns[c].phase.t;
    assert ConnOk(s, c) && TunnelOk(s, t);
    PairKeepsInv(s, t, DoReplyTimeout(s, c).tunnels[t], c, DoReplyTimeout(s, c).conns[c]);
  }

  lemma OnLinkKeepsTunnel(s: State, t: TunnelId, a: Link.Action)
    requires Inv(s) && Enabled(s, OnLink(t, a))
    ensures TunnelOk(Apply(s, OnLink(t, a)), t)
  {
    Link.StepEffects(s.tunnels[t].link, a);
    assert TunnelOk(s, t);
  }

  lemma OnLinkKeepsInv(s: State, t: TunnelId, a: Link.Action)
    requires Inv(s) && Enabled(s, OnLink(t, a))
    ensures Inv(Apply(s, OnLink(t, a)))
  {
    OnLinkKeepsTunnel(s, t, a);
    assert TunnelOk(s, t);
    if s.tunnels[t].holder.Some? {
      assert ConnOk(s, s.tunnels[t].holder.value);
    }
    TunnelOnlyKeepsInv(s, t, s.tunnels[t].(link := Link.Apply(s.tunnels[t].link, a)));
  }

  lemma MarkDeadKeepsInv(s: State, t: TunnelId)
    requires Inv(s) && t in s.tunnels
    ensures Inv(SetTunnel(s, t, s.tunnels[t].(alive := false)))
  {
    assert TunnelOk(s, t);
    if s.tunnels[t].holder.Some? {
      assert ConnOk(s, s.tunnels[t].holder.value);
    }
    TunnelOnlyKeepsInv(s, t, s.tunnels[t].(alive := false));
  }

  lemma StepKeepsInv(s: State, e: Event)
    requires Inv(s) && Enabled(s, e)
    ensures Inv(Apply(s, e))
  {
    match e
    case Register(t) => RegisterKeepsInv(s, t);
    case Acquire(c) => AcquireKeepsInv(s, c);
    case SendAssignment(c) => SendKeepsInv(s, c);
    case TakeAssignment(t) => TakeKeepsInv(s, t);
    case MarkDead(t) => MarkDeadKeepsInv(s, t);
    case SendReply(t) => SendReplyKeepsInv(s, t);
    case CloseMailbox(t) => CloseMailboxKeepsInv(s, t);
    case ReceiveReply(c) => ReceiveKeepsInv(s, c);
    case OnLink(t, a) => OnLinkKeepsInv(s, t, a);
    case OpenPublic(c) => OpenKeepsInv(s, c);
    case AcquireTimeout(c) => SetPhaseKeepsInv(s, c, Failed);
    case ReplyTimeout(c) => ReplyTimeoutKeepsInv(s, c);
  }

  // ----- the links inside the gateway -----

  ghost predicate LinksAligned(s: State) {
    forall t :: t in s.tunnels ==> Link.Aligned(s.tunnels[t].link)
  }

  /** A gateway step makes at most one step of the protocol on any link. */
  lemma LinkAfter(s: State, e: Event, t: TunnelId) returns (a: Link.Action)
    requires Enabled(s, e) && t in Apply(s, e).tunnels
    ensures var link' := Apply(s, e).tunnels[t].link;
            if t !in s.tunnels then link' == Link.NEW_LINK
            else || link' == s.tunnels[t].link
                 || (Link.Enabled(s.tunnels[t].link, a) && link' == Link.Apply(s.tunnels[t].link, a))
  {
    a := match e
      case TakeAssignment(_) => Link.Assign
      case OnLink(_, b) => b
      case _ => Link.GatewayFails;
  }

  lemma StepKeepsLinks(s: State, e: Event)
    requires LinksAligned(s) && Enabled(s, e)
    ensures LinksAligned(Apply(s, e))
  {
    forall t | t in Apply(s, e).tunnels
      ensures Link.Aligned(Apply(s, e).tunnels[t].link)
    {
      AlignedAfter(s, e, t);
    }
  }

  lemma AlignedAfter(s: State, e: Event, t: TunnelId)
    requires LinksAligned(s) && Enabled(s, e) && t in Apply(s, e).tunnels
    ensures Link.Aligned(Apply(s, e).tunnels[t].link)
  {
    var a := LinkAfter(s, e, t);
    var link' := Apply(s, e).tunnels[t].link;
    if t !in s.tunnels {
      Link.NewLinkAligned();
    } else if link' != s.tunnels[t].link {
      Link.StepKeepsAligned(s.tunnels[t].link, a);
    }
  }

  // ----- whole runs -----

  function Init(capacity: nat): State { State(capacity, [], map[], map[]) }

  /** Any interleaving of registrations, acquisitions, manager, client and connection steps. */
  ghost predicate IsRun(capacity: nat, states: seq<State>, events: seq<Event>) {
    && |states| == |events| + 1 && states[0] == Init(capacity)
    && forall i :: 0 <= i < |events| ==> Enabled(states[i], events[i]) && states[i + 1] == Apply(states[i], events[i])
  }

  lemma {:induction false} RunInv(capacity: nat, states: seq<State>, events: seq<Event>, i: nat)
    requires IsRun(capacity, states, events) && i < |states|
    ensures Inv(states[i]) && LinksAligned(states[i]) && states[i].capacity == capacity
  {
    if i > 0 {
      RunInv(capacity, states, events, i - 1);
      StepKeepsInv(states[i - 1], events[i - 1]);
      StepKeepsLinks(states[i - 1], events[i - 1]);
    }
  }

  lemma AcquireKeepsHolder(s: State, c: ConnId, t: TunnelId)
    requires QueueOk(s) && c in s.conns && t in s.tunnels && s.tunnels[t].holder.Some?
    ensures t in DoAcquire(s, c).tunnels && DoAcquire(s, c).tunnels[t].holder == s.tunnels[t].holder
  {
    LiveSound(s);
    if LiveIdle(s) != [] {
      assert LiveIdle(s)[0] in LiveIdle(s);
    }
  }

  /** Once a connection has taken a tunnel, that stays on record. */
  lemma HolderStays(s: State, e: Event, t: TunnelId)
    requires Inv(s) && Enabled(s, e) && t in s.tunnels && s.tunnels[t].holder.Some?
    ensures t in Apply(s, e).tunnels && Apply(s, e).tunnels[t].holder == s.tunnels[t].holder
  {
    if e.Acquire? {
      AcquireKeepsHolder(s, e.c, t);
    }
  }

  lemma HolderStaysNext(capacity: nat, states: seq<State>, events: seq<Event>, i: nat, t: TunnelId)
    requires IsRun(capacity, states, events) && i < |events|
    requires t in states[i].tunnels && states[i].tunnels[t].holder.Some?
    ensures t in states[i + 1].tunnels && states[i + 1].tunnels[t].holder == states[i].tunnels[t].holder
  {
    RunInv(capacity, states, events, i);
    HolderStays(states[i], events[i], t);
  }

  lemma {:induction false} HolderStaysForever(capacity: nat, states: seq<State>, events: seq<Event>, i: nat, j: nat, t: TunnelId)
    requires IsRun(capacity, states, events) && i <= j < |states|
    requires t in states[i].tunnels && states[i].tunnels[t].holder.Some?
    ensures t in states[j].tunnels && states[j].tunnels[t].holder == states[i].tunnels[t].holder
    decreases j
  {
    if i < j {
      HolderStaysForever(capacity, states, events, i, j - 1, t);
      HolderStaysNext(capacity, states, events, j - 1, t);
    }
  }

  /**
   * Exclusive assignment. In every run the queue respects its capacity and never repeats a tunnel;
   * a connection consumes at most eight tunnels, all distinct; and a tunnel that a connection has
   * taken is never taken by another one, now or later.
   */
  lemma ExclusiveAssignment(capacity: nat, states: seq<State>, events: seq<Event>, i: nat, c: ConnId)
    requires IsRun(capacity, states, events) && i < |states| && c in states[i].conns
    ensures |states[i].idle| <= capacity && NoRepeats(states[i].idle)
    ensures |states[i].conns[c].tried| <= MAX_ATTEMPTS && NoRepeats(states[i].conns[c].tried)
    ensures forall t, j, d :: t in states[i].conns[c].tried && i <= j < |states| ==>
              (d in states[j].conns && t in states[j].conns[d].tried ==> d == c)
  {
    RunInv(capacity, states, events, i);
    assert ConnOk(states[i], c);
    forall t, j, d | t in states[i].conns[c].tried && i <= j < |states| && d in states[j].conns
                     && t in states[j].conns[d].tried
      ensures d == c
    {
      HolderStaysForever(capacity, states, events, i, j, t);
      RunInv(capacity, states, events, j);
      assert ConnOk(states[j], d);
    }
  }

  /** A taken tunnel is never queued again. */
  lemma NeverQueuedAgain(capacity: nat, states: seq<State>, events: seq<Event>, i: nat, j: nat, c: ConnId, t: TunnelId)
    requires IsRun(capacity, states, events) && i <= j < |states|
    requires c in states[i].conns && t in states[i].conns[c].tried
    ensures t !in states[j].idle
  {
    RunInv(capacity, states, events, i);
    assert ConnOk(states[i], c);
    HolderStaysForever(capacity, states, events, i, j, t);
    RunInv(capacity, states, events, j);
  }

  /**
   * The data phase, in every run. A public connection that serves a tunnel is its only owner; the
   * client had connected its local service; all bytes in flight are forwarded data in order; and
   * what each endpoint received is a prefix of what the other sent.
   */
  lemma ServedStreamIsAligned(capacity: nat, states: seq<State>, events: seq<Event>, i: nat, c: ConnId, t: TunnelId)
    requires IsRun(capacity, states, events) && i < |states| && InPhase(states[i], c, Serving(t))
    ensures t in states[i].tunnels && states[i].tunnels[t].owner == Some(c)
    ensures var l := states[i].tunnels[t].link;
            && (l.gateway == Link.Handed || l.gateway == Link.Dead)
            && (l.gateway == Link.Handed ==> l.localConnected)
            && (l.gateway == Link.Handed && l.client == Link.Forwarding ==>
                  && l.publicIn == l.localOut + l.forLocal + l.down.bytes + l.fromPublic
                  && l.localIn == l.publicOut + l.forPublic + l.up.bytes + l.fromLocal)
            && l.localOut <= l.publicIn && l.publicOut <= l.localIn
            && (l.localDone && l.down.closed ==> l.localOut == l.publicIn)
            && (l.publicDone && l.up.closed ==> l.publicOut == l.localIn)
    ensures forall d :: InPhase(states[i], d, Serving(t)) ==> d == c
  {
    RunInv(capacity, states, events, i);
    assert ConnOk(states[i], c) && TunnelOk(states[i], t);
    var l := states[i].tunnels[t].link;
    if l.gateway == Link.Handed {
      Link.HandedIsAligned(l);
    }
    Link.DeliveredIsPrefix(l);
    Link.CleanEndAccounts(l);
    forall d | InPhase(states[i], d, Serving(t))
      ensures d == c
    {
      assert ConnOk(states[i], d);
    }
  }

  /** The gateway end of tunnel t failed at step j while it held bytes taken and not yet written. */
  predicate GatewayDrops(states: seq<State>, j: nat, t: TunnelId)
    requires j + 1 < |states|
  {
    && t in states[j].tunnels && t in states[j + 1].tunnels
    && states[j].tunnels[t].link.gateway != Link.Dead && states[j + 1].tunnels[t].link.gateway == Link.Dead
    && states[j].tunnels[t].link.fromPublic != []
  }

  predicate ClientDrops(states: seq<State>, j: nat, t: TunnelId)
    requires j + 1 < |states|
  {
    && t in states[j].tunnels && t in states[j + 1].tunnels
    && states[j].tunnels[t].link.client != Link.Gone && states[j + 1].tunnels[t].link.client == Link.Gone
    && states[j].tunnels[t].link.fromLocal != []
  }

  lemma TunnelsStay(s: State, e: Event, t: TunnelId)
    requires Enabled(s, e) && t in s.tunnels
    ensures t in Apply(s, e).tunnels
  {
  }

  lemma {:induction false} TunnelsStayForever(capacity: nat, states: seq<State>, events: seq<Event>, i: nat, j: nat, t: TunnelId)
    requires IsRun(capacity, states, events) && i <= j < |states| && t in states[i].tunnels
    ensures t in states[j].tunnels
    decreases j
  {
    if i < j {
      TunnelsStayForever(capacity, states, events, i, j - 1, t);
      TunnelsStay(states[j - 1], events[j - 1], t);
    }
  }

  lemma LossAtStep(capacity: nat, states: seq<State>, events: seq<Event>, j: nat, t: TunnelId)
    requires IsRun(capacity, states, events) && j < |events| && t in states[j].tunnels
    ensures t in states[j + 1].tunnels
    ensures var l, l' := states[j].tunnels[t].link, states[j + 1].tunnels[t].link;
            && (l'.lostDown != [] <==> l.lostDown != [] || GatewayDrops(states, j, t))
            && (l'.lostUp != [] <==> l.lostUp != [] || ClientDrops(states, j, t))
  {
    TunnelsStay(states[j], events[j], t);
    RunInv(capacity, states, events, j);
    var a := LinkAfter(states[j], events[j], t);
    var l, l' := states[j].tunnels[t].link, states[j + 1].tunnels[t].link;
    if l' != l {
      Link.LossByAction(l, a);
    }
  }

  ghost predicate EverGatewayDrops(states: seq<State>, i: nat, t: TunnelId)
    requires i < |states|
  {
    exists j :: 0 <= j < i && GatewayDrops(states, j, t)
  }

  ghost predicate EverClientDrops(states: seq<State>, i: nat, t: TunnelId)
    requires i < |states|
  {
    exists j :: 0 <= j < i && ClientDrops(states, j, t)
  }

  lemma EverDropsNext(states: seq<State>, i: nat, t: TunnelId)
    requires i + 1 < |states|
    ensures EverGatewayDrops(states, i + 1, t) <==> EverGatewayDrops(states, i, t) || GatewayDrops(states, i, t)
    ensures EverClientDrops(states, i + 1, t) <==> EverClientDrops(states, i, t) || ClientDrops(states, i, t)
  {
  }

  /** Before it is registered a tunnel drops nothing. */
  lemma NoDropsBefore(capacity: nat, states: seq<State>, events: seq<Event>, i: nat, t: TunnelId)
    requires IsRun(capacity, states, events) && i < |events| && t !in states[i].tunnels
    ensures !EverGatewayDrops(states, i + 1, t) && !EverClientDrops(states, i + 1, t)
  {
    forall j | 0 <= j <= i
      ensures t !in states[j].tunnels
    {
      if t in states[j].tunnels {
        TunnelsStayForever(capacity, states, events, j, i, t);
      }
    }
  }

  lemma RegisteredFresh(capacity: nat, states: seq<State>, events: seq<Event>, i: nat, t: TunnelId)
    requires IsRun(capacity, states, events) && i < |events| && t !in states[i].tunnels && t in states[i + 1].tunnels
    ensures states[i + 1].tunnels[t].link == Link.NEW_LINK
  {
    var _ := LinkAfter(states[i], events[i], t);
  }

  lemma {:induction false} LostWhenDropped(capacity: nat, states: seq<State>, events: seq<Event>, i: nat, t: TunnelId)
    requires IsRun(capacity, states, events) && i < |states| && t in states[i].tunnels
    ensures states[i].tunnels[t].link.lostDown != [] <==> EverGatewayDrops(states, i, t)
    ensures states[i].tunnels[t].link.lostUp != [] <==> EverClientDrops(states, i, t)
  {
    if i > 0 && t in states[i - 1].tunnels {
      LostWhenDropped(capacity, states, events, i - 1, t);
      LossAtStep(capacity, states, events, i - 1, t);
      EverDropsNext(states, i - 1, t);
    } else if i > 0 {
      RegisteredFresh(capacity, states, events, i - 1, t);
      NoDropsBefore(capacity, states, events, i - 1, t);
    }
  }

  /**
   * Conservation inside the whole gateway, and exactly when: over any run, where a direction of a
   * tunnel reached a clean end, the endpoint got everything the other one sent if and only if the
   * far side never failed between taking bytes and writing them.
   */
  lemma ConservedExactlyWhen(capacity: nat, states: seq<State>, events: seq<Event>, i: nat, t: TunnelId)
    requires IsRun(capacity, states, events) && i < |states| && t in states[i].tunnels
    ensures var l := states[i].tunnels[t].link;
            && (l.localDone ==> (l.localOut == l.publicIn <==> !EverGatewayDrops(states, i, t)))
            && (l.publicDone ==> (l.publicOut == l.localIn <==> !EverClientDrops(states, i, t)))
  {
    RunInv(capacity, states, events, i);
    LostWhenDropped(capacity, states, events, i, t);
    Link.CleanEndAccounts(states[i].tunnels[t].link);
  }

  /** A waiting connection is never forgotten: its assignment is unread, being worked on, or answered. */
  lemma NoLostAssignment(capacity: nat, states: seq<State>, events: seq<Event>, i: nat, c: ConnId, t: TunnelId)
    requires IsRun(capacity, states, events) && i < |states| && InPhase(states[i], c, Awaiting(t))
    ensures t in states[i].tunnels
    ensures var x := states[i].tunnels[t];
            && (x.mailbox == Some(c) || x.assignment == Some(c) || x.reply != NoReply)
            && (x.mailbox.Some? ==> x.receiving && x.assignment.None? && x.reply == NoReply)
            && (x.assignment.Some? ==> x.reply == NoReply)
            && x.owner.None?
  {
    RunInv(capacity, states, events, i);
    assert ConnOk(states[i], c) && TunnelOk(states[i], t);
  }

  /** Sending an assignment never waits: the one-place mailbox of a taken tunnel is still empty. */
  lemma MailboxNeverFull(capacity: nat, states: seq<State>, events: seq<Event>, i: nat, c: ConnId, t: TunnelId)
    requires IsRun(capacity, states, events) && i < |states| && InPhase(states[i], c, Holding(t))
    ensures Enabled(states[i], SendAssignment(c))
    ensures t in states[i].tunnels && states[i].tunnels[t].link.publicIn == []
  {
    RunInv(capacity, states, events, i);
    assert ConnOk(states[i], c);
  }

  // ----- first come, first served -----

  /** The step at which tunnel t was registered. */
  ghost function BornAt(states: seq<State>, t: TunnelId, i: nat): (j: nat)
    requires i < |states|
    ensures j <= i
  {
    if i == 0 || t !in states[i - 1].tunnels then i else BornAt(states, t, i - 1)
  }

  ghost function Births(states: seq<State>, i: nat): TunnelId -> nat
    requires i < |states|
  {
    t => BornAt(states, t, i)
  }

  lemma IdleAfter(s: State, e: Event)
    requires Enabled(s, e)
    ensures var idle' := Apply(s, e).idle;
            || idle' == s.idle || idle' == LiveIdle(s) || (LiveIdle(s) != [] && idle' == LiveIdle(s)[1..])
            || (e.Register? && idle' == LiveIdle(s) + [e.t] && e.t !in s.tunnels)
  {
  }

  lemma LiveInOrder(s: State, born: TunnelId -> nat)
    requires Ordered(s.idle, born)
    ensures Ordered(LiveIdle(s), born)
  {
    KeepInOrder(s.idle, (set t | t in s.tunnels && s.tunnels[t].alive), born);
  }

  /** Queues a step can leave behind stay in order when the live queue is. */
  lemma OrderOf(idle: seq<TunnelId>, live: seq<TunnelId>, t: TunnelId, born: TunnelId -> nat)
    requires Ordered(live, born)
    requires idle == live || (live != [] && idle == live[1..])
          || (idle == live + [t] && forall u :: u in live ==> born(u) < born(t))
    ensures Ordered(idle, born)
  {
  }

  /** One step: the live queue, without its head or with one more at its end, stays in order. */
  lemma OrderStays(s: State, e: Event, born: TunnelId -> nat, born': TunnelId -> nat)
    requires Inv(s) && Enabled(s, e) && Ordered(s.idle, born)
    requires forall t :: t in s.tunnels ==> born'(t) == born(t)
    requires forall t, u :: t in s.tunnels && u !in s.tunnels ==> born'(t) < born'(u)
    ensures Ordered(Apply(s, e).idle, born')
  {
    IdleAfter(s, e);
    LiveSound(s);
    OrderedSame(s.idle, born, born');
    LiveInOrder(s, born');
    if Apply(s, e).idle != s.idle {
      OrderOf(Apply(s, e).idle, LiveIdle(s), if e.Register? then e.t else 0, born');
    }
  }

  /** In every state of every run the queue is in the order of registration. */
  lemma {:induction false} QueueIsFifo(capacity: nat, states: seq<State>, events: seq<Event>, i: nat)
    requires IsRun(capacity, states, events) && i < |states|
    ensures Ordered(states[i].idle, Births(states, i))
  {
    if i > 0 {
      QueueIsFifo(capacity, states, events, i - 1);
      RunInv(capacity, states, events, i - 1);
      OrderStays(states[i - 1], events[i - 1], Births(states, i - 1), Births(states, i));
    }
  }

  /**
   * An acquisition takes the tunnel that was registered first among the live ones in the queue, and
   * comes away empty only if the queue has no live tunnel.
   */
  lemma AcquireTakesOldest(capacity: nat, states: seq<State>, events: seq<Event>, i: nat, c: ConnId)
    requires IsRun(capacity, states, events) && i < |events| && events[i] == Acquire(c)
    ensures c in states[i].conns && c in states[i + 1].conns
    ensures var s, s' := states[i], states[i + 1];
            if s'.conns[c].phase.Holding?
            then
              var t := s'.conns[c].phase.t;
              && t in s.idle && t in s.tunnels && s.tunnels[t].alive && s'.conns[c].tried == s.conns[c].tried + [t]
              && forall u :: u in s.idle && u in s.tunnels && s.tunnels[u].alive ==> BornAt(states, t, i) <= BornAt(states, u, i)
            else
              s'.conns == s.conns && forall u :: u in s.idle && u in s.tunnels ==> !s.tunnels[u].alive
  {
    RunInv(capacity, states, events, i);
    QueueIsFifo(capacity, states, events, i);
    HeadIsOldest(states[i], Births(states, i));
    AcquireEffect(states[i], c);
  }

  lemma HeadIsOldest(s: State, born: TunnelId -> nat)
    requires Ordered(s.idle, born)
    ensures var live := LiveIdle(s);
            if live == [] then forall u :: u in s.idle && u in s.tunnels ==> !s.tunnels[u].alive
            else && live[0] in s.idle && live[0] in s.tunnels && s.tunnels[live[0]].alive
                 && forall u :: u in s.idle && u in s.tunnels && s.tunnels[u].alive ==> born(live[0]) <= born(u)
  {
    var live, alive := LiveIdle(s), (set t | t in s.tunnels && s.tunnels[t].alive);
    KeepSound(s.idle, alive);
    KeepInOrder(s.idle, alive, born);
    assert forall u :: u in s.idle && u in s.tunnels && s.tunnels[u].alive ==> u in live;
    if live != [] {
      assert live[0] in live;
      forall u | u in live
        ensures born(live[0]) <= born(u)
      {
        var q :| 0 <= q < |live| && live[q] == u;
      }
    }
  }

  lemma AcquireEffect(s: State, c: ConnId)
    requires Enabled(s, Acquire(c)) && (LiveIdle(s) != [] ==> LiveIdle(s)[0] in s.tunnels)
    ensures var s', live := Apply(s, Acquire(c)), LiveIdle(s);
            && c in s'.conns
            && (live == [] ==> s'.conns == s.conns)
            && (live != [] ==> s'.conns[c].phase == Holding(live[0]) && s'.conns[c].tried == s.conns[c].tried + [live[0]])
  {
  }

  // ----- retries -----

  predicate Tried8(y: Conn) { |y.tried| >= 8 }

  /**
   * What becomes of a connection that holds a tunnel or waits for one: a refused send, an error and
   * a timeout make it seek again if and only if it has taken fewer than eight tunnels.
   */
  lemma RetriesBelowEight(capacity: nat, states: seq<State>, events: seq<Event>, i: nat, c: ConnId, t: TunnelId)
    requires IsRun(capacity, states, events) && i < |events| && c in states[i].conns && t in states[i].tunnels
    ensures var y, y', x := states[i].conns[c].phase, states[i + 1].conns[c].phase, states[i].tunnels[t];
            var again := if Tried8(states[i].conns[c]) then Failed else Seeking;
            && c in states[i + 1].conns
            && (y == Holding(t) && events[i] == SendAssignment(c) ==> y' == if x.receiving then Awaiting(t) else again)
            && (y == Awaiting(t) && events[i] == ReceiveReply(c) ==> y' == if x.reply == StreamSent then Serving(t) else again)
            && (y == Awaiting(t) && events[i] == ReplyTimeout(c) ==> y' == again)
            && (events[i] == AcquireTimeout(c) ==> y == Seeking && y' == Failed)
  {
    RunInv(capacity, states, events, i);
    assert ConnOk(states[i], c);
    ConnsStay(states[i], events[i], c);
  }

  lemma ConnsStay(s: State, e: Event, c: ConnId)
    requires Enabled(s, e) && c in s.conns
    ensures c in Apply(s, e).conns
  {
  }

  /** A step changes a connection only if it is one of that connection's own. */
  lemma ConnAfter(s: State, e: Event, c: ConnId)
    requires Enabled(s, e) && c in s.conns
    ensures c in Apply(s, e).conns
    ensures Apply(s, e).conns[c] != s.conns[c] ==>
              e == Acquire(c) || e == AcquireTimeout(c) || e == SendAssignment(c) || e == ReceiveReply(c) || e == ReplyTimeout(c)
  {
  }

  /** A failed connection timed out, has taken eight tunnels, or had failed before without either showing here. */
  lemma FailsAtStep(s: State, e: Event, c: ConnId)
    requires Inv(s) && Enabled(s, e) && InPhase(Apply(s, e), c, Failed)
    ensures || |Apply(s, e).conns[c].tried| == 8 || e == AcquireTimeout(c)
            || (InPhase(s, c, Failed) && Apply(s, e).conns[c] == s.conns[c])
  {
    if c !in s.conns {
      NewConn(s, e, c);
    } else {
      assert ConnOk(s, c);
      ConnAfter(s, e, c);
    }
  }

  /** A connection gives up only because no tunnel came or because it has taken eight. */
  lemma {:induction false} FailedHasCause(capacity: nat, states: seq<State>, events: seq<Event>, i: nat, c: ConnId)
    requires IsRun(capacity, states, events) && i < |states| && InPhase(states[i], c, Failed)
    ensures |states[i].conns[c].tried| == 8 || exists j :: 0 <= j < i && events[j] == AcquireTimeout(c)
  {
    if i > 0 {
      RunInv(capacity, states, events, i - 1);
      FailsAtStep(states[i - 1], events[i - 1], c);
      if InPhase(states[i - 1], c, Failed) {
        FailedHasCause(capacity, states, events, i - 1, c);
      }
    }
  }

  lemma NewConn(s: State, e: Event, c: ConnId)
    requires Enabled(s, e) && c !in s.conns && c in Apply(s, e).conns
    ensures e == OpenPublic(c)
  {
  }

  // ----- why a tunnel dies -----

  /** A stream is dropped because nobody waits for it any more. */
  predicate Drops(s: State, e: Event, t: TunnelId)
    requires t in s.tunnels
  {
    || (e == SendReply(t) && s.tunnels[t].assignment.Some? && !InPhase(s, s.tunnels[t].assignment.value, Awaiting(t)))
    || (e.ReplyTimeout? && InPhase(s, e.c, Awaiting(t)) && s.tunnels[t].reply == StreamSent)
  }

  lemma DiesAtStep(s: State, e: Event, t: TunnelId)
    requires Enabled(s, e) && t in s.tunnels && t in Apply(s, e).tunnels && !e.OnLink?
    requires s.tunnels[t].link.gateway != Link.Dead
    ensures Apply(s, e).tunnels[t].link.gateway == Link.Dead <==> Drops(s, e, t)
  {
  }

  /** In any run the gateway end of a tunnel closes exactly by failing or by being dropped, never by a wrong reply. */
  lemma TunnelDiesExactlyWhen(capacity: nat, states: seq<State>, events: seq<Event>, i: nat, t: TunnelId)
    requires IsRun(capacity, states, events) && i < |events| && t in states[i].tunnels
    requires states[i].tunnels[t].link.gateway != Link.Dead
    ensures t in states[i + 1].tunnels
    ensures states[i + 1].tunnels[t].link.gateway == Link.Dead <==>
              events[i] == OnLink(t, Link.GatewayFails) || Drops(states[i], events[i], t)
  {
    RunInv(capacity, states, events, i);
    var s, e := states[i], events[i];
    TunnelsStay(s, e, t);
    if e.OnLink? {
      OnLinkDies(s, e.t, e.a, t);
    } else {
      DiesAtStep(s, e, t);
    }
  }

  lemma OnLinkDies(s: State, u: TunnelId, a: Link.Action, t: TunnelId)
    requires LinksAligned(s) && Enabled(s, OnLink(u, a)) && t in s.tunnels && s.tunnels[t].link.gateway != Link.Dead
    ensures t in Apply(s, OnLink(u, a)).tunnels
    ensures Apply(s, OnLink(u, a)).tunnels[t].link.gateway == Link.Dead <==> u == t && a == Link.GatewayFails
  {
    if u == t {
      Link.DiesByFailing(s.tunnels[t].link, a);
    }
  }

  // ----- a public connection does get served -----

  datatype Steps = Done | Then(event: Event, rest: Steps)

  predicate Possible(s: State, steps: Steps)
    decreases steps
  {
    steps.Then? ==> Enabled(s, steps.event) && Possible(Apply(s, steps.event), steps.rest)
  }

  function Reached(s: State, steps: Steps): State
    requires Possible(s, steps)
    decreases steps
  {
    if steps.Done? then s else Reached(Apply(s, steps.event), steps.rest)
  }

  function Beats(steps: Steps, t: TunnelId): nat {
    if steps.Done? then 0 else (if steps.event == OnLink(t, Link.Heartbeat) then 1 else 0) + Beats(steps.rest, t)
  }

  /** The steps serve the connection with the tunnel after n more heartbeats. */
  predicate Serves(s: State, steps: Steps, t: TunnelId, c: ConnId, n: nat) {
    Possible(s, steps) && Beats(steps, t) == n && InPhase(Reached(s, steps), c, Serving(t))
  }

  predicate Stage(s: State, t: TunnelId, x: Tunnel, c: ConnId, y: Conn) {
    t in s.tunnels && s.tunnels[t] == x && c in s.conns && s.conns[c] == y
  }

  lemma ServeNext(s: State, e: Event, rest: Steps, t: TunnelId, c: ConnId, n: nat)
    requires Enabled(s, e) && e != OnLink(t, Link.Heartbeat) && Serves(Apply(s, e), rest, t, c, n)
    ensures Serves(s, Then(e, rest), t, c, n)
  {
  }

  lemma ServeFromAnswered(s: State, t: TunnelId, x: Tunnel, c: ConnId, y: Conn) returns (steps: Steps)
    requires Stage(s, t, x, c, y) && y.phase == Awaiting(t) && x.reply == StreamSent
    ensures Serves(s, steps, t, c, 0)
  {
    steps := Then(ReceiveReply(c), Done);
    assert Serves(Apply(s, ReceiveReply(c)), Done, t, c, 0);
    ServeNext(s, ReceiveReply(c), Done, t, c, 0);
  }

  lemma ServeFromHanded(s: State, t: TunnelId, x: Tunnel, c: ConnId, y: Conn) returns (steps: Steps)
    requires Stage(s, t, x, c, y) && y.phase == Awaiting(t) && x.assignment == Some(c) && x.link.gateway == Link.Handed
    ensures Serves(s, steps, t, c, 0)
  {
    var s1, x1 := Apply(s, MarkDead(t)), x.(alive := false);
    var s2 := Apply(s1, SendReply(t));
    steps := ServeFromAnswered(s2, t, x1.(assignment := None, reply := StreamSent), c, y);
    ServeNext(s1, SendReply(t), steps, t, c, 0);
    ServeNext(s, MarkDead(t), Then(SendReply(t), steps), t, c, 0);
    steps := Then(MarkDead(t), Then(SendReply(t), steps));
  }

  /** Neither a heartbeat nor a step of the manager's START, nor the public copy loop. */
  predicate ClientSide(trace: Link.Trace) {
    trace.Do? ==> !trace.action.Assign? && !trace.action.Heartbeat? && !Link.IsPublicCopy(trace.action) && ClientSide(trace.rest)
  }

  lemma {:induction false} ServeAlongLink(s: State, t: TunnelId, x: Tunnel, c: ConnId, y: Conn, trace: Link.Trace)
    returns (steps: Steps)
    requires Stage(s, t, x, c, y) && y.phase == Awaiting(t) && x.assignment == Some(c)
    requires Link.Legal(x.link, trace) && ClientSide(trace) && Link.After(x.link, trace).gateway == Link.Handed
    ensures Serves(s, steps, t, c, 0)
    decreases trace
  {
    if trace.Stop? {
      steps := ServeFromHanded(s, t, x, c, y);
    } else {
      var e := OnLink(t, trace.action);
      steps := ServeAlongLink(Apply(s, e), t, x.(link := Link.Apply(x.link, trace.action)), c, y, trace.rest);
      ServeNext(s, e, steps, t, c, 0);
      steps := Then(e, steps);
    }
  }

  /** What the client and the manager do between START and READY. */
  function Answering(): (trace: Link.Trace)
    ensures ClientSide(trace)
  {
    Link.Do(Link.ClientCommand, Link.Do(Link.LocalConnect, Link.Do(Link.SendReady, Link.Do(Link.ReadReady, Link.Stop))))
  }

  lemma AnsweringHandsOver()
    ensures var l := Link.Apply(Link.NEW_LINK, Link.Assign);
            Link.Legal(l, Answering()) && Link.After(l, Answering()) == Link.HANDED_LINK
  {
    Link.HandOverReaches(Link.Stop);
    assert Link.HandOver(Link.Stop) == Link.Do(Link.Assign, Answering());
  }

  lemma ServeFromHeld(s: State, t: TunnelId, x: Tunnel, c: ConnId, y: Conn) returns (steps: Steps)
    requires Stage(s, t, x, c, y) && y.phase == Holding(t) && x.link == Link.NEW_LINK && x.receiving && x.mailbox.None?
    ensures Serves(s, steps, t, c, 0)
  {
    var s1, x1, y1 := Apply(s, SendAssignment(c)), x.(mailbox := Some(c)), y.(phase := Awaiting(t));
    var s2, x2 := Apply(s1, TakeAssignment(t)), x.(assignment := Some(c), link := Link.Apply(x.link, Link.Assign));
    AnsweringHandsOver();
    steps := ServeAlongLink(s2, t, x2, c, y1, Answering());
    ServeNext(s1, TakeAssignment(t), steps, t, c, 0);
    ServeNext(s, SendAssignment(c), Then(TakeAssignment(t), steps), t, c, 0);
    steps := Then(SendAssignment(c), Then(TakeAssignment(t), steps));
  }

  /** The longest-waiting live tunnel is idle and its client waits for commands. */
  predicate Ready(s: State, t: TunnelId) {
    && LiveIdle(s) != [] && LiveIdle(s)[0] == t && t in s.tunnels
    && s.tunnels[t].link.gateway == Link.Idle && s.tunnels[t].link.client == Link.Waiting
  }

  lemma ReadyIsUnclaimed(s: State, t: TunnelId)
    requires Inv(s) && LinksAligned(s) && Ready(s, t)
    ensures var x := s.tunnels[t]; x.link == Link.NEW_LINK && x.receiving && x.mailbox.None?
  {
    LiveSound(s);
    assert LiveIdle(s)[0] in LiveIdle(s);
    assert TunnelOk(s, t);
    Link.IdleIsNew(s.tunnels[t].link);
  }

  lemma ServeNow(s: State, t: TunnelId, c: ConnId) returns (steps: Steps)
    requires Inv(s) && LinksAligned(s) && Ready(s, t) && InPhase(s, c, Seeking)
    ensures Serves(s, steps, t, c, 0)
  {
    ReadyIsUnclaimed(s, t);
    var s1 := Apply(s, Acquire(c));
    var x, y := s.tunnels[t].(holder := Some(c)), s.conns[c];
    steps := ServeFromHeld(s1, t, x, c, Conn(y.attempts + 1, y.tried + [t], Holding(t)));
    ServeNext(s, Acquire(c), steps, t, c, 0);
    steps := Then(Acquire(c), steps);
  }

  lemma ServeBeat(s: State, rest: Steps, t: TunnelId, c: ConnId, n: nat)
    requires Enabled(s, OnLink(t, Link.Heartbeat)) && Serves(Apply(s, OnLink(t, Link.Heartbeat)), rest, t, c, n)
    ensures Serves(s, Then(OnLink(t, Link.Heartbeat), rest), t, c, n + 1)
  {
  }

  lemma OnLinkIs(s: State, t: TunnelId, a: Link.Action, l: Link.Link)
    requires t in s.tunnels && !a.Assign? && !Link.IsPublicCopy(a)
    requires Link.Enabled(s.tunnels[t].link, a) && Link.Apply(s.tunnels[t].link, a) == l
    ensures Enabled(s, OnLink(t, a)) && Apply(s, OnLink(t, a)) == SetTunnel(s, t, s.tunnels[t].(link := l))
  {
  }

  lemma SetTwice(s: State, t: TunnelId, x: Tunnel, x': Tunnel)
    ensures SetTunnel(SetTunnel(s, t, x), t, x') == SetTunnel(s, t, x')
    ensures t in s.tunnels ==> SetTunnel(s, t, s.tunnels[t]) == s
  {
    assert s.tunnels[t := x][t := x'] == s.tunnels[t := x'];
    if t in s.tunnels {
      assert s.tunnels[t := s.tunnels[t]] == s.tunnels;
    }
  }

  /** A heartbeat of an idle tunnel leaves the whole gateway as it was. */
  lemma BeatStates(s: State, t: TunnelId)
    requires t in s.tunnels && s.tunnels[t].link == Link.NEW_LINK
    ensures var s1 := SetTunnel(s, t, s.tunnels[t].(link := Link.PINGED_LINK));
            var s2 := SetTunnel(s, t, s.tunnels[t].(link := Link.PONGED_LINK));
            && Enabled(s, OnLink(t, Link.Heartbeat)) && Apply(s, OnLink(t, Link.Heartbeat)) == s1
            && Enabled(s1, OnLink(t, Link.ClientCommand)) && Apply(s1, OnLink(t, Link.ClientCommand)) == s2
            && Enabled(s2, OnLink(t, Link.ReadPong)) && Apply(s2, OnLink(t, Link.ReadPong)) == s
  {
    var x := s.tunnels[t];
    var x1, x2 := x.(link := Link.PINGED_LINK), x.(link := Link.PONGED_LINK);
    Link.BeatSteps();
    OnLinkIs(s, t, Link.Heartbeat, Link.PINGED_LINK);
    OnLinkIs(SetTunnel(s, t, x1), t, Link.ClientCommand, Link.PONGED_LINK);
    OnLinkIs(SetTunnel(s, t, x2), t, Link.ReadPong, Link.NEW_LINK);
    SetTwice(s, t, x1, x2);
    SetTwice(s, t, x2, x);
  }

  lemma BeatRestores(s: State, t: TunnelId, rest: Steps, c: ConnId, n: nat)
    requires t in s.tunnels && s.tunnels[t].link == Link.NEW_LINK && Serves(s, rest, t, c, n)
    ensures Serves(s, Then(OnLink(t, Link.Heartbeat), Then(OnLink(t, Link.ClientCommand), Then(OnLink(t, Link.ReadPong), rest))),
                   t, c, n + 1)
  {
    BeatStates(s, t);
    var s1 := SetTunnel(s, t, s.tunnels[t].(link := Link.PINGED_LINK));
    var s2 := SetTunnel(s, t, s.tunnels[t].(link := Link.PONGED_LINK));
    ServeNext(s2, OnLink(t, Link.ReadPong), rest, t, c, n);
    ServeNext(s1, OnLink(t, Link.ClientCommand), Then(OnLink(t, Link.ReadPong), rest), t, c, n);
    ServeBeat(s, Then(OnLink(t, Link.ClientCommand), Then(OnLink(t, Link.ReadPong), rest)), t, c, n);
  }

  lemma {:induction false} ServeAfterBeats(s: State, rest: Steps, t: TunnelId, c: ConnId, n: nat) returns (steps: Steps)
    requires t in s.tunnels && s.tunnels[t].link == Link.NEW_LINK && Serves(s, rest, t, c, 0)
    ensures Serves(s, steps, t, c, n)
    decreases n
  {
    if n == 0 {
      steps := rest;
    } else {
      steps := ServeAfterBeats(s, rest, t, c, n - 1);
      BeatRestores(s, t, steps, c, n - 1);
      steps := Then(OnLink(t, Link.Heartbeat), Then(OnLink(t, Link.ClientCommand), Then(OnLink(t, Link.ReadPong), steps)));
    }
  }

  /**
   * From any state of any run: a seeking connection can be served by the longest-waiting live tunnel
   * whose link is idle, after any number of further heartbeats of that tunnel.
   */
  lemma CanServe(capacity: nat, states: seq<State>, events: seq<Event>, i: nat, t: TunnelId, c: ConnId, n: nat)
    returns (steps: Steps)
    requires IsRun(capacity, states, events) && i < |states| && Ready(states[i], t) && InPhase(states[i], c, Seeking)
    ensures Possible(states[i], steps) && Beats(steps, t) == n && InPhase(Reached(states[i], steps), c, Serving(t))
  {
    RunInv(capacity, states, events, i);
    ReadyIsUnclaimed(states[i], t);
    steps := ServeNow(states[i], t, c);
    steps := ServeAfterBeats(states[i], steps, t, c, n);
  }

  /** From the empty gateway: a tunnel registers, a connection opens, and it is served after n heartbeats. */
  lemma ServingReached(capacity: nat, t: TunnelId, c: ConnId, n: nat) returns (steps: Steps)
    requires capacity > 0
    ensures Possible(Init(capacity), steps) && Beats(steps, t) == n && InPhase(Reached(Init(capacity), steps), c, Serving(t))
  {
    var s0 := Init(capacity);
    var s1, s2 := Apply(s0, Register(t)), Apply(Apply(s0, Register(t)), OpenPublic(c));
    assert s1 == State(capacity, [t], map[t := NEW_TUNNEL], map[]);
    assert IsRun(capacity, [s0, s1, s2], [Register(t), OpenPublic(c)]);
    KeepOne(t, set u | u in s2.tunnels && s2.tunnels[u].alive);
    steps := CanServe(capacity, [s0, s1, s2], [Register(t), OpenPublic(c)], 2, t, c, n);
    ServeNext(s1, OpenPublic(c), steps, t, c, n);
    ServeNext(s0, Register(t), Then(OpenPublic(c), steps), t, c, n);
    steps := Then(Register(t), Then(OpenPublic(c), steps));
  }

  lemma KeepOne(t: TunnelId, alive: set<TunnelId>)
    requires t in alive
    ensures Keep([t], alive) == [t]
  {
    assert [t][..0] == [];
  }

  // ----- nobody waits for a dead manager -----

  /** The steps end the waiting of a connection without its own timeout. */
  predicate Releases(s: State, steps: Steps, c: ConnId) {
    Possible(s, steps) && c in Reached(s, steps).conns && !Reached(s, steps).conns[c].phase.Awaiting? && !TimesOut(steps, c)
  }

  predicate TimesOut(steps: Steps, c: ConnId) {
    steps.Then? && (steps.event == ReplyTimeout(c) || TimesOut(steps.rest, c))
  }

  lemma ReleaseNext(s: State, e: Event, rest: Steps, c: ConnId)
    requires Enabled(s, e) && e != ReplyTimeout(c) && Releases(Apply(s, e), rest, c)
    ensures Releases(s, Then(e, rest), c)
  {
  }

  lemma ReleaseFromAnswered(s: State, t: TunnelId, x: Tunnel, c: ConnId, y: Conn) returns (steps: Steps)
    requires Stage(s, t, x, c, y) && y.phase == Awaiting(t) && x.reply != NoReply
    ensures Releases(s, steps, c)
  {
    steps := Then(ReceiveReply(c), Done);
    assert Releases(Apply(s, ReceiveReply(c)), Done, c);
    ReleaseNext(s, ReceiveReply(c), Done, c);
  }

  /** The manager is over and marked: it answers what it worked on, or drops what it had not read. */
  lemma ReleaseFromMarked(s: State, t: TunnelId, x: Tunnel, c: ConnId, y: Conn) returns (steps: Steps)
    requires Stage(s, t, x, c, y) && y.phase == Awaiting(t) && !ManagerRuns(x) && !x.alive
    requires x.assignment == Some(c) || (x.mailbox == Some(c) && x.receiving && x.assignment.None?)
    ensures Releases(s, steps, c)
  {
    if x.assignment == Some(c) {
      var s1 := Apply(s, SendReply(t));
      steps := ReleaseFromAnswered(s1, t, s1.tunnels[t], c, y);
      ReleaseNext(s, SendReply(t), steps, c);
      steps := Then(SendReply(t), steps);
    } else {
      var s1 := Apply(s, CloseMailbox(t));
      steps := ReleaseFromAnswered(s1, t, s1.tunnels[t], c, y);
      ReleaseNext(s, CloseMailbox(t), steps, c);
      steps := Then(CloseMailbox(t), steps);
    }
  }

  lemma ReleaseFromOver(s: State, t: TunnelId, x: Tunnel, c: ConnId, y: Conn) returns (steps: Steps)
    requires Stage(s, t, x, c, y) && y.phase == Awaiting(t) && !ManagerRuns(x)
    requires x.assignment == Some(c) || (x.mailbox == Some(c) && x.receiving && x.assignment.None?)
    ensures Releases(s, steps, c)
  {
    steps := ReleaseFromMarked(Apply(s, MarkDead(t)), t, x.(alive := false), c, y);
    ReleaseNext(s, MarkDead(t), steps, c);
    steps := Then(MarkDead(t), steps);
  }

  /**
   * In every state of every run a waiting connection can be released without its own timeout, even
   * if the tunnel fails at once: the manager's end answers it or drops its assignment.
   */
  lemma NeverStuck(capacity: nat, states: seq<State>, events: seq<Event>, i: nat, c: ConnId, t: TunnelId) returns (steps: Steps)
    requires IsRun(capacity, states, events) && i < |states| && InPhase(states[i], c, Awaiting(t))
    ensures Possible(states[i], steps) && !TimesOut(steps, c)
    ensures c in Reached(states[i], steps).conns && !Reached(states[i], steps).conns[c].phase.Awaiting?
  {
    NoLostAssignment(capacity, states, events, i, c, t);
    var s := states[i];
    var x, y := s.tunnels[t], s.conns[c];
    if x.reply != NoReply {
      steps := ReleaseFromAnswered(s, t, x, c, y);
    } else if !ManagerRuns(x) {
      steps := ReleaseFromOver(s, t, x, c, y);
    } else {
      var e := OnLink(t, Link.GatewayFails);
      OnLinkIs(s, t, Link.GatewayFails, Link.GatewayLeaves(x.link));
      steps := ReleaseFromOver(Apply(s, e), t, x.(link := Link.GatewayLeaves(x.link)), c, y);
      ReleaseNext(s, e, steps, c);
      steps := Then(e, steps);
    }
  }
}
