/**
 * The UDP session table of one connection and its queue of expiry messages (src/server.rs): the
 * datagram loop, one receive task per session, and messages between them in any interleaving.
 */
module UdpSessions {
  import opened UdpCodec

  /** An `Arc<UdpSession>`: an identity of its own. */
  type Session = nat

  datatype Expiry = Expiry(id: U32, session: Session)

  /**
   * `tasks` are the sessions whose receive task still runs, `ids` the id each session was opened
   * for, `removed` the sessions taken out of the table so far, `total` how many ever existed.
   */
  datatype State = State(
    running: bool,
    sessions: map<U32, Session>,
    queue: seq<Expiry>,
    tasks: set<Session>,
    ids: map<Session, U32>,
    removed: seq<Session>,
    total: nat)

  datatype Event =
    | Datagram(id: U32)        // a complete message for this session id arrives
    | Stop                     // the connection closes or the loop returns an error
    | TaskEnds(session: Session)
    | HandleExpiry             // the loop receives the oldest expiry message

  /** `Weak::upgrade` succeeds while the table or the task still holds the session. */
  predicate Upgrades(s: State, session: Session) {
    session in s.tasks || exists id :: id in s.sessions && s.sessions[id] == session
  }

  predicate ShouldRemove(s: State, e: Expiry) {
    e.id in s.sessions && Upgrades(s, e.session) && s.sessions[e.id] == e.session
  }

  predicate Enabled(s: State, e: Event) {
    match e
    case Datagram(_) => s.running
    case Stop => s.running
    case TaskEnds(session) => session in s.tasks && session in s.ids
    case HandleExpiry => s.running && s.queue != []
  }

  /** `get_udp_session` on a missing id: insert a new session and spawn its task. */
  function Open(s: State, id: U32): State {
    s.(sessions := s.sessions[id := s.total],
       tasks := s.tasks + {s.total},
       ids := s.ids[s.total := id],
       total := s.total + 1)
  }

  function Remove(s: State, e: Expiry): State {
    if ShouldRemove(s, e) then s.(sessions := s.sessions - {e.id}, removed := s.removed + [e.session]) else s
  }

  function Apply(s: State, e: Event): State
    requires Enabled(s, e)
  {
    match e
    case Datagram(id) => if id in s.sessions then s else Open(s, id)
    case Stop => s.(running := false)
    case TaskEnds(session) =>
      // a send after the loop has returned goes nowhere
      s.(tasks := s.tasks - {session},
         queue := if s.running then s.queue + [Expiry(s.ids[session], session)] else s.queue)
    case HandleExpiry => Remove(s, s.queue[0]).(queue := s.queue[1..])
  }

  // ----- the invariant -----

  /** The session is under its id in the table. */
  ghost predicate Stored(s: State, session: Session) {
    session in s.ids && s.ids[session] in s.sessions && s.sessions[s.ids[session]] == session
  }

  ghost predicate Queued(s: State, session: Session) {
    exists i :: 0 <= i < |s.queue| && s.queue[i].session == session
  }

  ghost predicate TableOk(s: State) {
    && (forall id :: id in s.sessions ==> s.sessions[id] in s.ids && s.ids[s.sessions[id]] == id)
    && (forall r :: r in s.ids <==> 0 <= r < s.total)
    && (forall r :: r in s.tasks ==> Stored(s, r))
  }

  /** Every queued expiry names the session currently under its id, once, and its task is over. */
  ghost predicate QueueOk(s: State) {
    && (forall i :: 0 <= i < |s.queue| ==>
          var e := s.queue[i]; Stored(s, e.session) && s.ids[e.session] == e.id && e.session !in s.tasks)
    && (forall i, j :: 0 <= i < j < |s.queue| ==> s.queue[i].session != s.queue[j].session)
  }

  /** While the loop runs no entry is forgotten: its task is alive or its expiry is queued. */
  ghost predicate NoLeak(s: State) {
    s.running ==> forall id :: id in s.sessions ==> s.sessions[id] in s.tasks || Queued(s, s.sessions[id])
  }

  /** Sessions are conserved: each one ever opened is in the table or was removed, and removed at most once. */
  ghost predicate Conserved(s: State) {
    && |s.sessions| + |s.removed| == s.total
    && (forall i :: 0 <= i < |s.removed| ==> s.removed[i] in s.ids && !Stored(s, s.removed[i]))
    && (forall i, j :: 0 <= i < j < |s.removed| ==> s.removed[i] != s.removed[j])
  }

  ghost predicate Inv(s: State) { TableOk(s) && QueueOk(s) && NoLeak(s) && Conserved(s) }

  lemma OpenKeepsInv(s: State, id: U32)
    requires Inv(s) && id !in s.sessions
    ensures Inv(Open(s, id))
  {
    var s' := Open(s, id);
    OpenKeepsTable(s, id);
    OpenKeepsQueue(s, id);
    assert Conserved(s') by {
      assert s'.sessions.Keys == s.sessions.Keys + {id};
      assert |s'.sessions| == |s'.sessions.Keys| == |s.sessions.Keys| + 1;
    }
  }

  lemma OpenKeepsTable(s: State, id: U32)
    requires TableOk(s) && id !in s.sessions
    ensures TableOk(Open(s, id))
    ensures forall r :: r in s.ids ==> (Stored(Open(s, id), r) <==> Stored(s, r))
  {
    assert s.total !in s.ids;
  }

  lemma OpenKeepsQueue(s: State, id: U32)
    requires TableOk(s) && QueueOk(s) && NoLeak(s) && id !in s.sessions
    ensures QueueOk(Open(s, id)) && NoLeak(Open(s, id))
  {
    var s' := Open(s, id);
    OpenKeepsTable(s, id);
    assert forall r :: Queued(s', r) <==> Queued(s, r);
  }

  lemma TaskEndsKeepsInv(s: State, session: Session)
    requires Inv(s) && session in s.tasks && session in s.ids
    ensures Inv(Apply(s, TaskEnds(session)))
  {
    var s' := Apply(s, TaskEnds(session));
    assert Stored(s, session);
    assert forall r :: Stored(s', r) <==> Stored(s, r);
    forall id | id in s'.sessions && s'.running
      ensures s'.sessions[id] in s'.tasks || Queued(s', s'.sessions[id])
    {
      if s.sessions[id] == session {
        assert s'.queue[|s.queue|].session == session;
      } else if s.sessions[id] !in s.tasks {
        assert Queued(s, s.sessions[id]);
        var i :| 0 <= i < |s.queue| && s.queue[i].session == s.sessions[id];
        assert s'.queue[i].session == s.sessions[id];
      }
    }
  }

  /** The `Arc::ptr_eq` comparison in the loop always succeeds: the oldest expiry removes its own session. */
  lemma ExpiryAlwaysMatches(s: State)
    requires Inv(s) && s.queue != []
    ensures ShouldRemove(s, s.queue[0])
  {
    assert Stored(s, s.queue[0].session);
  }

  lemma HandleExpiryKeepsInv(s: State)
    requires Inv(s) && Enabled(s, HandleExpiry)
    ensures Inv(Apply(s, HandleExpiry))
  {
    var s', e := Apply(s, HandleExpiry), s.queue[0];
    ExpiryAlwaysMatches(s);
    assert |s'.sessions| == |s.sessions| - 1;
    assert forall r :: Stored(s', r) <==> Stored(s, r) && r != e.session;
    assert forall i :: 0 <= i < |s'.queue| ==> s'.queue[i] == s.queue[i + 1];
    forall id | id in s'.sessions && s'.running
      ensures s'.sessions[id] in s'.tasks || Queued(s', s'.sessions[id])
    {
      if s.sessions[id] !in s.tasks {
        assert Queued(s, s.sessions[id]);
        var i :| 0 <= i < |s.queue| && s.queue[i].session == s.sessions[id];
        assert i > 0;
        assert s'.queue[i - 1].session == s.sessions[id];
      }
    }
  }

  lemma StepKeepsInv(s: State, e: Event)
    requires Inv(s) && Enabled(s, e)
    ensures Inv(Apply(s, e))
  {
    match e
    case Datagram(id) =>
      if id !in s.sessions { OpenKeepsInv(s, id); }
    case Stop =>
      assert forall r :: Stored(s.(running := false), r) <==> Stored(s, r);
    case TaskEnds(session) => TaskEndsKeepsInv(s, session);
    case HandleExpiry => HandleExpiryKeepsInv(s);
  }

  // ----- whole runs -----

  const INIT: State := State(true, map[], [], {}, map[], [], 0)

  ghost predicate IsRun(states: seq<State>, events: seq<Event>) {
    && |states| == |events| + 1 && states[0] == INIT
    && forall i :: 0 <= i < |events| ==> Enabled(states[i], events[i]) && states[i + 1] == Apply(states[i], events[i])
  }

  lemma {:induction false} RunInv(states: seq<State>, events: seq<Event>, i: nat)
    requires IsRun(states, events) && i < |states|
    ensures Inv(states[i])
  {
    if i > 0 {
      RunInv(states, events, i - 1);
      StepKeepsInv(states[i - 1], events[i - 1]);
    }
  }

  /**
   * No leak and no confusion, in every run: a table entry has exactly one watcher, its running
   * task or one queued expiry; a queued expiry names the session currently under its id; and the
   * sessions opened so far are the ones in the table plus the ones removed, each removed once.
   */
  lemma SessionsNeitherLeakNorMix(states: seq<State>, events: seq<Event>, i: nat)
    requires IsRun(states, events) && i < |states| && states[i].running
    ensures var s := states[i];
            && (forall id :: id in s.sessions ==>
                  (s.sessions[id] in s.tasks <==> !exists k :: 0 <= k < |s.queue| && s.queue[k].session == s.sessions[id]))
            && (forall k :: 0 <= k < |s.queue| ==>
                  s.queue[k].id in s.sessions && s.sessions[s.queue[k].id] == s.queue[k].session)
            && (forall j, k :: 0 <= j < k < |s.queue| ==> s.queue[j] != s.queue[k])
            && |s.sessions| + |s.removed| == s.total
            && (forall j, k :: 0 <= j < k < |s.removed| ==> s.removed[j] != s.removed[k])
  {
    RunInv(states, events, i);
    var s := states[i];
    forall id | id in s.sessions
      ensures s.sessions[id] in s.tasks <==> !Queued(s, s.sessions[id])
    {
    }
  }

  /** A session leaves the table only when the loop handles its own expiry. */
  lemma OnlyOwnExpiryRemoves(states: seq<State>, events: seq<Event>, i: nat, id: U32)
    requires IsRun(states, events) && i < |events| && id in states[i].sessions
    ensures || (id in states[i + 1].sessions && states[i + 1].sessions[id] == states[i].sessions[id])
            || (events[i] == HandleExpiry && states[i].queue[0] == Expiry(id, states[i].sessions[id])
            && states[i + 1].removed == states[i].removed + [states[i].sessions[id]])
  {
    RunInv(states, events, i);
  }

  // ----- when a session is there -----

  lemma {:induction false} IdsGrow(states: seq<State>, events: seq<Event>, i: nat, j: nat)
    requires IsRun(states, events) && i <= j < |states|
    ensures states[i].total <= states[j].total
    decreases j
  {
    if i < j {
      IdsGrow(states, events, i, j - 1);
    }
  }

  /**
   * A datagram always finds or opens a session of its id. A stored one is used and nothing changes;
   * otherwise the session is one no earlier state knew, its task runs, and the rest is untouched.
   */
  lemma DatagramOpens(states: seq<State>, events: seq<Event>, i: nat, id: U32)
    requires IsRun(states, events) && i < |events| && events[i] == Datagram(id)
    ensures var s, s' := states[i], states[i + 1];
            && id in s'.sessions
            && (id in s.sessions ==> s' == s)
            && (id !in s.sessions ==>
                  && (forall j :: 0 <= j <= i ==> s'.sessions[id] !in states[j].ids)
                  && s'.sessions[id] in s'.tasks && s'.ids == s.ids[s'.sessions[id] := id]
                  && (forall other :: other != id ==>
                        (other in s'.sessions <==> other in s.sessions)
                        && (other in s.sessions ==> s'.sessions[other] == s.sessions[other]))
                  && s'.tasks == s.tasks + {s'.sessions[id]} && s'.queue == s.queue && s'.removed == s.removed)
  {
    forall j | 0 <= j <= i
      ensures states[i].total !in states[j].ids
    {
      IdsGrow(states, events, j, i);
      RunInv(states, events, j);
    }
  }

  /** The loop handles an expiry of this id at step k. */
  predicate Expires(states: seq<State>, events: seq<Event>, k: nat, id: U32)
    requires k < |events| < |states|
  {
    events[k] == HandleExpiry && states[k].queue != [] && states[k].queue[0].id == id
  }

  /** Step j is a datagram for the id and no expiry of the id is handled between j and i. */
  ghost predicate OpenedAt(states: seq<State>, events: seq<Event>, i: nat, id: U32, j: nat)
    requires i < |states| == |events| + 1
  {
    j < i && events[j] == Datagram(id) && forall k :: j < k < i ==> !Expires(states, events, k, id)
  }

  ghost predicate OpenedSince(states: seq<State>, events: seq<Event>, i: nat, id: U32)
    requires i < |states| == |events| + 1
  {
    exists j :: 0 <= j < i && OpenedAt(states, events, i, id, j)
  }

  lemma OpenedStep(states: seq<State>, events: seq<Event>, i: nat, id: U32)
    requires |states| == |events| + 1 && i < |events|
    ensures OpenedSince(states, events, i + 1, id) <==>
              events[i] == Datagram(id) || (OpenedSince(states, events, i, id) && !Expires(states, events, i, id))
  {
    if events[i] == Datagram(id) {
      assert OpenedAt(states, events, i + 1, id, i);
    } else if OpenedSince(states, events, i, id) && !Expires(states, events, i, id) {
      var j :| 0 <= j < i && OpenedAt(states, events, i, id, j);
      assert OpenedAt(states, events, i + 1, id, j);
    }
    if OpenedSince(states, events, i + 1, id) && events[i] != Datagram(id) {
      var j :| 0 <= j < i + 1 && OpenedAt(states, events, i + 1, id, j);
      assert OpenedAt(states, events, i, id, j);
    }
  }

  lemma StoredStep(s: State, e: Event, id: U32)
    requires Inv(s) && Enabled(s, e)
    ensures id in Apply(s, e).sessions <==>
              e == Datagram(id) || (id in s.sessions && !(e == HandleExpiry && s.queue[0].id == id))
  {
    if e == HandleExpiry {
      ExpiryAlwaysMatches(s);
    }
  }

  /** Over any run an id is in the table if and only if a datagram for it came after its last handled expiry. */
  lemma {:induction false} StoredExactlyWhen(states: seq<State>, events: seq<Event>, i: nat, id: U32)
    requires IsRun(states, events) && i < |states|
    ensures id in states[i].sessions <==> OpenedSince(states, events, i, id)
  {
    if i > 0 {
      StoredExactlyWhen(states, events, i - 1, id);
      RunInv(states, events, i - 1);
      StoredStep(states[i - 1], events[i - 1], id);
      OpenedStep(states, events, i - 1, id);
    }
  }

  /** How many of the first i steps were datagrams that found their id missing. */
  function Misses(states: seq<State>, events: seq<Event>, i: nat): nat
    requires i <= |events| < |states|
  {
    if i == 0 then 0 else
    Misses(states, events, i - 1)
    + if events[i - 1].Datagram? && events[i - 1].id !in states[i - 1].sessions then 1 else 0
  }

  /** How many expiries were handled in the first i steps. */
  function Handled(events: seq<Event>, i: nat): nat
    requires i <= |events|
  {
    if i == 0 then 0 else Handled(events, i - 1) + if events[i - 1] == HandleExpiry then 1 else 0
  }

  /** Sessions are opened exactly by datagrams that miss and removed exactly by handled expiries. */
  lemma {:induction false} SessionsCounted(states: seq<State>, events: seq<Event>, i: nat)
    requires IsRun(states, events) && i < |states|
    ensures states[i].total == Misses(states, events, i)
    ensures |states[i].removed| == Handled(events, i)
    ensures |states[i].sessions| == Misses(states, events, i) - Handled(events, i)
    ensures states[i].running <==> forall j :: 0 <= j < i ==> events[j] != Stop
  {
    RunInv(states, events, i);
    if i > 0 {
      SessionsCounted(states, events, i - 1);
      RunInv(states, events, i - 1);
      if events[i - 1] == HandleExpiry {
        ExpiryAlwaysMatches(states[i - 1]);
      }
    }
  }
}
