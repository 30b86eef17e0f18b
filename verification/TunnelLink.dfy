/**
 * One NAT tunnel as two parties over a byte stream (src/nat_tunnel.rs): the gateway's
 * `manage_idle_tunnel` and later the public copy loop, the client's `client_session`.
 */
module TunnelLink {
  import opened Varint

  const START: Byte := 1
  const READY: Byte := 2
  const PING: Byte := 3
  const PONG: Byte := 4

  /** Handed: READY has been read and the stream leaves the manager. Dead: the gateway end is closed. */
  datatype Gateway = Idle | AwaitPong | AwaitReady | Handed | Dead

  /** Connected: the local service is connected but READY is not written yet. */
  datatype Client = Waiting | Connecting | Connected | Forwarding | Gone

  /** One direction of the stream: bytes in flight, end of stream, and bytes lost by a broken connection. */
  datatype Pipe = Pipe(bytes: Bytes, closed: bool, broken: bool)

  /**
   * `publicIn` are the bytes the gateway took from the public connection, `publicOut` those it
   * gave to it; `localIn` and `localOut` are the same for the client's local service. `downSent`
   * and `upSent` are the data bytes written into the tunnel. The copy loops buffer what they have
   * taken and not yet written: `fromPublic` and `forPublic` at the gateway, `fromLocal` and
   * `forLocal` at the client. `lostDown` and `lostUp` are the bytes a party had taken from its
   * endpoint and not yet written when it failed.
   */
  datatype Link = Link(
    gateway: Gateway,
    client: Client,
    down: Pipe,
    up: Pipe,
    localConnected: bool,
    publicIn: Bytes, fromPublic: Bytes, downSent: Bytes, forLocal: Bytes, localOut: Bytes, lostDown: Bytes,
    localIn: Bytes, fromLocal: Bytes, upSent: Bytes, forPublic: Bytes, publicOut: Bytes, lostUp: Bytes,
    publicDone: bool, localDone: bool)

  const NEW_LINK: Link :=
    Link(Idle, Waiting, Pipe([], false, false), Pipe([], false, false), false,
         [], [], [], [], [], [], [], [], [], [], [], [], false, false)

  datatype Action =
    | Heartbeat            // write PING
    | Assign               // write START
    | ReadPong             // read one byte, expect PONG
    | ReadReady            // read one byte, expect READY
    | GatewayFails         // timeout, I/O error, or the stream is dropped
    | ReadPublic(data: Bytes)
    | WriteDown(n: nat)
    | PublicEof            // everything taken is written: shut down the tunnel's write half
    | ReadUp(n: nat)
    | WritePublic(n: nat)
    | FinishPublic         // the tunnel ended: shut down the public connection
    | ClientCommand        // read one command byte
    | LocalConnect
    | SendReady
    | ReadLocal(data: Bytes)
    | WriteUp(n: nat)
    | LocalEof
    | ReadDown(n: nat)
    | WriteLocal(n: nat)
    | FinishLocal
    | ClientFails
    | LoseDown(n: nat)     // a broken connection loses the tail of what is in flight
    | LoseUp(n: nat)

  /** A write into a broken connection may still succeed locally, but goes nowhere. */
  function Put(p: Pipe, data: Bytes): Pipe { if p.broken then p else p.(bytes := p.bytes + data) }

  function Take(p: Pipe, n: nat): Pipe
    requires n <= |p.bytes|
  {
    p.(bytes := p.bytes[n..])
  }

  predicate Enabled(l: Link, a: Action) {
    match a
    case Heartbeat | Assign => l.gateway == Idle
    case ReadPong => l.gateway == AwaitPong && l.up.bytes != []
    case ReadReady => l.gateway == AwaitReady && l.up.bytes != []
    case GatewayFails => l.gateway != Dead
    case ReadPublic(_) => l.gateway == Handed && !l.down.closed
    case WriteDown(n) => l.gateway == Handed && n <= |l.fromPublic|
    case PublicEof => l.gateway == Handed && !l.down.closed && l.fromPublic == []
    case ReadUp(n) => l.gateway == Handed && n <= |l.up.bytes|
    case WritePublic(n) => l.gateway == Handed && n <= |l.forPublic|
    case FinishPublic => l.gateway == Handed && l.forPublic == [] && EndOfStream(l.up, l.client == Gone)
    case ClientCommand => l.client == Waiting && l.down.bytes != []
    case LocalConnect => l.client == Connecting
    case SendReady => l.client == Connected
    case ReadLocal(_) => l.client == Forwarding && !l.up.closed
    case WriteUp(n) => l.client == Forwarding && n <= |l.fromLocal|
    case LocalEof => l.client == Forwarding && !l.up.closed && l.fromLocal == []
    case ReadDown(n) => l.client == Forwarding && n <= |l.down.bytes|
    case WriteLocal(n) => l.client == Forwarding && n <= |l.forLocal|
    case FinishLocal => l.client == Forwarding && l.forLocal == [] && EndOfStream(l.down, l.gateway == Dead)
    case ClientFails => l.client != Gone
    case LoseDown(n) => (l.gateway == Dead || l.client == Gone) && n <= |l.down.bytes|
    case LoseUp(n) => (l.gateway == Dead || l.client == Gone) && n <= |l.up.bytes|
  }

  /** A read returns zero bytes: everything was read and the other side shut down or went away. */
  predicate EndOfStream(p: Pipe, peerLeft: bool) {
    p.bytes == [] && !p.broken && (p.closed || peerLeft)
  }

  /** The gateway drops its stream; what its copy loop had taken and not yet written is lost. */
  function GatewayLeaves(l: Link): Link {
    l.(gateway := Dead, lostDown := l.fromPublic, fromPublic := [], forPublic := [])
  }

  function ClientLeaves(l: Link): Link {
    l.(client := Gone, lostUp := l.fromLocal, fromLocal := [], forLocal := [])
  }

  function Apply(l: Link, a: Action): Link
    requires Enabled(l, a)
  {
    match a
    case Heartbeat => l.(down := Put(l.down, [PING]), gateway := AwaitPong)
    case Assign => l.(down := Put(l.down, [START]), gateway := AwaitReady)
    case ReadPong => l.(up := Take(l.up, 1), gateway := if l.up.bytes[0] == PONG then Idle else Dead)
    case ReadReady => l.(up := Take(l.up, 1), gateway := if l.up.bytes[0] == READY then Handed else Dead)
    case GatewayFails => GatewayLeaves(l)
    case ReadPublic(data) => l.(publicIn := l.publicIn + data, fromPublic := l.fromPublic + data)
    case WriteDown(n) =>
      l.(down := Put(l.down, l.fromPublic[..n]), downSent := l.downSent + l.fromPublic[..n], fromPublic := l.fromPublic[n..])
    case ReadUp(n) => l.(up := Take(l.up, n), forPublic := l.forPublic + l.up.bytes[..n])
    case WritePublic(n) => l.(publicOut := l.publicOut + l.forPublic[..n], forPublic := l.forPublic[n..])
    case PublicEof => l.(down := l.down.(closed := true))
    case FinishPublic => l.(publicDone := true)
    case ClientCommand =>
      var command := l.down.bytes[0];
      var rest := l.(down := Take(l.down, 1));
      if command == PING then rest.(up := Put(l.up, [PONG]))
      else if command == START then rest.(client := Connecting)
      else rest.(client := Gone)
    case LocalConnect => l.(client := Connected, localConnected := true)
    case SendReady => l.(client := Forwarding, up := Put(l.up, [READY]))
    case ReadLocal(data) => l.(localIn := l.localIn + data, fromLocal := l.fromLocal + data)
    case WriteUp(n) =>
      l.(up := Put(l.up, l.fromLocal[..n]), upSent := l.upSent + l.fromLocal[..n], fromLocal := l.fromLocal[n..])
    case ReadDown(n) => l.(down := Take(l.down, n), forLocal := l.forLocal + l.down.bytes[..n])
    case WriteLocal(n) => l.(localOut := l.localOut + l.forLocal[..n], forLocal := l.forLocal[n..])
    case LocalEof => l.(up := l.up.(closed := true))
    case FinishLocal => l.(localDone := true)
    case ClientFails => ClientLeaves(l)
    case LoseDown(n) => l.(down := Pipe(l.down.bytes[..n], l.down.closed, true))
    case LoseUp(n) => l.(up := Pipe(l.up.bytes[..n], l.up.closed, true))
  }

  // ----- alignment -----

  /** Bytes in flight on top of bytes delivered: all of what was sent, or a prefix once the link broke. */
  predicate Carries(p: Pipe, delivered: Bytes, sent: Bytes) {
    if p.broken then delivered + p.bytes <= sent else delivered + p.bytes == sent
  }

  predicate NothingForwarded(l: Link) {
    l.publicIn == [] && l.publicOut == [] && !l.publicDone && !l.down.closed
  }

  predicate NotStarted(l: Link) {
    l.localIn == [] && l.localOut == [] && !l.localConnected && !l.localDone && !l.up.closed
  }

  /** Before START is sent: the exchange is idle, or exactly one PING or its PONG is under way. */
  predicate IdleExchange(l: Link) {
    && NothingForwarded(l) && NotStarted(l)
    && (l.gateway == Idle ==> l.up.bytes == [] && l.down.bytes == [])
    && (l.client == Waiting || l.client == Gone)
    && (l.client == Waiting && l.gateway == AwaitPong ==>
          || (l.down.bytes == [PING] && l.up.bytes == [])
          || (l.down.bytes == [] && l.up.bytes == [PONG]))
    && (l.client == Gone ==>
          || (l.up.bytes == [] && l.down.bytes <= [PING])
          || (l.up.bytes == [PONG] && l.down.bytes == []))
  }

  /** START is on its way or being acted on; the only reply that can arrive is READY, then local data. */
  predicate Starting(l: Link) {
    && NothingForwarded(l) && l.localOut == [] && l.forLocal == []
    && (l.client == Waiting ==> l.down.bytes == [START] && l.up.bytes == [] && NotStarted(l))
    && (l.client == Connecting ==> l.down.bytes == [] && l.up.bytes == [] && NotStarted(l))
    && (l.client == Connected ==> l.down.bytes == [] && l.up.bytes == [] && l.localIn == [] && l.localConnected)
    && (l.client == Forwarding ==> l.down.bytes == [] && Carries(l.up, [], [READY] + l.upSent) && l.localConnected)
    && (l.client == Gone ==> l.down.bytes <= [START])
    && (l.client == Gone && l.up.bytes != [] ==>
          l.down.bytes == [] && Carries(l.up, [], [READY] + l.upSent) && l.localConnected)
  }

  /** The data phase: both pipes carry data and nothing else. */
  predicate DataPhase(l: Link) {
    && (l.client == Forwarding || l.client == Gone) && l.localConnected
    && (l.client == Forwarding ==> Carries(l.down, l.localOut + l.forLocal, l.downSent))
    && Carries(l.up, l.publicOut + l.forPublic, l.upSent)
  }

  /** The gateway end is closed; a forwarding client still only ever delivers forwarded data. */
  predicate Abandoned(l: Link) {
    && (l.client == Forwarding || l.client == Gone || (l.publicIn == [] && l.localOut == []))
    && (l.client == Forwarding ==> Carries(l.down, l.localOut + l.forLocal, l.downSent) && l.localConnected)
    && (l.client == Waiting ==> l.down.bytes == [] || l.down.bytes == [PING] || l.down.bytes == [START])
    && (l.client == Connecting || l.client == Connected ==> l.down.bytes == [])
    && (l.client == Waiting || l.client == Connecting || l.client == Connected ==> l.localIn == [])
    && (l.client == Connected ==> l.localConnected)
  }

  /** Towards the local service: delivered and buffered, written into the tunnel, taken from the public side. */
  predicate DownBooks(l: Link) {
    && l.localOut + l.forLocal <= l.downSent
    && l.publicIn == l.downSent + (if l.gateway == Dead then l.lostDown else l.fromPublic)
    && (l.gateway != Handed ==> l.fromPublic == []) && (l.gateway != Dead ==> l.lostDown == [])
    && (l.client != Forwarding ==> l.forLocal == [])
    && (l.down.closed ==> l.fromPublic == [] && l.lostDown == [])
    && (l.localDone ==> l.localOut == l.downSent && (l.down.closed || l.gateway == Dead))
  }

  /** Towards the public connection. */
  predicate UpBooks(l: Link) {
    && l.publicOut + l.forPublic <= l.upSent
    && l.localIn == l.upSent + (if l.client == Gone then l.lostUp else l.fromLocal)
    && (l.client != Forwarding ==> l.fromLocal == []) && (l.client != Gone ==> l.lostUp == [])
    && (l.gateway != Handed ==> l.forPublic == [])
    && (l.up.closed ==> l.fromLocal == [] && l.lostUp == [])
    && (l.publicDone ==> l.publicOut == l.upSent && (l.up.closed || l.client == Gone))
  }

  predicate Phases(l: Link) {
    match l.gateway
    case Idle | AwaitPong => IdleExchange(l)
    case AwaitReady => Starting(l)
    case Handed => DataPhase(l)
    case Dead => Abandoned(l)
  }

  ghost predicate Aligned(l: Link) {
    && (l.down.broken || l.up.broken ==> l.gateway == Dead || l.client == Gone)
    && DownBooks(l) && UpBooks(l) && Phases(l)
  }

  predicate IsControl(a: Action) { a.Heartbeat? || a.Assign? || a.ReadPong? || a.ReadReady? || a.GatewayFails? }

  predicate IsPublicCopy(a: Action) {
    a.ReadPublic? || a.WriteDown? || a.PublicEof? || a.ReadUp? || a.WritePublic? || a.FinishPublic?
  }

  predicate IsLocalCopy(a: Action) {
    a.ReadLocal? || a.WriteUp? || a.LocalEof? || a.ReadDown? || a.WriteLocal? || a.FinishLocal?
  }

  lemma ControlKeepsAligned(l: Link, a: Action)
    requires Aligned(l) && Enabled(l, a) && IsControl(a)
    ensures Aligned(Apply(l, a))
  {
    if a.ReadReady? {
      assert ([READY] + l.upSent)[1..] == l.upSent;
      assert [] + l.up.bytes[1..] == l.up.bytes[1..];
    }
  }

  /** A write of `w` appends it to what is in flight and to what was sent. */
  lemma PutCarries(p: Pipe, delivered: Bytes, sent: Bytes, w: Bytes)
    requires Carries(p, delivered, sent)
    ensures Carries(Put(p, w), delivered, sent + w)
  {
    assert delivered + (p.bytes + w) == (delivered + p.bytes) + w;
  }

  /** A read moves the front of what is in flight behind what was delivered and buffered. */
  lemma TakeCarries(p: Pipe, out: Bytes, buffer: Bytes, sent: Bytes, n: nat)
    requires Carries(p, out + buffer, sent) && n <= |p.bytes|
    ensures Carries(Take(p, n), out + (buffer + p.bytes[..n]), sent)
    ensures out + (buffer + p.bytes[..n]) <= sent
  {
    assert (out + (buffer + p.bytes[..n])) + p.bytes[n..] == (out + buffer) + p.bytes;
  }

  /** A write moves the front of a buffer behind what was written before. */
  lemma Shift(out: Bytes, buffer: Bytes, n: nat)
    requires n <= |buffer|
    ensures (out + buffer[..n]) + buffer[n..] == out + buffer
  {
  }

  lemma Append(a: Bytes, b: Bytes, c: Bytes)
    ensures (a + b) + c == a + (b + c)
  {
  }

  lemma WriteDownKeepsAligned(l: Link, n: nat)
    requires Aligned(l) && Enabled(l, WriteDown(n))
    ensures Aligned(Apply(l, WriteDown(n)))
  {
    Shift(l.downSent, l.fromPublic, n);
    if l.client == Forwarding {
      PutCarries(l.down, l.localOut + l.forLocal, l.downSent, l.fromPublic[..n]);
    }
    assert l.downSent <= l.downSent + l.fromPublic[..n];
  }

  lemma PrefixGrows(a: Bytes, sent: Bytes, w: Bytes)
    requires a <= sent
    ensures a <= sent + w
  {
  }

  lemma WriteUpKeepsBooks(l: Link, n: nat)
    requires UpBooks(l) && Enabled(l, WriteUp(n))
    ensures UpBooks(Apply(l, WriteUp(n)))
  {
    Shift(l.upSent, l.fromLocal, n);
    PrefixGrows(l.publicOut + l.forPublic, l.upSent, l.fromLocal[..n]);
  }

  lemma WriteUpKeepsPhases(l: Link, n: nat)
    requires Phases(l) && Enabled(l, WriteUp(n))
    ensures Phases(Apply(l, WriteUp(n)))
  {
    var w := l.fromLocal[..n];
    if l.gateway == Handed {
      PutCarries(l.up, l.publicOut + l.forPublic, l.upSent, w);
    } else if l.gateway == AwaitReady {
      PutCarries(l.up, [], [READY] + l.upSent, w);
      Append([READY], l.upSent, w);
    }
  }

  lemma WriteUpKeepsAligned(l: Link, n: nat)
    requires Aligned(l) && Enabled(l, WriteUp(n))
    ensures Aligned(Apply(l, WriteUp(n)))
  {
    WriteUpKeepsBooks(l, n);
    WriteUpKeepsPhases(l, n);
  }

  lemma PublicCopyKeepsAligned(l: Link, a: Action)
    requires Aligned(l) && Enabled(l, a) && IsPublicCopy(a)
    ensures Aligned(Apply(l, a))
  {
    match a
    case ReadPublic(data) => Append(l.downSent, l.fromPublic, data);
    case WriteDown(n) => WriteDownKeepsAligned(l, n);
    case ReadUp(n) => TakeCarries(l.up, l.publicOut, l.forPublic, l.upSent, n);
    case WritePublic(n) => Shift(l.publicOut, l.forPublic, n);
    case PublicEof =>
    case FinishPublic =>
  }

  lemma LocalCopyKeepsAligned(l: Link, a: Action)
    requires Aligned(l) && Enabled(l, a) && IsLocalCopy(a)
    ensures Aligned(Apply(l, a))
  {
    match a
    case ReadLocal(data) => Append(l.upSent, l.fromLocal, data);
    case WriteUp(n) => WriteUpKeepsAligned(l, n);
    case ReadDown(n) => ReadDownKeepsAligned(l, n);
    case WriteLocal(n) => WriteLocalKeepsAligned(l, n);
    case LocalEof =>
    case FinishLocal =>
  }

  lemma ReadDownKeepsAligned(l: Link, n: nat)
    requires Aligned(l) && Enabled(l, ReadDown(n))
    ensures Aligned(Apply(l, ReadDown(n)))
  {
    if l.gateway == Handed || l.gateway == Dead {
      TakeCarries(l.down, l.localOut, l.forLocal, l.downSent, n);
    }
  }

  lemma WriteLocalKeepsAligned(l: Link, n: nat)
    requires Aligned(l) && Enabled(l, WriteLocal(n))
    ensures Aligned(Apply(l, WriteLocal(n)))
  {
    Shift(l.localOut, l.forLocal, n);
  }

  lemma CommandKeepsAligned(l: Link)
    requires Aligned(l) && Enabled(l, ClientCommand)
    ensures Aligned(Apply(l, ClientCommand))
  {
    assert l.down.bytes == [PING] || l.down.bytes == [START];
    assert l.gateway != Handed;
  }

  lemma ClientKeepsAligned(l: Link, a: Action)
    requires Aligned(l) && Enabled(l, a)
    requires a.LocalConnect? || a.SendReady?
    ensures Aligned(Apply(l, a))
  {
  }

  lemma LeavingKeepsAligned(l: Link)
    requires Aligned(l) && Enabled(l, ClientFails)
    ensures Aligned(Apply(l, ClientFails))
  {
  }

  lemma PrefixShorter(delivered: Bytes, bytes: Bytes, n: nat, sent: Bytes)
    requires n <= |bytes| && delivered + bytes <= sent
    ensures delivered + bytes[..n] <= sent
  {
    assert delivered + bytes[..n] == (delivered + bytes)[..|delivered| + n];
  }

  /** Losing the tail of what is in flight leaves a prefix in flight. */
  lemma LossCarries(p: Pipe, delivered: Bytes, sent: Bytes, n: nat)
    requires n <= |p.bytes|
    ensures Carries(p, delivered, sent) ==> Carries(Pipe(p.bytes[..n], p.closed, true), delivered, sent)
  {
    if Carries(p, delivered, sent) {
      PrefixShorter(delivered, p.bytes, n, sent);
    }
  }

  lemma LossDownKeepsPhases(l: Link, n: nat)
    requires Phases(l) && Enabled(l, LoseDown(n))
    ensures Phases(Apply(l, LoseDown(n)))
  {
    LossCarries(l.down, l.localOut + l.forLocal, l.downSent, n);
  }

  lemma LossDownKeepsAligned(l: Link, n: nat)
    requires Aligned(l) && Enabled(l, LoseDown(n))
    ensures Aligned(Apply(l, LoseDown(n)))
  {
    LossDownKeepsPhases(l, n);
  }

  lemma LossUpKeepsPhases(l: Link, n: nat)
    requires Phases(l) && Enabled(l, LoseUp(n))
    ensures Phases(Apply(l, LoseUp(n)))
  {
    LossCarries(l.up, l.publicOut + l.forPublic, l.upSent, n);
    LossCarries(l.up, [], [READY] + l.upSent, n);
  }

  lemma LossUpKeepsAligned(l: Link, n: nat)
    requires Aligned(l) && Enabled(l, LoseUp(n))
    ensures Aligned(Apply(l, LoseUp(n)))
  {
    LossUpKeepsPhases(l, n);
  }

  /** Every step of either party, and every loss of a broken connection, keeps the two ends aligned. */
  lemma StepKeepsAligned(l: Link, a: Action)
    requires Aligned(l) && Enabled(l, a)
    ensures Aligned(Apply(l, a))
  {
    if IsControl(a) {
      ControlKeepsAligned(l, a);
    } else if IsPublicCopy(a) {
      PublicCopyKeepsAligned(l, a);
    } else if IsLocalCopy(a) {
      LocalCopyKeepsAligned(l, a);
    } else if a.LoseDown? {
      LossDownKeepsAligned(l, a.n);
    } else if a.LoseUp? {
      LossUpKeepsAligned(l, a.n);
    } else if a.ClientCommand? {
      CommandKeepsAligned(l);
    } else if a.ClientFails? {
      LeavingKeepsAligned(l);
    } else {
      ClientKeepsAligned(l, a);
    }
  }

  // ----- what alignment means -----

  /** PING, START, or a reply to one of them that has not been read yet. */
  function Outstanding(l: Link): nat {
    match l.gateway
    case Idle => |l.down.bytes| + |l.up.bytes|
    case AwaitPong => |l.down.bytes| + |l.up.bytes|
    case AwaitReady => |l.down.bytes| + if l.up.bytes == [] then 0 else 1
    case Handed | Dead => 0
  }

  /** At most one control request is outstanding, and none while the tunnel idles. */
  lemma OneRequestAtATime(l: Link)
    requires Aligned(l)
    ensures Outstanding(l) <= 1
    ensures l.gateway == Idle ==> Outstanding(l) == 0
  {
  }

  /**
   * Once the stream is handed over the local service is connected and every byte in flight is
   * forwarded data, in order: no PING or PONG is left in either direction.
   */
  lemma HandedIsAligned(l: Link)
    requires Aligned(l) && l.gateway == Handed
    ensures l.localConnected
    ensures l.publicOut + l.forPublic + l.up.bytes <= l.localIn
    ensures l.client == Forwarding ==>
              && l.publicIn == l.localOut + l.forLocal + l.down.bytes + l.fromPublic
              && l.localIn == l.publicOut + l.forPublic + l.up.bytes + l.fromLocal
  {
    assert l.publicOut + l.forPublic + l.up.bytes <= l.upSent <= l.localIn;
  }

  /** In any state, even after a failure, an endpoint has received a prefix of what the other one sent. */
  lemma DeliveredIsPrefix(l: Link)
    requires Aligned(l)
    ensures l.localOut <= l.downSent <= l.publicIn && l.publicOut <= l.upSent <= l.localIn
  {
    assert l.localOut <= l.localOut + l.forLocal && l.publicOut <= l.publicOut + l.forPublic;
  }

  /**
   * Exact accounting at a clean end of stream: what the endpoint received, followed by what the far
   * side had taken and not yet written when it failed, is everything the other endpoint sent.
   * The remainder is empty when the far side shut its write half down.
   */
  lemma CleanEndAccounts(l: Link)
    requires Aligned(l)
    ensures l.localDone ==> l.publicIn == l.localOut + l.lostDown && (l.localOut == l.publicIn <==> l.lostDown == [])
    ensures l.publicDone ==> l.localIn == l.publicOut + l.lostUp && (l.publicOut == l.localIn <==> l.lostUp == [])
    ensures l.localDone && l.down.closed ==> l.localOut == l.publicIn
    ensures l.publicDone && l.up.closed ==> l.publicOut == l.localIn
  {
    if l.localDone && l.localOut == l.publicIn {
      assert |l.localOut| + |l.lostDown| == |l.publicIn|;
    }
    if l.publicDone && l.publicOut == l.localIn {
      assert |l.publicOut| + |l.lostUp| == |l.localIn|;
    }
  }

  // ----- whole runs of one link -----

  /** Any interleaving of the two parties and of losses. */
  datatype Trace = Stop | Do(action: Action, rest: Trace)

  predicate Legal(l: Link, t: Trace)
    decreases t
  {
    t.Do? ==> Enabled(l, t.action) && Legal(Apply(l, t.action), t.rest)
  }

  function After(l: Link, t: Trace): Link
    requires Legal(l, t)
    decreases t
  {
    if t.Stop? then l else After(Apply(l, t.action), t.rest)
  }

  lemma {:induction false} RunKeepsAligned(l: Link, t: Trace)
    requires Aligned(l) && Legal(l, t)
    ensures Aligned(After(l, t))
    decreases t
  {
    if t.Do? {
      StepKeepsAligned(l, t.action);
      RunKeepsAligned(Apply(l, t.action), t.rest);
    }
  }

  lemma Prepend(l: Link, a: Action, next: Link, t: Trace)
    requires Enabled(l, a) && Apply(l, a) == next && Legal(next, t)
    ensures Legal(l, Do(a, t)) && After(l, Do(a, t)) == After(next, t)
  {
  }

  /** Some gateway failure of the trace finds bytes that were taken and not yet written. */
  predicate GatewayFailsHolding(l: Link, t: Trace)
    requires Legal(l, t)
    decreases t
  {
    t.Do? && ((t.action.GatewayFails? && l.fromPublic != []) || GatewayFailsHolding(Apply(l, t.action), t.rest))
  }

  predicate ClientFailsHolding(l: Link, t: Trace)
    requires Legal(l, t)
    decreases t
  {
    t.Do? && ((t.action.ClientFails? && l.fromLocal != []) || ClientFailsHolding(Apply(l, t.action), t.rest))
  }

  lemma {:induction false} LostWhenFailsHolding(l: Link, t: Trace)
    requires Aligned(l) && Legal(l, t)
    ensures After(l, t).lostDown != [] <==> l.lostDown != [] || GatewayFailsHolding(l, t)
    ensures After(l, t).lostUp != [] <==> l.lostUp != [] || ClientFailsHolding(l, t)
    decreases t
  {
    if t.Do? {
      StepKeepsAligned(l, t.action);
      LostDownByStep(l, t.action);
      LostUpByStep(l, t.action);
      LostWhenFailsHolding(Apply(l, t.action), t.rest);
    }
  }

  lemma LostDownByStep(l: Link, a: Action)
    requires Enabled(l, a)
    ensures Apply(l, a).lostDown == if a.GatewayFails? then l.fromPublic else l.lostDown
  {
  }

  lemma LostUpByStep(l: Link, a: Action)
    requires Enabled(l, a)
    ensures Apply(l, a).lostUp == if a.ClientFails? then l.fromLocal else l.lostUp
  {
  }

  /** A step loses bytes exactly when it is the failure of a party that holds some. */
  lemma LossByAction(l: Link, a: Action)
    requires Aligned(l) && Enabled(l, a)
    ensures var l' := Apply(l, a);
            && (l'.lostDown != [] <==> l.lostDown != [] || (l.gateway != Dead && l'.gateway == Dead && l.fromPublic != []))
            && (l'.lostUp != [] <==> l.lostUp != [] || (l.client != Gone && l'.client == Gone && l.fromLocal != []))
  {
    LostDownByStep(l, a);
    LostUpByStep(l, a);
  }

  /**
   * Conservation over whole runs, and exactly when. Where a direction reached a clean end, the
   * endpoint got everything the other one sent if and only if the far side never failed between
   * taking bytes and writing them; when the far side shut its write half down it got everything.
   */
  lemma FinishedMeansConserved(t: Trace)
    requires Legal(NEW_LINK, t)
    ensures var l := After(NEW_LINK, t);
            && (l.localDone ==> (l.localOut == l.publicIn <==> !GatewayFailsHolding(NEW_LINK, t)))
            && (l.publicDone ==> (l.publicOut == l.localIn <==> !ClientFailsHolding(NEW_LINK, t)))
            && (l.localDone && l.down.closed ==> l.localOut == l.publicIn)
            && (l.publicDone && l.up.closed ==> l.publicOut == l.localIn)
  {
    NewLinkAligned();
    RunKeepsAligned(NEW_LINK, t);
    LostWhenFailsHolding(NEW_LINK, t);
    CleanEndAccounts(After(NEW_LINK, t));
  }

  // ----- who ends a link, and heartbeats -----

  predicate Contains(t: Trace, a: Action) { t.Do? && (t.action == a || Contains(t.rest, a)) }

  lemma PongExpected(l: Link)
    requires Aligned(l) && Enabled(l, ReadPong)
    ensures l.up.bytes[0] == PONG
  {
  }

  lemma ReadyExpected(l: Link)
    requires Aligned(l) && Enabled(l, ReadReady)
    ensures l.up.bytes[0] == READY
  {
    assert l.up.bytes <= [READY] + l.upSent;
  }

  lemma DeadByStep(l: Link, a: Action)
    requires Enabled(l, a)
    requires a == ReadPong ==> l.up.bytes[0] == PONG
    requires a == ReadReady ==> l.up.bytes[0] == READY
    ensures Apply(l, a).gateway == Dead <==> l.gateway == Dead || a == GatewayFails
  {
  }

  /** On an aligned link every reply is the expected one: the gateway end dies only by failing. */
  lemma DiesByFailing(l: Link, a: Action)
    requires Aligned(l) && Enabled(l, a)
    ensures Apply(l, a).gateway == Dead <==> l.gateway == Dead || a == GatewayFails
  {
    if a == ReadPong { PongExpected(l); }
    if a == ReadReady { ReadyExpected(l); }
    DeadByStep(l, a);
  }

  lemma CommandExpected(l: Link)
    requires Aligned(l) && Enabled(l, ClientCommand)
    ensures l.down.bytes == [PING] || l.down.bytes == [START]
  {
  }

  lemma GoneByStep(l: Link, a: Action)
    requires Enabled(l, a)
    requires a == ClientCommand ==> l.down.bytes == [PING] || l.down.bytes == [START]
    ensures Apply(l, a).client == Gone <==> l.client == Gone || a == ClientFails
  {
  }

  /** Every command is one the client knows: the client leaves only by failing. */
  lemma LeavesByFailing(l: Link, a: Action)
    requires Aligned(l) && Enabled(l, a)
    ensures Apply(l, a).client == Gone <==> l.client == Gone || a == ClientFails
  {
    if a == ClientCommand { CommandExpected(l); }
    GoneByStep(l, a);
  }

  lemma {:induction false} EndsByFailing(l: Link, t: Trace)
    requires Aligned(l) && Legal(l, t)
    ensures After(l, t).gateway == Dead <==> l.gateway == Dead || Contains(t, GatewayFails)
    ensures After(l, t).client == Gone <==> l.client == Gone || Contains(t, ClientFails)
    decreases t
  {
    if t.Do? {
      StepKeepsAligned(l, t.action);
      DiesByFailing(l, t.action);
      LeavesByFailing(l, t.action);
      EndsByFailing(Apply(l, t.action), t.rest);
    }
  }

  /** Over any run from a new link an end is closed if and only if that party failed: no protocol error happens. */
  lemma LinkEndsExactlyWhen(t: Trace)
    requires Legal(NEW_LINK, t)
    ensures After(NEW_LINK, t).gateway == Dead <==> Contains(t, GatewayFails)
    ensures After(NEW_LINK, t).client == Gone <==> Contains(t, ClientFails)
  {
    NewLinkAligned();
    EndsByFailing(NEW_LINK, t);
  }

  /** An idle link with a waiting client is as good as new, however many heartbeats it has seen. */
  lemma IdleIsNew(l: Link)
    requires Aligned(l) && l.gateway == Idle && l.client == Waiting
    ensures l == NEW_LINK
  {
  }

  /** One heartbeat: PING under way, then PONG. */
  const PINGED_LINK: Link := NEW_LINK.(gateway := AwaitPong, down := Pipe([3], false, false))
  const PONGED_LINK: Link := NEW_LINK.(gateway := AwaitPong, up := Pipe([4], false, false))

  lemma BeatSteps()
    ensures Enabled(NEW_LINK, Heartbeat) && Apply(NEW_LINK, Heartbeat) == PINGED_LINK
    ensures Enabled(PINGED_LINK, ClientCommand) && Apply(PINGED_LINK, ClientCommand) == PONGED_LINK
    ensures Enabled(PONGED_LINK, ReadPong) && Apply(PONGED_LINK, ReadPong) == NEW_LINK
  {
  }

  function Beat(rest: Trace): Trace { Do(Heartbeat, Do(ClientCommand, Do(ReadPong, rest))) }

  /** From any idle link with a waiting client a heartbeat goes through and leaves the link as it was. */
  lemma HeartbeatRestores(l: Link, rest: Trace)
    requires Aligned(l) && l.gateway == Idle && l.client == Waiting && Legal(l, rest)
    ensures Legal(l, Beat(rest)) && After(l, Beat(rest)) == After(l, rest)
  {
    IdleIsNew(l);
    BeatSteps();
    Prepend(PONGED_LINK, ReadPong, l, rest);
    Prepend(PINGED_LINK, ClientCommand, PONGED_LINK, Do(ReadPong, rest));
    Prepend(l, Heartbeat, PINGED_LINK, Do(ClientCommand, Do(ReadPong, rest)));
  }

  /** The client has read START and is about to connect its local service. */
  const STARTED_LINK: Link := NEW_LINK.(gateway := AwaitReady, client := Connecting)

  /** The link right after hand-over, before any data. */
  const HANDED_LINK: Link := NEW_LINK.(gateway := Handed, client := Forwarding, localConnected := true)

  lemma StartReaches(rest: Trace)
    requires Legal(STARTED_LINK, rest)
    ensures var t := Do(Assign, Do(ClientCommand, rest));
            Legal(NEW_LINK, t) && After(NEW_LINK, t) == After(STARTED_LINK, rest)
  {
    var l1 := NEW_LINK.(gateway := AwaitReady, down := Pipe([1], false, false));
    Prepend(l1, ClientCommand, STARTED_LINK, rest);
    Prepend(NEW_LINK, Assign, l1, Do(ClientCommand, rest));
  }

  lemma ReadyReaches(rest: Trace)
    requires Legal(HANDED_LINK, rest)
    ensures var t := Do(LocalConnect, Do(SendReady, Do(ReadReady, rest)));
            Legal(STARTED_LINK, t) && After(STARTED_LINK, t) == After(HANDED_LINK, rest)
  {
    var l1 := STARTED_LINK.(client := Connected, localConnected := true);
    var l2 := l1.(client := Forwarding, up := Pipe([2], false, false));
    Prepend(l2, ReadReady, HANDED_LINK, rest);
    Prepend(l1, SendReady, l2, Do(ReadReady, rest));
    Prepend(STARTED_LINK, LocalConnect, l1, Do(SendReady, Do(ReadReady, rest)));
  }

  function HandOver(rest: Trace): Trace {
    Do(Assign, Do(ClientCommand, Do(LocalConnect, Do(SendReady, Do(ReadReady, rest)))))
  }

  lemma HandOverReaches(rest: Trace)
    requires Legal(HANDED_LINK, rest)
    ensures Legal(NEW_LINK, HandOver(rest)) && After(NEW_LINK, HandOver(rest)) == After(HANDED_LINK, rest)
  {
    ReadyReaches(rest);
    StartReaches(Do(LocalConnect, Do(SendReady, Do(ReadReady, rest))));
  }

  /** The gateway fails between taking the data and writing it. */
  function Losing(data: Bytes): Trace { Do(ReadPublic(data), Do(GatewayFails, Do(FinishLocal, Stop))) }

  lemma LosingLoses(l: Link, data: Bytes)
    requires l.gateway == Handed && l.client == Forwarding && l.down == Pipe([], false, false)
    requires l.publicIn == [] && l.fromPublic == [] && l.forLocal == []
    ensures Legal(l, Losing(data))
    ensures var l' := After(l, Losing(data));
            l'.localDone && l'.publicIn == data && l'.lostDown == data && l'.localOut == l.localOut && l'.publicDone == l.publicDone
  {
    var l1 := Apply(l, ReadPublic(data));
    var l2 := Apply(l1, GatewayFails);
    assert [] + data == data;
    Prepend(l2, FinishLocal, Apply(l2, FinishLocal), Stop);
    Prepend(l1, GatewayFails, l2, Do(FinishLocal, Stop));
    Prepend(l, ReadPublic(data), l1, Do(GatewayFails, Do(FinishLocal, Stop)));
  }

  /**
   * A clean end alone does not conserve: for any data there is a run in which both copy directions
   * end cleanly and all of it is lost.
   */
  lemma CleanEndCanLose(data: Bytes) returns (t: Trace)
    ensures Legal(NEW_LINK, t)
    ensures var l := After(NEW_LINK, t);
            l.localDone && l.publicDone && l.publicIn == data && l.lostDown == data && l.localOut == []
  {
    var l1 := HANDED_LINK.(up := Pipe([], true, false));
    var l2 := l1.(publicDone := true);
    LosingLoses(l2, data);
    Prepend(l1, FinishPublic, l2, Losing(data));
    Prepend(HANDED_LINK, LocalEof, l1, Do(FinishPublic, Losing(data)));
    t := Do(LocalEof, Do(FinishPublic, Losing(data)));
    HandOverReaches(t);
    t := HandOver(t);
  }

  // ----- a transfer can always be completed -----

  predicate Flowing(l: Link) { l.gateway == Handed && l.client == Forwarding }

  /** What is left to do before both directions have ended. */
  function Work(l: Link): nat {
    DownWork(l) + UpWork(l)
  }

  function DownWork(l: Link): nat {
    3 * |l.fromPublic| + 2 * |l.down.bytes| + |l.forLocal| + (if l.down.closed then 0 else 1) + if l.localDone then 0 else 1
  }

  function UpWork(l: Link): nat {
    3 * |l.fromLocal| + 2 * |l.up.bytes| + |l.forPublic| + (if l.up.closed then 0 else 1) + if l.publicDone then 0 else 1
  }

  function NextDown(l: Link): Action {
    if l.fromPublic != [] then WriteDown(|l.fromPublic|)
    else if !l.down.closed then PublicEof
    else if l.down.bytes != [] then ReadDown(|l.down.bytes|)
    else if l.forLocal != [] then WriteLocal(|l.forLocal|)
    else FinishLocal
  }

  function NextUp(l: Link): Action {
    if l.fromLocal != [] then WriteUp(|l.fromLocal|)
    else if !l.up.closed then LocalEof
    else if l.up.bytes != [] then ReadUp(|l.up.bytes|)
    else if l.forPublic != [] then WritePublic(|l.forPublic|)
    else FinishPublic
  }

  lemma DownProgress(l: Link)
    requires Aligned(l) && Flowing(l) && DownWork(l) > 0
    ensures Enabled(l, NextDown(l))
    ensures var l' := Apply(l, NextDown(l));
            && Flowing(l') && DownWork(l') < DownWork(l) && UpWork(l') == UpWork(l)
            && l'.publicIn == l.publicIn && l'.localIn == l.localIn
  {
  }

  lemma UpProgress(l: Link)
    requires Aligned(l) && Flowing(l) && UpWork(l) > 0
    ensures Enabled(l, NextUp(l))
    ensures var l' := Apply(l, NextUp(l));
            && Flowing(l') && UpWork(l') < UpWork(l) && DownWork(l') == DownWork(l)
            && l'.publicIn == l.publicIn && l'.localIn == l.localIn
  {
  }

  /** From any state of the data phase both directions can still end, with everything delivered. */
  lemma {:induction false} CanFinish(l: Link) returns (t: Trace)
    requires Aligned(l) && Flowing(l)
    ensures Legal(l, t)
    ensures var l' := After(l, t);
            && l'.localDone && l'.publicDone
            && l'.publicIn == l.publicIn && l'.localOut == l.publicIn && l'.localIn == l.localIn && l'.publicOut == l.localIn
    decreases Work(l)
  {
    if Work(l) == 0 {
      t := Stop;
      CleanEndAccounts(l);
    } else {
      var a := if DownWork(l) > 0 then NextDown(l) else NextUp(l);
      if DownWork(l) > 0 {
        DownProgress(l);
      } else {
        UpProgress(l);
      }
      StepKeepsAligned(l, a);
      t := CanFinish(Apply(l, a));
      t := Do(a, t);
    }
  }

  /** Any data can be exchanged: a run from a new link that delivers exactly it, both ways. */
  lemma CleanTransfer(data: Bytes, answer: Bytes) returns (t: Trace)
    ensures Legal(NEW_LINK, t)
    ensures var l := After(NEW_LINK, t);
            l.localDone && l.publicDone && l.publicIn == data && l.localOut == data && l.localIn == answer && l.publicOut == answer
  {
    var l1 := Apply(HANDED_LINK, ReadPublic(data));
    var l2 := Apply(l1, ReadLocal(answer));
    HandedAligned();
    StepKeepsAligned(HANDED_LINK, ReadPublic(data));
    StepKeepsAligned(l1, ReadLocal(answer));
    t := CanFinish(l2);
    assert [] + data == data && [] + answer == answer;
    Prepend(l1, ReadLocal(answer), l2, t);
    Prepend(HANDED_LINK, ReadPublic(data), l1, Do(ReadLocal(answer), t));
    HandOverReaches(Do(ReadPublic(data), Do(ReadLocal(answer), t)));
    t := HandOver(Do(ReadPublic(data), Do(ReadLocal(answer), t)));
  }

  lemma HandedAligned()
    ensures Aligned(HANDED_LINK)
  {
  }

  // ----- what the gateway around a link relies on -----

  predicate BeforeStart(g: Gateway) { g == Idle || g == AwaitPong }

  /** How any step but Assign may move the gateway end, and who forwards data. */
  lemma StepEffects(l: Link, a: Action)
    requires Enabled(l, a) && !a.Assign?
    ensures var l' := Apply(l, a);
            && (BeforeStart(l'.gateway) ==> BeforeStart(l.gateway))
            && (l'.gateway == AwaitReady ==> l.gateway == AwaitReady)
            && (l'.gateway == Handed ==> l.gateway == AwaitReady || l.gateway == Handed)
            && (!IsPublicCopy(a) ==> l'.publicIn == l.publicIn && l'.publicOut == l.publicOut)
  {
  }

  lemma NewLinkAligned()
    ensures Aligned(NEW_LINK)
  {
  }
}
