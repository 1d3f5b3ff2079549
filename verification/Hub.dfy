/** The hub of connected browsers: its map of clients, its broadcast, and what all the
    goroutines that write to a connection leave on the wire, whatever their interleaving. */
module Hub {
  import opened Results
  import opened Bytes
  import opened Frames
  import opened Connection

  // ----- the hub, one call at a time -----

  class ClientHub {
    var clients: set<WsClient>

    constructor ()
      ensures clients == {}
    {
      clients := {};
    }

    /** The end of an upgrade. */
    method Register(client: WsClient)
      modifies this
      ensures clients == old(clients) + {client}
    {
      clients := clients + {client};
    }

    method Remove(client: WsClient)
      modifies this, client`closes
      ensures clients == old(clients) - {client}
      ensures client.closes == old(client.closes) + if client in old(clients) then 1 else 0
    {
      if client in clients {
        clients := clients - {client};
        client.closes := client.closes + 1;
      }
    }

    /** Every client of the map gets the frame once; those whose write failed leave the map and
        are closed, and nothing else happens to any client. */
    method Broadcast(payload: seq<Byte>)
      modifies this, clients
      ensures forall c :: c in old(clients) ==> c.pipe == PushFrame(old(c.pipe), Frame(TEXT, payload)).0
      ensures clients == set c | c in old(clients) && PushFrame(old(c.pipe), Frame(TEXT, payload)).1
      ensures forall c :: c in old(clients) ==> c.closes == old(c.closes) + if c in clients then 0 else 1
      ensures forall c :: c in old(clients) ==> c.position == old(c.position)
    {
      ghost var f := Frame(TEXT, payload);
      var pending := clients;
      while pending != {}
        invariant pending <= old(clients)
        invariant clients ==
                  set c | c in old(clients) && (c in pending || PushFrame(old(c.pipe), f).1)
        invariant forall c :: c in old(clients) ==> c.position == old(c.position)
        invariant forall c :: c in old(clients) ==>
                    c.pipe == if c in pending then old(c.pipe) else PushFrame(old(c.pipe), f).0
        invariant forall c :: c in old(clients) ==>
                    c.closes == old(c.closes) + if c in clients then 0 else 1
        decreases pending
      {
        var client :| client in pending;
        var ok := client.WriteFrame(TEXT, payload);
        if !ok {
          Remove(client);
        }
        pending := pending - {client};
      }
    }
  }

  // ----- all goroutines at once -----

  type ClientId = nat

  type TaskId = nat

  /** Where a writer that holds a connection's lock has got to. */
  datatype Stage = BeforeHeader | BeforePayload

  datatype Turn = Turn(task: TaskId, frame: Frame, stage: Stage)

  /** A goroutine that got a connection's lock, and the frame it got it for. */
  datatype Grant = Grant(task: TaskId, frame: Frame)

  /** One connection after its 101 response: the bytes on the wire, who got its lock and in
      which order, the writer holding it now, whether a write failed, and how often the hub
      closed it. */
  datatype Conn = Conn(sent: seq<Byte>, grants: seq<Grant>, turn: Option<Turn>, failed: bool, closes: nat)

  datatype Send = Send(client: ClientId, frame: Frame)

  /** A goroutine that writes: all it has to send, and how much of that is behind it. A
      broadcast has one frame for every client of the copied map; the first snapshot is a single
      frame, and a read loop has its replies, one after the other, to its own client. A read loop
      ends at a failed write; that it may also go on here adds runs and takes none away. */
  datatype Task = Task(sends: seq<Send>, done: nat)

  datatype State = State(clients: set<ClientId>, conns: map<ClientId, Conn>, tasks: map<TaskId, Task>)

  const INITIAL := State({}, map[], map[])

  datatype Step =
    /** upgrade puts the new client in the map, under the hub's lock. */
    | Register(client: ClientId)
    /** broadcast copies the map, in some order, under the hub's lock. */
    | StartBroadcast(task: TaskId, order: seq<ClientId>, payload: seq<Byte>)
    /** The first snapshot, or the replies of a read loop. */
    | StartWrite(task: TaskId, client: ClientId, frames: seq<Frame>)
    /** writeFrame takes the connection's lock, writes twice, and gives it back. */
    | Lock(task: TaskId)
    | WriteHeader(task: TaskId, outcome: WriteResult)
    | WritePayload(task: TaskId, outcome: WriteResult)
    /** remove, under the hub's lock: after a failed broadcast write or at the end of a read loop. */
    | Remove(client: ClientId)

  /** The goroutine still has something to send, on a connection that exists. */
  predicate IsSending(s: State, task: TaskId) {
    task in s.tasks && s.tasks[task].done < |s.tasks[task].sends| && Next(s, task).client in s.conns
  }

  function Next(s: State, task: TaskId): Send
    requires task in s.tasks && s.tasks[task].done < |s.tasks[task].sends|
  {
    s.tasks[task].sends[s.tasks[task].done]
  }

  function Target(s: State, task: TaskId): Conn
    requires IsSending(s, task)
  {
    s.conns[Next(s, task).client]
  }

  predicate HasTurn(s: State, task: TaskId, stage: Stage) {
    IsSending(s, task) && Target(s, task).turn == Some(Turn(task, Next(s, task).frame, stage))
  }

  predicate Listed(order: seq<ClientId>, clients: set<ClientId>) {
    && (forall i :: 0 <= i < |order| ==> order[i] in clients)
    && (forall c :: c in clients ==> c in order)
    && (forall i, j :: 0 <= i < j < |order| ==> order[i] != order[j])
  }

  /** A write can only succeed on a connection that is not closed. */
  predicate Possible(outcome: WriteResult, conn: Conn) {
    outcome.Complete? ==> conn.closes == 0
  }

  predicate Enabled(s: State, step: Step) {
    match step
    case Register(c) => c !in s.conns
    case StartBroadcast(t, order, _) => t !in s.tasks && Listed(order, s.clients)
    case StartWrite(t, c, _) => t !in s.tasks && c in s.conns
    case Lock(t) => IsSending(s, t) && Target(s, t).turn == None
    case WriteHeader(t, o) => HasTurn(s, t, BeforeHeader) && Possible(o, Target(s, t))
    case WritePayload(t, o) => HasTurn(s, t, BeforePayload) && Possible(o, Target(s, t))
    case Remove(c) => c in s.conns
  }

  /** One write of the turn's holder; a failure, or the payload, ends the turn. */
  function Written(conn: Conn, outcome: WriteResult): Conn
    requires conn.turn.Some?
  {
    var Turn(task, f, stage) := conn.turn.value;
    var data := if stage.BeforeHeader? then Header(f) else f.payload;
    var (pipe, ok) := Push(Pipe(conn.sent, [outcome]), data);
    conn.(sent := pipe.sent, failed := conn.failed || !ok,
          turn := if ok && stage.BeforeHeader? then Some(Turn(task, f, BeforePayload)) else None)
  }

  /** A turn from the lock to its end, whatever happens on other connections in between, is one
      call of writeFrame. */
  lemma TurnIsPushFrame(conn: Conn, task: TaskId, f: Frame, first: WriteResult, second: WriteResult)
    ensures var half := Written(Granted(conn, task, f), first);
            var end := if half.turn.Some? then Written(half, second) else half;
            var (pipe, ok) := PushFrame(Pipe(conn.sent, [first, second]), f);
            && end == conn.(sent := pipe.sent, failed := conn.failed || !ok, turn := None,
                            grants := conn.grants + [Grant(task, f)])
            && (half.turn.Some? <==> first.Complete?)
  {}

  function Write(s: State, task: TaskId, outcome: WriteResult): State
    requires IsSending(s, task) && Target(s, task).turn.Some?
  {
    var conn := Written(Target(s, task), outcome);
    var t := s.tasks[task];
    s.(conns := s.conns[Next(s, task).client := conn],
       tasks := s.tasks[task := if conn.turn.None? then t.(done := t.done + 1) else t])
  }

  function BroadcastSends(order: seq<ClientId>, payload: seq<Byte>): seq<Send> {
    seq(|order|, i requires 0 <= i < |order| => Send(order[i], Frame(TEXT, payload)))
  }

  function WriteSends(c: ClientId, frames: seq<Frame>): seq<Send> {
    seq(|frames|, i requires 0 <= i < |frames| => Send(c, frames[i]))
  }

  function Apply(s: State, step: Step): State
    requires Enabled(s, step)
  {
    match step
    case Register(c) => s.(clients := s.clients + {c}, conns := s.conns[c := Conn([], [], None, false, 0)])
    case StartBroadcast(t, order, payload) => s.(tasks := s.tasks[t := Task(BroadcastSends(order, payload), 0)])
    case StartWrite(t, c, frames) => s.(tasks := s.tasks[t := Task(WriteSends(c, frames), 0)])
    case Lock(t) =>
      var Send(c, f) := Next(s, t);
      s.(conns := s.conns[c := Granted(s.conns[c], t, f)])
    case WriteHeader(t, o) => Write(s, t, o)
    case WritePayload(t, o) => Write(s, t, o)
    case Remove(c) =>
      if c in s.clients then
        s.(clients := s.clients - {c}, conns := s.conns[c := s.conns[c].(closes := s.conns[c].closes + 1)])
      else s
  }

  function Granted(conn: Conn, task: TaskId, f: Frame): Conn {
    conn.(grants := conn.grants + [Grant(task, f)], turn := Some(Turn(task, f, BeforeHeader)))
  }

  /** The state after the steps, or nothing if some step was not possible. */
  function After(steps: seq<Step>): Option<State> {
    if steps == [] then Some(INITIAL)
    else
      match After(steps[..|steps| - 1])
      case None => None
      case Some(s) => if Enabled(s, steps[|steps| - 1]) then Some(Apply(s, steps[|steps| - 1])) else None
  }

  // ----- the wire -----

  function GrantedFrames(grants: seq<Grant>): (fs: seq<Frame>)
    ensures |fs| == |grants|
    ensures forall i :: 0 <= i < |grants| ==> fs[i] == grants[i].frame
  {
    seq(|grants|, i requires 0 <= i < |grants| => grants[i].frame)
  }

  /** The frames whose writers are through: all that were granted but the one being written. */
  function WholeFrames(conn: Conn): seq<Frame> {
    if conn.turn.None? || conn.grants == [] then GrantedFrames(conn.grants)
    else GrantedFrames(conn.grants[..|conn.grants| - 1])
  }

  /** Until a write fails, the wire holds the granted frames whole and in order, the last of
      them cut short exactly while its writer is between its two writes. */
  ghost predicate WireInOrder(conn: Conn) {
    !conn.failed ==>
      match conn.turn
      case None => conn.sent == Stream(WholeFrames(conn))
      case Some(Turn(task, f, stage)) =>
        && conn.grants != [] && conn.grants[|conn.grants| - 1] == Grant(task, f)
        && conn.sent == Stream(WholeFrames(conn)) + if stage.BeforeHeader? then [] else Header(f)
  }

  lemma WrittenKeepsOrder(conn: Conn, outcome: WriteResult)
    requires conn.turn.Some? && WireInOrder(conn)
    ensures WireInOrder(Written(conn, outcome))
  {
    hide Header, Encode;
    if outcome.Complete? && !conn.failed {
      var f, whole := conn.turn.value.frame, WholeFrames(conn);
      if conn.turn.value.stage.BeforePayload? {
        assert GrantedFrames(conn.grants) == whole + [f];
        StreamSnoc(whole, f);
        assert Written(conn, outcome).sent == Stream(whole) + (Header(f) + f.payload);
      } else {
        assert Stream(whole) + [] + Header(f) == Stream(whole) + Header(f);
      }
    }
  }

  lemma StreamSnoc(fs: seq<Frame>, f: Frame)
    ensures Stream(fs + [f]) == Stream(fs) + (Header(f) + f.payload)
  {
    assert (fs + [f])[..|fs + [f]| - 1] == fs;
  }

  lemma GrantKeepsOrder(conn: Conn, task: TaskId, f: Frame)
    requires conn.turn.None? && WireInOrder(conn)
    ensures WireInOrder(Granted(conn, task, f))
  {
    assert (conn.grants + [Grant(task, f)])[..|conn.grants|] == conn.grants;
    assert conn.sent + [] == conn.sent;
  }

  lemma CloseKeepsOrder(conn: Conn)
    ensures WireInOrder(conn) ==> WireInOrder(conn.(closes := conn.closes + 1))
  {}

  lemma FreshConnIsInOrder()
    ensures WireInOrder(Conn([], [], None, false, 0))
  {}

  lemma WrittenKeepsRest(conn: Conn, outcome: WriteResult)
    requires conn.turn.Some?
    ensures Written(conn, outcome).closes == conn.closes && Written(conn, outcome).grants == conn.grants
    ensures Written(conn, outcome).turn.Some? ==>
              Written(conn, outcome).turn.value.(stage := conn.turn.value.stage) == conn.turn.value
  {}

  /** The hub closed a connection once if it has left the map, and never otherwise. */
  ghost predicate ClosedOnceOut(s: State, c: ClientId)
    requires c in s.conns
  {
    s.conns[c].closes == if c in s.clients then 0 else 1
  }

  ghost predicate WiresGood(s: State) {
    && s.clients <= s.conns.Keys
    && (forall c :: c in s.conns ==> WireInOrder(s.conns[c]))
    && (forall c :: c in s.conns ==> ClosedOnceOut(s, c))
  }

  lemma ApplyKeepsWires(s: State, step: Step)
    requires WiresGood(s) && Enabled(s, step)
    ensures WiresGood(Apply(s, step))
  {
    hide WireInOrder, Written;
    match step {
      case Register(c) => FreshConnIsInOrder();
      case Lock(t) => GrantKeepsOrder(Target(s, t), t, Next(s, t).frame);
      case WriteHeader(t, o) =>
        WrittenKeepsOrder(Target(s, t), o);
        WrittenKeepsRest(Target(s, t), o);
      case WritePayload(t, o) =>
        WrittenKeepsOrder(Target(s, t), o);
        WrittenKeepsRest(Target(s, t), o);
      case Remove(c) => CloseKeepsOrder(s.conns[c]);
      case _ =>
    }
  }

  lemma {:induction false} WiresAlwaysGood(steps: seq<Step>)
    requires After(steps).Some?
    ensures WiresGood(After(steps).value)
  {
    if steps != [] {
      WiresAlwaysGood(steps[..|steps| - 1]);
      ApplyKeepsWires(After(steps[..|steps| - 1]).value, steps[|steps| - 1]);
    }
  }

  /** What the browser sees, in every interleaving, on every connection no write of which has
      failed: the frames of the writers that got the lock, whole and in that order, with at
      most the header of one more behind them. The hub closes a connection exactly when its
      client leaves the map. */
  lemma WireReadsBack(steps: seq<Step>, c: ClientId)
    requires After(steps).Some? && c in After(steps).value.conns
    requires AllShort(WholeFrames(After(steps).value.conns[c]))
    ensures var conn := After(steps).value.conns[c];
            !conn.failed ==>
              && DecodeAll(Stream(WholeFrames(conn))) == Some(WholeFrames(conn))
              && conn.sent == Stream(WholeFrames(conn)) +
                   if conn.turn.Some? && conn.turn.value.stage.BeforePayload? then Header(conn.turn.value.frame) else []
    ensures After(steps).value.conns[c].closes == if c in After(steps).value.clients then 0 else 1
  {
    WiresAlwaysGood(steps);
    var conn := After(steps).value.conns[c];
    assert WireInOrder(conn) && ClosedOnceOut(After(steps).value, c);
    DecodeAllStream(WholeFrames(conn));
    assert Stream(WholeFrames(conn)) + [] == Stream(WholeFrames(conn));
  }

  // ----- nothing lost, nothing twice -----

  function GrantsOf(grants: seq<Grant>, t: TaskId): seq<Frame> {
    if grants == [] then []
    else
      var rest := GrantsOf(grants[..|grants| - 1], t);
      var last := grants[|grants| - 1];
      if last.task == t then rest + [last.frame] else rest
  }

  function SendsTo(sends: seq<Send>, c: ClientId): seq<Frame> {
    if sends == [] then []
    else
      var rest := SendsTo(sends[..|sends| - 1], c);
      var last := sends[|sends| - 1];
      if last.client == c then rest + [last.frame] else rest
  }

  predicate HoldsTurn(s: State, t: TaskId) {
    IsSending(s, t) && Target(s, t).turn.Some? && Target(s, t).turn.value.task == t
  }

  /** How many of its sends a task has got a lock for. */
  function Started(s: State, t: TaskId): (n: nat)
    requires t in s.tasks
    ensures s.tasks[t].done <= |s.tasks[t].sends| ==> n <= |s.tasks[t].sends|
  {
    s.tasks[t].done + if HoldsTurn(s, t) then 1 else 0
  }

  ghost predicate TurnIsOwned(s: State, c: ClientId)
    requires c in s.conns
  {
    s.conns[c].turn.Some? ==>
      var turn := s.conns[c].turn.value;
      IsSending(s, turn.task) && Next(s, turn.task) == Send(c, turn.frame)
  }

  ghost predicate TaskFits(s: State, t: TaskId)
    requires t in s.tasks
  {
    && s.tasks[t].done <= |s.tasks[t].sends|
    && forall i :: 0 <= i < |s.tasks[t].sends| ==> s.tasks[t].sends[i].client in s.conns
  }

  ghost predicate Accounted(s: State, t: TaskId, c: ClientId)
    requires t in s.tasks && c in s.conns && s.tasks[t].done <= |s.tasks[t].sends|
  {
    GrantsOf(s.conns[c].grants, t) == SendsTo(s.tasks[t].sends[..Started(s, t)], c)
  }

  ghost predicate SendsGood(s: State) {
    && s.clients <= s.conns.Keys
    && (forall c :: c in s.conns ==> TurnIsOwned(s, c))
    && (forall t :: t in s.tasks ==> TaskFits(s, t))
    && (forall c, g :: c in s.conns && g in s.conns[c].grants ==> g.task in s.tasks)
    && (forall t, c :: t in s.tasks && c in s.conns ==> Accounted(s, t, c))
  }

  lemma {:induction false} NoGrants(grants: seq<Grant>, t: TaskId)
    requires forall g :: g in grants ==> g.task != t
    ensures GrantsOf(grants, t) == []
  {
    if grants != [] { NoGrants(grants[..|grants| - 1], t); }
  }

  lemma {:induction false} NoSends(sends: seq<Send>, c: ClientId)
    requires forall i :: 0 <= i < |sends| ==> sends[i].client != c
    ensures SendsTo(sends, c) == []
  {
    if sends != [] { NoSends(sends[..|sends| - 1], c); }
  }

  lemma GrantsOfSnoc(grants: seq<Grant>, g: Grant, t: TaskId)
    ensures GrantsOf(grants + [g], t) == GrantsOf(grants, t) + if g.task == t then [g.frame] else []
  {
    assert (grants + [g])[..|grants|] == grants;
  }

  lemma SendsToSnoc(sends: seq<Send>, n: nat, c: ClientId)
    requires n < |sends|
    ensures SendsTo(sends[..n + 1], c) == SendsTo(sends[..n], c) + if sends[n].client == c then [sends[n].frame] else []
  {
    assert sends[..n + 1][..n] == sends[..n];
  }

  lemma RegisterKeepsSends(s: State, c: ClientId)
    requires SendsGood(s) && c !in s.conns
    ensures SendsGood(Apply(s, Register(c)))
  {
    hide GrantsOf, SendsTo;
    var after := Apply(s, Register(c));
    forall t, d | t in after.tasks && d in after.conns ensures Accounted(after, t, d) {
      assert TaskFits(s, t);
      assert Started(after, t) == Started(s, t);
      if d == c {
        NoGrants([], t);
        NoSends(s.tasks[t].sends[..Started(s, t)], c);
      } else {
        assert Accounted(s, t, d);
      }
    }
    forall d | d in after.conns ensures TurnIsOwned(after, d) {
      if d != c { assert TurnIsOwned(s, d); }
    }
    forall t | t in after.tasks ensures TaskFits(after, t) { assert TaskFits(s, t); }
  }

  lemma StartKeepsSends(s: State, t: TaskId, sends: seq<Send>)
    requires SendsGood(s) && t !in s.tasks
    requires forall i :: 0 <= i < |sends| ==> sends[i].client in s.conns
    ensures SendsGood(s.(tasks := s.tasks[t := Task(sends, 0)]))
  {
    hide GrantsOf, SendsTo;
    var after := s.(tasks := s.tasks[t := Task(sends, 0)]);
    forall d | d in after.conns ensures TurnIsOwned(after, d) { assert TurnIsOwned(s, d); }
    forall u | u in after.tasks ensures TaskFits(after, u) {
      if u != t { assert TaskFits(s, u); }
    }
    forall u, d | u in after.tasks && d in after.conns ensures Accounted(after, u, d) {
      if u == t {
        assert !HoldsTurn(after, t);
        NoGrants(s.conns[d].grants, t);
        NoSends(sends[..0], d);
      } else {
        assert TaskFits(s, u) && Accounted(s, u, d) && Started(after, u) == Started(s, u);
      }
    }
  }

  lemma LockKeepsSends(s: State, t: TaskId)
    requires SendsGood(s) && Enabled(s, Lock(t))
    ensures SendsGood(Apply(s, Lock(t)))
  {
    hide GrantsOf, SendsTo;
    var after := Apply(s, Lock(t));
    var Send(c, f) := Next(s, t);
    forall d | d in after.conns ensures TurnIsOwned(after, d) {
      if d != c { assert TurnIsOwned(s, d); }
    }
    forall u | u in after.tasks ensures TaskFits(after, u) { assert TaskFits(s, u); }
    forall u, d | u in after.tasks && d in after.conns ensures Accounted(after, u, d) {
      assert TaskFits(s, u) && Accounted(s, u, d);
      if d == c { GrantsOfSnoc(s.conns[c].grants, Grant(t, f), u); }
      if u == t {
        assert Started(s, t) == s.tasks[t].done && Started(after, t) == s.tasks[t].done + 1;
        SendsToSnoc(s.tasks[t].sends, s.tasks[t].done, d);
      } else {
        assert Started(after, u) == Started(s, u);
      }
    }
  }

  lemma WriteKeepsSends(s: State, t: TaskId, outcome: WriteResult)
    requires SendsGood(s) && HoldsTurn(s, t)
    ensures SendsGood(Write(s, t, outcome))
  {
    hide GrantsOf, SendsTo, Written;
    var after := Write(s, t, outcome);
    var c := Next(s, t).client;
    WrittenKeepsRest(s.conns[c], outcome);
    forall d | d in after.conns ensures TurnIsOwned(after, d) { assert TurnIsOwned(s, d); }
    forall u | u in after.tasks ensures TaskFits(after, u) { assert TaskFits(s, u); }
    forall u, d | u in after.tasks && d in after.conns ensures Accounted(after, u, d) {
      assert TaskFits(s, u) && Accounted(s, u, d);
      if HoldsTurn(after, u) { assert TurnIsOwned(after, Next(after, u).client); }
      assert Started(after, u) == Started(s, u) by {
        if u == t {
          assert after.conns[c].turn.None? ==> !HoldsTurn(after, t);
        } else if HoldsTurn(s, u) {
          assert Next(s, u).client != c;
        }
      }
    }
  }

  lemma RemoveKeepsSends(s: State, c: ClientId)
    requires SendsGood(s) && c in s.conns
    ensures SendsGood(Apply(s, Remove(c)))
  {
    hide GrantsOf, SendsTo;
    var after := Apply(s, Remove(c));
    forall d | d in after.conns ensures TurnIsOwned(after, d) { assert TurnIsOwned(s, d); }
    forall u | u in after.tasks ensures TaskFits(after, u) { assert TaskFits(s, u); }
    forall u, d | u in after.tasks && d in after.conns ensures Accounted(after, u, d) {
      assert TaskFits(s, u) && Accounted(s, u, d) && Started(after, u) == Started(s, u);
    }
  }

  lemma {:induction false} SendsAlwaysGood(steps: seq<Step>)
    requires After(steps).Some?
    ensures SendsGood(After(steps).value)
  {
    if steps != [] {
      SendsAlwaysGood(steps[..|steps| - 1]);
      var s := After(steps[..|steps| - 1]).value;
      match steps[|steps| - 1] {
        case Register(c) => RegisterKeepsSends(s, c);
        case StartBroadcast(t, order, payload) => StartKeepsSends(s, t, BroadcastSends(order, payload));
        case StartWrite(t, c, frames) => StartKeepsSends(s, t, WriteSends(c, frames));
        case Lock(t) => LockKeepsSends(s, t);
        case WriteHeader(t, o) => WriteKeepsSends(s, t, o);
        case WritePayload(t, o) => WriteKeepsSends(s, t, o);
        case Remove(c) => RemoveKeepsSends(s, c);
      }
    }
  }

  /** In every interleaving, what a goroutine has put on a connection is what it had to send
      there so far, each frame once and in order; when it is through, that is all of it. */
  lemma EachSendOnce(steps: seq<Step>, t: TaskId, c: ClientId)
    requires After(steps).Some?
    requires t in After(steps).value.tasks && c in After(steps).value.conns
    ensures var s := After(steps).value;
            && s.tasks[t].done <= |s.tasks[t].sends|
            && GrantsOf(s.conns[c].grants, t) == SendsTo(s.tasks[t].sends[..Started(s, t)], c)
            && (s.tasks[t].done == |s.tasks[t].sends| ==>
                GrantsOf(s.conns[c].grants, t) == SendsTo(s.tasks[t].sends, c))
  {
    SendsAlwaysGood(steps);
    var s := After(steps).value;
    assert TaskFits(s, t) && Accounted(s, t, c);
    assert s.tasks[t].sends[..|s.tasks[t].sends|] == s.tasks[t].sends;
  }

  // ----- the replies of one read loop -----

  lemma {:induction false} SendsToOne(c: ClientId, frames: seq<Frame>, n: nat)
    requires n <= |frames|
    ensures SendsTo(WriteSends(c, frames)[..n], c) == frames[..n]
  {
    if n > 0 {
      SendsToOne(c, frames, n - 1);
      SendsToSnoc(WriteSends(c, frames), n - 1, c);
      assert frames[..n] == frames[..n - 1] + [frames[n - 1]];
    }
  }

  /** What a writer was started with, it keeps. */
  lemma {:induction false} StartedKeepsSends(steps: seq<Step>, t: TaskId, c: ClientId, frames: seq<Frame>)
    requires After(steps).Some? && StartWrite(t, c, frames) in steps
    ensures var s := After(steps).value;
            t in s.tasks && c in s.conns && s.tasks[t].sends == WriteSends(c, frames)
  {
    var before, last := steps[..|steps| - 1], steps[|steps| - 1];
    assert steps == before + [last];
    if StartWrite(t, c, frames) in before {
      StartedKeepsSends(before, t, c, frames);
    }
  }

  /** In every interleaving, the frames a read loop has put on its connection are the first of
      the replies it owes, in their order; when it is through, they are all of them. */
  lemma RepliesInOrder(steps: seq<Step>, t: TaskId, c: ClientId, fs: seq<ClientFrame>)
    requires After(steps).Some? && StartWrite(t, c, Replies(fs)) in steps
    ensures var s := After(steps).value;
            && t in s.tasks && c in s.conns
            && GrantsOf(s.conns[c].grants, t) <= Replies(fs)
            && (s.tasks[t].done == |s.tasks[t].sends| ==> GrantsOf(s.conns[c].grants, t) == Replies(fs))
  {
    hide After, Replies, WriteSends;
    StartedKeepsSends(steps, t, c, Replies(fs));
    EachSendOnce(steps, t, c);
    var s := After(steps).value;
    OneSend(c, Replies(fs));
    SendsToOne(c, Replies(fs), Started(s, t));
    SendsToOne(c, Replies(fs), |Replies(fs)|);
    assert WriteSends(c, Replies(fs))[..|Replies(fs)|] == WriteSends(c, Replies(fs));
  }

  lemma OneSend(c: ClientId, frames: seq<Frame>)
    ensures |WriteSends(c, frames)| == |frames|
  {}
}
