/** The kitchen display feed: a cursor into an append-only log, over channels that break. */
module KdsFeed {
  import opened Outcome

  type ConnId = nat

  /** Sequence numbers are gapless from 1: entry `i` of the log carries `i + 1`. */
  datatype Event = Event(sequenceId: nat, payload: string)

  ghost predicate Gapless(log: seq<Event>) {
    forall i :: 0 <= i < |log| ==> log[i].sequenceId == i + 1
  }

  /** The log between two cursors. */
  function Slice(log: seq<Event>, from: nat, upto: nat): seq<Event> {
    if from <= upto <= |log| then log[from..upto] else []
  }

  /** At most `limit` events after a cursor, oldest first. */
  function ReadEvents(log: seq<Event>, after: nat, limit: nat): seq<Event> {
    if after >= |log| then [] else if after + limit <= |log| then log[after..after + limit] else log[after..]
  }

  // ---------------------------------------------------------------- the client

  datatype Mode = Idle | Connecting | Streaming | BackingOff | Polling | Stopped

  datatype Client = Client(mode: Mode, lastSequenceId: nat, wsFailures: nat, socket: Option<ConnId>)

  /** The events the client takes from a frame: those beyond what it has seen. */
  function Taken(last: nat, events: seq<Event>): (r: (nat, seq<Event>)) {
    if events == [] then (last, [])
    else
      var (before, taken) := Taken(last, events[..|events| - 1]);
      var e := events[|events| - 1];
      if e.sequenceId <= before then (before, taken) else (e.sequenceId, taken + [e])
  }

  function ScheduleReconnect(c: Client, maxRetries: nat): Client {
    if c.mode.Stopped? then c
    else if c.wsFailures >= maxRetries then c.(mode := Polling)
    else c.(wsFailures := c.wsFailures + 1, mode := BackingOff)
  }

  function ConnectWebSocket(c: Client, id: ConnId): Client {
    if c.mode.Stopped? then c else c.(mode := Connecting, socket := Some(id))
  }

  function Opened(c: Client, id: ConnId): Client {
    if c.socket == Some(id) then c.(wsFailures := 0, mode := Streaming) else c.(wsFailures := 0)
  }

  function Failed(c: Client, id: ConnId, maxRetries: nat): Client {
    if c.mode.Stopped? || c.socket != Some(id) then c else ScheduleReconnect(c.(socket := None), maxRetries)
  }

  /** The client object; `delivered` is what it has handed to its event callback. */
  class RealtimeClient {
    var client: Client
    var delivered: seq<Event>
    const maxRetries: nat

    constructor (initialLastSequenceId: nat, maxRetries: nat)
      ensures client == Client(Idle, initialLastSequenceId, 0, None) && delivered == [] && this.maxRetries == maxRetries
    {
      client := Client(Idle, initialLastSequenceId, 0, None);
      delivered := [];
      this.maxRetries := maxRetries;
    }

    /** Starting works once: a stopped client stays stopped. */
    method Start(id: ConnId)
      modifies this`client
      ensures client == if old(client).mode.Idle? then
                          old(client).(mode := Connecting, wsFailures := 0, socket := Some(id))
                        else if old(client).mode.Stopped? then old(client).(wsFailures := 0)
                        else old(client)
    {
      if !client.mode.Idle? && !client.mode.Stopped? {
        return;
      }
      client := client.(wsFailures := 0);
      client := ConnectWebSocket(client, id);
    }

    method Stop()
      modifies this`client
      ensures client == old(client).(mode := Stopped, socket := None)
    {
      client := client.(mode := Stopped);
      client := client.(socket := None);
    }

    /** The open event: the subscribe message carries the present cursor. */
    method OnOpen(id: ConnId) returns (subscribe: Option<nat>)
      modifies this`client
      ensures client == Opened(old(client), id)
      ensures subscribe == if old(client).socket == Some(id) then Some(old(client).lastSequenceId) else None
    {
      client := client.(wsFailures := 0);
      if client.socket != Some(id) {
        return None;
      }
      client := client.(mode := Streaming);
      return Some(client.lastSequenceId);
    }

    method OnFailure(id: ConnId)
      modifies this`client
      ensures client == Failed(old(client), id, maxRetries)
    {
      if client.mode.Stopped? {
        return;
      }
      if client.socket != Some(id) {
        return;
      }
      client := client.(socket := None);
      if client.wsFailures >= maxRetries {
        client := client.(mode := Polling);
        return;
      }
      client := client.(wsFailures := client.wsFailures + 1, mode := BackingOff);
    }

    /** Applies a frame event by event, skipping what was seen. */
    method HandleEvents(events: seq<Event>)
      modifies this
      ensures client == old(client).(lastSequenceId := Taken(old(client).lastSequenceId, events).0)
      ensures delivered == old(delivered) + Taken(old(client).lastSequenceId, events).1
    {
      for i := 0 to |events|
        invariant client == old(client).(lastSequenceId := Taken(old(client).lastSequenceId, events[..i]).0)
        invariant delivered == old(delivered) + Taken(old(client).lastSequenceId, events[..i]).1
      {
        assert events[..i + 1][..i] == events[..i];
        if events[i].sequenceId > client.lastSequenceId {
          client := client.(lastSequenceId := events[i].sequenceId);
          delivered := delivered + [events[i]];
        }
      }
      assert events[..|events|] == events;
    }
  }

  // ---------------------------------------------------------------- the server

  /** One subscription: the cursor behind everything it has sent. */
  class Subscription {
    var lastSequenceId: nat

    constructor (cursor: nat)
      ensures lastSequenceId == cursor
    {
      lastSequenceId := cursor;
    }

    /** One bounded round: the next events after the cursor, which moves behind them. */
    method Pump(log: seq<Event>, limit: nat) returns (frame: seq<Event>)
      requires Gapless(log)
      modifies this
      ensures frame == ReadEvents(log, old(lastSequenceId), limit)
      ensures lastSequenceId == old(lastSequenceId) + |frame|
    {
      frame := ReadEvents(log, lastSequenceId, limit);
      if |frame| == 0 {
        return;
      }
      lastSequenceId := frame[|frame| - 1].sequenceId;
    }
  }

  // -------------------------------------------------------- taking from a frame

  /** From a contiguous frame that starts at or before the cursor, exactly the rest of it is taken. */
  lemma {:induction false} TakenIsRest(log: seq<Event>, from: nat, upto: nat, last: nat)
    requires Gapless(log) && from <= upto <= |log| && from <= last
    ensures Taken(last, log[from..upto]) == (if upto <= last then (last, []) else (upto, log[last..upto]))
    decreases upto
  {
    if from < upto {
      TakenIsRest(log, from, upto - 1, last);
      assert log[from..upto][..upto - from - 1] == log[from..upto - 1];
      assert log[from..upto][upto - from - 1] == log[upto - 1];
      if upto > last {
        assert last <= upto - 1;
        assert log[last..upto] == (if upto - 1 <= last then [] else log[last..upto - 1]) + [log[upto - 1]];
      }
    }
  }

  lemma SliceJoin(log: seq<Event>, a: nat, b: nat, c: nat)
    requires a <= b <= c <= |log|
    ensures Slice(log, a, b) + log[b..c] == Slice(log, a, c)
  {
  }

  lemma SliceGrows(log: seq<Event>, more: seq<Event>, a: nat, b: nat)
    requires b <= |log| || a == b
    ensures Slice(log + more, a, b) == Slice(log, a, b)
  {
  }

  // ------------------------------------------------------- the whole system

  /**
   * One socket: the subscribe message on its way, the server's cursor, and the frames in flight.
   * `base` is the cursor before the first frame in flight.
   */
  datatype Conn = Conn(subscribe: Option<nat>, cursor: Option<nat>, base: nat, frames: seq<seq<Event>>)

  datatype Poll = Asked(after: nat) | Replied(after: nat, events: seq<Event>)

  datatype System = System(log: seq<Event>, client: Client, delivered: seq<Event>, conns: map<ConnId, Conn>,
                           polls: map<nat, Poll>)

  datatype Action =
    | Append(payload: string)
    | Start(id: ConnId)
    | Reconnect(id: ConnId)      // the back-off timer
    | RefusedConnect             // the socket could not even be created
    | Open(id: ConnId)
    | Subscribe(id: ConnId)      // the server receives the subscribe message
    | Pump(id: ConnId)
    | Deliver(id: ConnId)
    | Drop(id: ConnId, kept: nat)  // the socket dies; a suffix of what is in flight is lost
    | Fail(id: ConnId)           // the client notices
    | Ask(id: nat)
    | Reply(id: nat)
    | TakeReply(id: nat)
    | LoseReply(id: nat)
    | Stop

  datatype Config = Config(limit: nat, maxRetries: nat)

  const NoConn := Conn(None, None, 0, [])

  function Handle(s: System, events: seq<Event>): System {
    var (last, taken) := Taken(s.client.lastSequenceId, events);
    s.(client := s.client.(lastSequenceId := last), delivered := s.delivered + taken)
  }

  function PumpConn(s: System, id: ConnId, limit: nat): Conn
    requires id in s.conns && s.conns[id].cursor.Some?
  {
    var c := s.conns[id];
    var events := ReadEvents(s.log, c.cursor.value, limit);
    if events == [] then c else c.(cursor := Some(c.cursor.value + |events|), frames := c.frames + [events])
  }

  function Step(s: System, a: Action, cfg: Config): Option<System> {
    match a
    case Append(payload) => Some(s.(log := s.log + [Event(|s.log| + 1, payload)]))
    case Start(id) =>
      if id in s.conns then None
      else if s.client.mode.Idle? then
        Some(s.(client := s.client.(mode := Connecting, wsFailures := 0, socket := Some(id)),
                conns := s.conns[id := NoConn]))
      else if s.client.mode.Stopped? then Some(s.(client := s.client.(wsFailures := 0)))
      else Some(s)
    case Reconnect(id) =>
      if id in s.conns || !s.client.mode.BackingOff? then None
      else Some(s.(client := ConnectWebSocket(s.client, id), conns := s.conns[id := NoConn]))
    case RefusedConnect =>
      if !s.client.mode.BackingOff? && !s.client.mode.Idle? then None
      else Some(s.(client := ScheduleReconnect(s.client.(mode := Connecting), cfg.maxRetries)))
    case Open(id) =>
      if id !in s.conns then None
      else
        var subscribe := if s.client.socket == Some(id) then Some(s.client.lastSequenceId) else s.conns[id].subscribe;
        Some(s.(client := Opened(s.client, id), conns := s.conns[id := s.conns[id].(subscribe := subscribe)]))
    case Subscribe(id) =>
      if id !in s.conns || s.conns[id].subscribe.None? || s.conns[id].cursor.Some? || s.conns[id].frames != [] then None
      else
        var cursor := s.conns[id].subscribe.value;
        Some(s.(conns := s.conns[id := Conn(None, Some(cursor), cursor, [])]))
    case Pump(id) =>
      if id !in s.conns || s.conns[id].cursor.None? then None
      else Some(s.(conns := s.conns[id := PumpConn(s, id, cfg.limit)]))
    case Deliver(id) =>
      if id !in s.conns || s.conns[id].frames == [] then None
      else
        var c := s.conns[id];
        Some(Handle(s, c.frames[0]).(conns := s.conns[id := c.(base := c.base + |c.frames[0]|,
                                                               frames := c.frames[1..])]))
    case Drop(id, kept) =>
      if id !in s.conns || kept > |s.conns[id].frames| then None
      else Some(s.(conns := s.conns[id := s.conns[id].(subscribe := None, cursor := None,
                                                       frames := s.conns[id].frames[..kept])]))
    case Fail(id) =>
      if id !in s.conns then None else Some(s.(client := Failed(s.client, id, cfg.maxRetries)))
    case Ask(id) =>
      if id in s.polls || !s.client.mode.Polling? then None
      else Some(s.(polls := s.polls[id := Asked(s.client.lastSequenceId)]))
    case Reply(id) =>
      if id !in s.polls || !s.polls[id].Asked? then None
      else Some(s.(polls := s.polls[id := Replied(s.polls[id].after, ReadEvents(s.log, s.polls[id].after, cfg.limit))]))
    case TakeReply(id) =>
      if id !in s.polls || !s.polls[id].Replied? then None
      else Some(Handle(s, s.polls[id].events).(polls := s.polls - {id}))
    case LoseReply(id) => Some(s.(polls := s.polls - {id}))
    case Stop => Some(s.(client := s.client.(mode := Stopped, socket := None)))
  }

  function Initial(cursor: nat): System {
    System([], Client(Idle, cursor, 0, None), [], map[], map[])
  }

  function Exec(s: System, actions: seq<Action>, cfg: Config): Option<System>
    decreases |actions|
  {
    if actions == [] then Some(s)
    else match Step(s, actions[0], cfg)
      case None => None
      case Some(next) => Exec(next, actions[1..], cfg)
  }

  // ------------------------------------------------------------ the invariant

  function Length(frames: seq<seq<Event>>): nat {
    if frames == [] then 0 else |frames[0]| + Length(frames[1..])
  }

  /** The frames are consecutive pieces of the log from a cursor on. */
  ghost predicate InFlight(log: seq<Event>, base: nat, frames: seq<seq<Event>>)
    decreases |frames|
  {
    frames == [] || (&& base + |frames[0]| <= |log| && frames[0] == log[base..base + |frames[0]|]
                     && InFlight(log, base + |frames[0]|, frames[1..]))
  }

  ghost predicate ConnOk(log: seq<Event>, last: nat, c: Conn) {
    && (c.subscribe.Some? ==> c.subscribe.value <= last)
    && (c.cursor.Some? || c.frames != [] ==> c.base <= last)
    && InFlight(log, c.base, c.frames)
    && (c.cursor.Some? ==> c.cursor.value == c.base + Length(c.frames))
  }

  ghost predicate PollOk(log: seq<Event>, last: nat, p: Poll) {
    && p.after <= last
    && (p.Replied? ==>
          || p.events == []
          || (p.after + |p.events| <= |log| && p.events == log[p.after..p.after + |p.events|]))
  }

  ghost predicate ConnsOk(s: System) {
    forall id {:trigger ConnOk(s.log, s.client.lastSequenceId, s.conns[id])} :: id in s.conns ==>
      ConnOk(s.log, s.client.lastSequenceId, s.conns[id])
  }

  ghost predicate PollsOk(s: System) {
    forall id {:trigger PollOk(s.log, s.client.lastSequenceId, s.polls[id])} :: id in s.polls ==>
      PollOk(s.log, s.client.lastSequenceId, s.polls[id])
  }

  /** What the client has delivered is the log from its first cursor to its present one. */
  ghost predicate DeliveredOk(s: System, start: nat) {
    && start <= s.client.lastSequenceId && (s.client.lastSequenceId == start || s.client.lastSequenceId <= |s.log|)
    && s.delivered == Slice(s.log, start, s.client.lastSequenceId)
  }

  ghost predicate Inv(s: System, start: nat) {
    Gapless(s.log) && DeliveredOk(s, start) && ConnsOk(s) && PollsOk(s)
  }

  lemma {:induction false} InFlightGrows(log: seq<Event>, more: seq<Event>, base: nat, frames: seq<seq<Event>>)
    requires InFlight(log, base, frames)
    ensures InFlight(log + more, base, frames)
    decreases |frames|
  {
    if frames != [] {
      assert (log + more)[base..base + |frames[0]|] == log[base..base + |frames[0]|];
      InFlightGrows(log, more, base + |frames[0]|, frames[1..]);
    }
  }

  lemma {:induction false} InFlightPrefix(log: seq<Event>, base: nat, frames: seq<seq<Event>>, kept: nat)
    requires InFlight(log, base, frames) && kept <= |frames|
    ensures InFlight(log, base, frames[..kept])
    decreases |frames|
  {
    if kept > 0 {
      assert frames[..kept][1..] == frames[1..][..kept - 1];
      InFlightPrefix(log, base + |frames[0]|, frames[1..], kept - 1);
    }
  }

  lemma {:induction false} InFlightSnoc(log: seq<Event>, base: nat, frames: seq<seq<Event>>, frame: seq<Event>)
    requires InFlight(log, base, frames)
    requires base + Length(frames) + |frame| <= |log|
             && frame == log[base + Length(frames)..base + Length(frames) + |frame|]
    ensures InFlight(log, base, frames + [frame]) && Length(frames + [frame]) == Length(frames) + |frame|
    decreases |frames|
  {
    if frames == [] {
      assert [frame][1..] == [];
    } else {
      assert (frames + [frame])[1..] == frames[1..] + [frame];
      InFlightSnoc(log, base + |frames[0]|, frames[1..], frame);
    }
  }

  lemma ReadIsSlice(log: seq<Event>, after: nat, limit: nat)
    ensures var events := ReadEvents(log, after, limit);
            events == [] || (after + |events| <= |log| && events == log[after..after + |events|])
  {
  }

  /** Taking a contiguous piece that starts at or before the cursor extends the delivered slice. */
  lemma HandleKeeps(s: System, start: nat, from: nat, events: seq<Event>)
    requires Gapless(s.log) && DeliveredOk(s, start) && from <= s.client.lastSequenceId
    requires events == [] || (from + |events| <= |s.log| && events == s.log[from..from + |events|])
    ensures DeliveredOk(Handle(s, events), start)
    ensures Handle(s, events).client.lastSequenceId >= s.client.lastSequenceId
    ensures events != [] ==> Handle(s, events).client.lastSequenceId >= from + |events|
    ensures events != [] ==>
              Handle(s, events).client.lastSequenceId
              == if from + |events| <= s.client.lastSequenceId then s.client.lastSequenceId else from + |events|
  {
    if events != [] {
      var last, upto := s.client.lastSequenceId, from + |events|;
      TakenIsRest(s.log, from, upto, last);
      if upto > last {
        SliceJoin(s.log, start, last, upto);
      } else {
        assert s.delivered + [] == s.delivered;
      }
    } else {
      assert s.delivered + [] == s.delivered;
    }
  }

  lemma LaterConn(log: seq<Event>, last: nat, later: nat, c: Conn)
    requires ConnOk(log, last, c) && last <= later
    ensures ConnOk(log, later, c)
  {
  }

  /** The client only moved forward, and one socket may have changed soundly. */
  lemma CarryConns(s: System, n: System, changed: set<ConnId>)
    requires ConnsOk(s) && n.log == s.log && n.client.lastSequenceId >= s.client.lastSequenceId
    requires forall x :: x in n.conns && x !in changed ==> x in s.conns && n.conns[x] == s.conns[x]
    requires forall x :: x in n.conns && x in changed ==> ConnOk(n.log, n.client.lastSequenceId, n.conns[x])
    ensures ConnsOk(n)
  {
    forall x | x in n.conns ensures ConnOk(n.log, n.client.lastSequenceId, n.conns[x]) {
      if x !in changed {
        assert ConnOk(s.log, s.client.lastSequenceId, s.conns[x]);
        LaterConn(s.log, s.client.lastSequenceId, n.client.lastSequenceId, s.conns[x]);
      }
    }
  }

  lemma CarryPolls(s: System, n: System, changed: set<nat>)
    requires PollsOk(s) && n.log == s.log && n.client.lastSequenceId >= s.client.lastSequenceId
    requires forall x :: x in n.polls && x !in changed ==> x in s.polls && n.polls[x] == s.polls[x]
    requires forall x :: x in n.polls && x in changed ==> PollOk(n.log, n.client.lastSequenceId, n.polls[x])
    ensures PollsOk(n)
  {
    forall x | x in n.polls ensures PollOk(n.log, n.client.lastSequenceId, n.polls[x]) {
      if x !in changed {
        assert PollOk(s.log, s.client.lastSequenceId, s.polls[x]);
      }
    }
  }

  /** Nothing but the client's mode, its sockets or one connection changed. */
  lemma QuietKeeps(s: System, start: nat, n: System, changed: set<ConnId>)
    requires Inv(s, start) && n.log == s.log && n.delivered == s.delivered && n.polls == s.polls
    requires n.client.lastSequenceId == s.client.lastSequenceId
    requires forall x :: x in n.conns && x !in changed ==> x in s.conns && n.conns[x] == s.conns[x]
    requires forall x :: x in n.conns && x in changed ==> ConnOk(n.log, n.client.lastSequenceId, n.conns[x])
    ensures Inv(n, start)
  {
    CarryConns(s, n, changed);
    assert PollsOk(n) by {
      forall x | x in n.polls ensures PollOk(n.log, n.client.lastSequenceId, n.polls[x]) {
        assert PollOk(s.log, s.client.lastSequenceId, s.polls[x]);
      }
    }
  }

  lemma AppendKeeps(s: System, start: nat, payload: string)
    requires Inv(s, start)
    ensures Inv(s.(log := s.log + [Event(|s.log| + 1, payload)]), start)
  {
    var more := [Event(|s.log| + 1, payload)];
    var n := s.(log := s.log + more);
    SliceGrows(s.log, more, start, s.client.lastSequenceId);
    forall x | x in n.conns ensures ConnOk(n.log, n.client.lastSequenceId, n.conns[x]) {
      assert ConnOk(s.log, s.client.lastSequenceId, s.conns[x]);
      InFlightGrows(s.log, more, s.conns[x].base, s.conns[x].frames);
    }
    forall x | x in n.polls ensures PollOk(n.log, n.client.lastSequenceId, n.polls[x]) {
      assert PollOk(s.log, s.client.lastSequenceId, s.polls[x]);
      PollGrows(s.log, more, s.client.lastSequenceId, s.polls[x]);
    }
  }

  lemma PollGrows(log: seq<Event>, more: seq<Event>, last: nat, p: Poll)
    requires PollOk(log, last, p)
    ensures PollOk(log + more, last, p)
  {
    if p.Replied? && p.events != [] {
      assert (log + more)[p.after..p.after + |p.events|] == log[p.after..p.after + |p.events|];
    }
  }

  lemma PumpOk(s: System, id: ConnId, limit: nat)
    requires id in s.conns && s.conns[id].cursor.Some? && ConnOk(s.log, s.client.lastSequenceId, s.conns[id])
    ensures ConnOk(s.log, s.client.lastSequenceId, PumpConn(s, id, limit))
  {
    var c := s.conns[id];
    var events := ReadEvents(s.log, c.cursor.value, limit);
    ReadIsSlice(s.log, c.cursor.value, limit);
    if events != [] {
      InFlightSnoc(s.log, c.base, c.frames, events);
    }
  }

  lemma DeliverKeeps(s: System, start: nat, id: ConnId, cfg: Config)
    requires Inv(s, start) && id in s.conns && s.conns[id].frames != []
    ensures Inv(Step(s, Deliver(id), cfg).value, start)
  {
    var c := s.conns[id];
    assert ConnOk(s.log, s.client.lastSequenceId, s.conns[id]);
    HandleKeeps(s, start, c.base, c.frames[0]);
    var n := Step(s, Deliver(id), cfg).value;
    CarryConns(s, n, {id});
    CarryPolls(s, n, {});
  }

  lemma TakeReplyKeeps(s: System, start: nat, id: nat, cfg: Config)
    requires Inv(s, start) && id in s.polls && s.polls[id].Replied?
    ensures Inv(Step(s, TakeReply(id), cfg).value, start)
  {
    var p := s.polls[id];
    assert PollOk(s.log, s.client.lastSequenceId, s.polls[id]);
    HandleKeeps(s, start, p.after, p.events);
    var n := Step(s, TakeReply(id), cfg).value;
    CarryConns(s, n, {});
    CarryPolls(s, n, {id});
  }

  lemma ClientKeeps(s: System, start: nat, client: Client)
    requires Inv(s, start) && client.lastSequenceId == s.client.lastSequenceId
    ensures Inv(s.(client := client), start)
  {
    QuietKeeps(s, start, s.(client := client), {});
  }

  lemma ConnKeeps(s: System, start: nat, client: Client, id: ConnId, c: Conn)
    requires Inv(s, start) && client.lastSequenceId == s.client.lastSequenceId
             && ConnOk(s.log, s.client.lastSequenceId, c)
    ensures Inv(s.(client := client, conns := s.conns[id := c]), start)
  {
    QuietKeeps(s, start, s.(client := client, conns := s.conns[id := c]), {id});
  }

  lemma PollKeeps(s: System, start: nat, id: nat, p: Poll)
    requires Inv(s, start) && PollOk(s.log, s.client.lastSequenceId, p)
    ensures Inv(s.(polls := s.polls[id := p]), start)
  {
    CarryConns(s, s.(polls := s.polls[id := p]), {});
    CarryPolls(s, s.(polls := s.polls[id := p]), {id});
  }

  lemma LosePollKeeps(s: System, start: nat, id: nat)
    requires Inv(s, start)
    ensures Inv(s.(polls := s.polls - {id}), start)
  {
    CarryConns(s, s.(polls := s.polls - {id}), {});
    CarryPolls(s, s.(polls := s.polls - {id}), {});
  }

  lemma SocketKeeps(s: System, start: nat, a: Action, n: System, cfg: Config)
    requires Inv(s, start) && Step(s, a, cfg) == Some(n)
    requires a.Open? || a.Subscribe? || a.Pump? || a.Deliver? || a.Drop? || a.Fail?
    ensures Inv(n, start)
  {
    var id := a.id;
    assert ConnOk(s.log, s.client.lastSequenceId, s.conns[id]);
    var c := s.conns[id];
    match a
    case Open(_) =>
      ConnKeeps(s, start, Opened(s.client, id), id,
                c.(subscribe := if s.client.socket == Some(id) then Some(s.client.lastSequenceId) else c.subscribe));
    case Subscribe(_) => ConnKeeps(s, start, s.client, id, Conn(None, Some(c.subscribe.value), c.subscribe.value, []));
    case Pump(_) =>
      PumpOk(s, id, cfg.limit);
      ConnKeeps(s, start, s.client, id, PumpConn(s, id, cfg.limit));
    case Deliver(_) => DeliverKeeps(s, start, id, cfg);
    case Drop(_, kept) =>
      InFlightPrefix(s.log, c.base, c.frames, kept);
      ConnKeeps(s, start, s.client, id, c.(subscribe := None, cursor := None, frames := c.frames[..kept]));
    case Fail(_) => ClientKeeps(s, start, Failed(s.client, id, cfg.maxRetries));
  }

  lemma StepKeeps(s: System, start: nat, a: Action, n: System, cfg: Config)
    requires Inv(s, start) && Step(s, a, cfg) == Some(n)
    ensures Inv(n, start)
  {
    match a
    case Append(payload) => AppendKeeps(s, start, payload);
    case Start(id) =>
      if s.client.mode.Idle? {
        ConnKeeps(s, start, n.client, id, NoConn);
      } else {
        ClientKeeps(s, start, n.client);
      }
    case Reconnect(id) => ConnKeeps(s, start, n.client, id, NoConn);
    case RefusedConnect => ClientKeeps(s, start, n.client);
    case Ask(id) => PollKeeps(s, start, id, Asked(s.client.lastSequenceId));
    case Reply(id) =>
      assert PollOk(s.log, s.client.lastSequenceId, s.polls[id]);
      ReadIsSlice(s.log, s.polls[id].after, cfg.limit);
      PollKeeps(s, start, id, n.polls[id]);
    case TakeReply(id) => TakeReplyKeeps(s, start, id, cfg);
    case LoseReply(id) => LosePollKeeps(s, start, id);
    case Stop => ClientKeeps(s, start, n.client);
    case _ => SocketKeeps(s, start, a, n, cfg);
  }

  lemma {:induction false} ExecKeeps(s: System, start: nat, actions: seq<Action>, cfg: Config)
    requires Inv(s, start) && Exec(s, actions, cfg).Some?
    ensures Inv(Exec(s, actions, cfg).value, start)
    decreases |actions|
  {
    if actions != [] {
      StepKeeps(s, start, actions[0], Step(s, actions[0], cfg).value, cfg);
      ExecKeeps(Step(s, actions[0], cfg).value, start, actions[1..], cfg);
    }
  }

  // --------------------------------------------------------- over every run

  /**
   * Whatever is appended, subscribed, pumped, delivered, dropped, reconnected and polled: the events
   * handed over are exactly the log between the first cursor and the present one.
   */
  lemma DeliveredIsLogSlice(actions: seq<Action>, start: nat, cfg: Config)
    requires Exec(Initial(start), actions, cfg).Some?
    ensures var s := Exec(Initial(start), actions, cfg).value;
            && s.client.lastSequenceId == start + |s.delivered|
            && s.delivered == Slice(s.log, start, start + |s.delivered|)
            && forall i :: 0 <= i < |s.delivered| ==> s.delivered[i].sequenceId == start + i + 1
  {
    ExecKeeps(Initial(start), start, actions, cfg);
    var s := Exec(Initial(start), actions, cfg).value;
    SliceIds(s.log, start, s.client.lastSequenceId);
  }

  lemma SliceIds(log: seq<Event>, from: nat, upto: nat)
    requires Gapless(log) && from <= upto && (from == upto || upto <= |log|)
    ensures |Slice(log, from, upto)| == upto - from
    ensures forall i :: 0 <= i < upto - from ==> Slice(log, from, upto)[i].sequenceId == from + i + 1
  {
  }

  /** The fallback counter never passes the number of retries. */
  lemma {:induction false} RetriesBounded(s: System, actions: seq<Action>, cfg: Config)
    requires s.client.wsFailures <= cfg.maxRetries && Exec(s, actions, cfg).Some?
    ensures Exec(s, actions, cfg).value.client.wsFailures <= cfg.maxRetries
    decreases |actions|
  {
    if actions != [] {
      var n := Step(s, actions[0], cfg).value;
      StepRetries(s, actions[0], n, cfg);
      RetriesBounded(n, actions[1..], cfg);
    }
  }

  lemma StepRetries(s: System, a: Action, n: System, cfg: Config)
    requires s.client.wsFailures <= cfg.maxRetries && Step(s, a, cfg) == Some(n)
    ensures n.client.wsFailures <= cfg.maxRetries
  {
  }

  // ------------------------------------------------------------ after a stop

  ghost predicate Halted(s: System) {
    s.client.mode.Stopped? && s.client.socket.None?
  }

  /** No socket, no subscribe message and no poll that was not there before. */
  ghost predicate NothingNew(s: System, n: System) {
    && n.conns.Keys == s.conns.Keys && n.polls.Keys <= s.polls.Keys
    && forall id :: id in n.conns && n.conns[id].subscribe.Some? ==> n.conns[id].subscribe == s.conns[id].subscribe
  }

  lemma StoppedStep(s: System, a: Action, n: System, cfg: Config)
    requires Halted(s) && Step(s, a, cfg) == Some(n)
    ensures Halted(n) && NothingNew(s, n)
  {
  }

  /** A stopped client stays stopped, even when started again: it opens, subscribes and asks no more. */
  lemma {:induction false} StoppedForGood(s: System, actions: seq<Action>, cfg: Config)
    requires Halted(s) && Exec(s, actions, cfg).Some?
    ensures Halted(Exec(s, actions, cfg).value) && NothingNew(s, Exec(s, actions, cfg).value)
    decreases |actions|
  {
    if actions != [] {
      var n := Step(s, actions[0], cfg).value;
      StoppedStep(s, actions[0], n, cfg);
      StoppedForGood(n, actions[1..], cfg);
    }
  }

  /** The event is on its way over the socket, or lies ahead of what the server still sends there. */
  ghost predicate ComesBySocket(c: Conn, e: Event) {
    || (exists i :: 0 <= i < |c.frames| && e in c.frames[i])
    || (c.cursor.Some? && c.cursor.value < e.sequenceId)
    || (c.subscribe.Some? && c.subscribe.value < e.sequenceId)
  }

  /** The event is in the reply, or lies ahead of the question that is not answered yet. */
  ghost predicate ComesByPoll(p: Poll, e: Event) {
    match p
    case Asked(after) => after < e.sequenceId
    case Replied(_, events) => e in events
  }

  ghost predicate OnItsWay(s: System, e: Event) {
    || (exists id :: id in s.conns && ComesBySocket(s.conns[id], e))
    || (exists id :: id in s.polls && ComesByPoll(s.polls[id], e))
  }

  lemma ReadIsAhead(log: seq<Event>, after: nat, limit: nat, e: Event)
    requires Gapless(log) && e in ReadEvents(log, after, limit)
    ensures after < e.sequenceId
  {
  }

  lemma {:induction false} TakenFrom(last: nat, events: seq<Event>, e: Event)
    requires e in Taken(last, events).1
    ensures e in events
    decreases |events|
  {
    if events != [] && e in Taken(last, events[..|events| - 1]).1 {
      TakenFrom(last, events[..|events| - 1], e);
    }
  }

  /** One socket's step: nothing comes by it that did not come by it before. */
  lemma SocketSources(s: System, a: Action, n: System, id: ConnId, e: Event, cfg: Config)
    requires Halted(s) && Gapless(s.log) && Step(s, a, cfg) == Some(n)
    requires id in n.conns && ComesBySocket(n.conns[id], e)
    ensures id in s.conns && ComesBySocket(s.conns[id], e)
  {
    var c, d := s.conns[id], n.conns[id];
    if a == Pump(id) {
      if e in ReadEvents(s.log, c.cursor.value, cfg.limit) {
        ReadIsAhead(s.log, c.cursor.value, cfg.limit, e);
      } else if i :| 0 <= i < |d.frames| && e in d.frames[i] {
        assert i < |c.frames| ==> d.frames[i] == c.frames[i];
      }
    } else if a == Deliver(id) {
      if i :| 0 <= i < |d.frames| && e in d.frames[i] {
        assert d.frames[i] == c.frames[i + 1];
      }
    } else if a.Drop? && a.id == id {
      if i :| 0 <= i < |d.frames| && e in d.frames[i] {
        assert d.frames[i] == c.frames[i];
      }
    }
  }

  lemma PollSources(s: System, a: Action, n: System, id: nat, e: Event, cfg: Config)
    requires Halted(s) && Gapless(s.log) && Step(s, a, cfg) == Some(n)
    requires id in n.polls && ComesByPoll(n.polls[id], e)
    ensures id in s.polls && ComesByPoll(s.polls[id], e)
  {
    if a == Reply(id) {
      ReadIsAhead(s.log, s.polls[id].after, cfg.limit, e);
    }
  }

  lemma SourcesStay(s: System, a: Action, n: System, e: Event, cfg: Config)
    requires Halted(s) && Gapless(s.log) && Step(s, a, cfg) == Some(n) && OnItsWay(n, e)
    ensures OnItsWay(s, e)
  {
    if id :| id in n.conns && ComesBySocket(n.conns[id], e) {
      SocketSources(s, a, n, id, e, cfg);
    } else {
      var id :| id in n.polls && ComesByPoll(n.polls[id], e);
      PollSources(s, a, n, id, e, cfg);
    }
  }

  /** What a step hands over was on its way. */
  lemma StepDelivers(s: System, a: Action, n: System, cfg: Config)
    requires Step(s, a, cfg) == Some(n)
    ensures s.delivered <= n.delivered
    ensures forall e :: e in n.delivered[|s.delivered|..] ==> OnItsWay(s, e)
  {
    forall e | e in n.delivered[|s.delivered|..] ensures OnItsWay(s, e) {
      match a
      case Deliver(id) =>
        TakenFrom(s.client.lastSequenceId, s.conns[id].frames[0], e);
        assert ComesBySocket(s.conns[id], e);
      case TakeReply(id) =>
        TakenFrom(s.client.lastSequenceId, s.polls[id].events, e);
        assert ComesByPoll(s.polls[id], e);
      case _ =>
    }
  }

  /**
   * After a stop the client still hands events over, but only these: what was in flight to it at
   * the stop, or comes over a socket that was still served or a poll that was still unanswered.
   */
  lemma {:induction false} DeliveredAfterStop(s: System, actions: seq<Action>, cfg: Config)
    requires Halted(s) && Gapless(s.log) && Exec(s, actions, cfg).Some?
    ensures s.delivered <= Exec(s, actions, cfg).value.delivered
    ensures forall e :: e in Exec(s, actions, cfg).value.delivered[|s.delivered|..] ==> OnItsWay(s, e)
    decreases |actions|
  {
    if actions != [] {
      var n := Step(s, actions[0], cfg).value;
      StoppedStep(s, actions[0], n, cfg);
      StepDelivers(s, actions[0], n, cfg);
      DeliveredAfterStop(n, actions[1..], cfg);
      var final := Exec(n, actions[1..], cfg).value;
      forall e | e in final.delivered[|s.delivered|..] ensures OnItsWay(s, e) {
        assert final.delivered[|s.delivered|..] == n.delivered[|s.delivered|..] + final.delivered[|n.delivered|..];
        if e in final.delivered[|n.delivered|..] {
          SourcesStay(s, actions[0], n, e, cfg);
        }
      }
    }
  }

  // ------------------------------------------------------------ the fallback

  /** Connection attempts that all fail end in polling after exactly the retries that are left. */
  function AfterAttempts(c: Client, ids: seq<ConnId>, maxRetries: nat): Client {
    if ids == [] then c
    else Failed(ConnectWebSocket(AfterAttempts(c, ids[..|ids| - 1], maxRetries), ids[|ids| - 1]), ids[|ids| - 1],
                maxRetries)
  }

  lemma {:induction false} FallsBackToPolling(c: Client, ids: seq<ConnId>, maxRetries: nat)
    requires !c.mode.Stopped? && c.wsFailures <= maxRetries && 0 < |ids| <= maxRetries - c.wsFailures + 1
    ensures var after := AfterAttempts(c, ids, maxRetries);
            && after.lastSequenceId == c.lastSequenceId
            && (|ids| <= maxRetries - c.wsFailures ==>
                after.mode.BackingOff? && after.wsFailures == c.wsFailures + |ids|)
            && (|ids| == maxRetries - c.wsFailures + 1 ==> after.mode.Polling?)
    decreases |ids|
  {
    if |ids| > 1 {
      FallsBackToPolling(c, ids[..|ids| - 1], maxRetries);
    } else {
      assert ids[..0] == [];
    }
  }

  /**
   * Only the current socket counts. Its opening starts the stream and its failure ends it; those of a
   * replaced one, or of any after a stop, leave the mode alone.
   */
  lemma ClientReacts(c: Client, id: ConnId, maxRetries: nat)
    ensures Opened(c, id).mode == if c.socket == Some(id) then Streaming else c.mode
    ensures Opened(c, id).socket == c.socket && Opened(c, id).lastSequenceId == c.lastSequenceId
    ensures c.mode.Stopped? || c.socket != Some(id) ==> Failed(c, id, maxRetries) == c
    ensures !c.mode.Stopped? && c.socket == Some(id) ==>
            && Failed(c, id, maxRetries).socket.None? && Failed(c, id, maxRetries).lastSequenceId == c.lastSequenceId
            && if c.wsFailures < maxRetries then
                 Failed(c, id, maxRetries).mode.BackingOff? && Failed(c, id, maxRetries).wsFailures == c.wsFailures + 1
               else Failed(c, id, maxRetries).mode.Polling?
  {
  }

  /** An attempt that cannot even be made counts like one that fails. */
  lemma RefusedCounts(s: System, cfg: Config)
    requires s.client.mode.BackingOff? || s.client.mode.Idle?
    ensures var n := Step(s, RefusedConnect, cfg);
            && n.Some? && n.value.conns == s.conns && n.value.delivered == s.delivered
            && if s.client.wsFailures < cfg.maxRetries then
                 n.value.client.mode.BackingOff? && n.value.client.wsFailures == s.client.wsFailures + 1
               else n.value.client.mode.Polling?
  {
  }

  /** Any socket that opens restores the full number of retries. */
  lemma OpenRestoresRetries(c: Client, id: ConnId, ids: seq<ConnId>, maxRetries: nat)
    requires !c.mode.Stopped? && 0 < |ids| <= maxRetries + 1
    ensures var after := AfterAttempts(Opened(c, id), ids, maxRetries);
            && after.lastSequenceId == c.lastSequenceId
            && (|ids| <= maxRetries ==> after.mode.BackingOff? && after.wsFailures == |ids|)
            && (|ids| == maxRetries + 1 ==> after.mode.Polling?)
  {
    FallsBackToPolling(Opened(c, id), ids, maxRetries);
  }

  /** A stop halts the client and changes nothing else. */
  lemma StopHalts(s: System, cfg: Config)
    ensures var n := Step(s, Stop, cfg);
            && n.Some? && Halted(n.value) && n.value.log == s.log && n.value.delivered == s.delivered
            && n.value.conns == s.conns && n.value.polls == s.polls
            && n.value.client.lastSequenceId == s.client.lastSequenceId
  {
  }

  /** When a socket dies, any part of what is in flight may still arrive, from the front; nothing new is sent on it. */
  lemma DropKeepsFront(s: System, id: ConnId, kept: nat, cfg: Config)
    requires id in s.conns && kept <= |s.conns[id].frames|
    ensures var n := Step(s, Drop(id, kept), cfg);
            && n.Some? && id in n.value.conns && n.value.conns[id].frames == s.conns[id].frames[..kept]
            && n.value.conns[id].cursor.None? && n.value.conns[id].subscribe.None?
            && n.value.client == s.client && n.value.delivered == s.delivered
  {
  }

  function Resume(id: ConnId): seq<Action> { [Reconnect(id)] + ([Open(id)] + ([Subscribe(id)] + ([Pump(id)] + []))) }

  lemma ExecCons(s: System, a: Action, rest: seq<Action>, cfg: Config)
    ensures Exec(s, [a] + rest, cfg) == match Step(s, a, cfg) case None => None case Some(n) => Exec(n, rest, cfg)
  {
    assert ([a] + rest)[1..] == rest;
  }

  /**
   * A new socket goes on where the client stopped: the first frame on it is the next events after the
   * client's cursor, as many as the limit allows, and none if there are none.
   */
  lemma ResumesAtCursor(s: System, id: ConnId, cfg: Config, last: nat, upto: nat)
    requires s.client.mode.BackingOff? && id !in s.conns && last == s.client.lastSequenceId
    requires upto == if last >= |s.log| then last else if last + cfg.limit < |s.log| then last + cfg.limit else |s.log|
    ensures var n := Exec(s, Resume(id), cfg);
            && n.Some? && n.value.log == s.log && n.value.delivered == s.delivered
            && n.value.client == s.client.(mode := Streaming, wsFailures := 0, socket := Some(id))
            && id in n.value.conns && n.value.conns[id].cursor == Some(upto)
            && n.value.conns[id].frames == if last < upto then [s.log[last..upto]] else []
  {
    var s1 := s.(client := ConnectWebSocket(s.client, id), conns := s.conns[id := NoConn]);
    var s2 := s1.(client := Opened(s1.client, id), conns := s.conns[id := NoConn.(subscribe := Some(last))]);
    var s3 := s2.(conns := s.conns[id := Conn(None, Some(last), last, [])]);
    assert s1.conns[id := NoConn.(subscribe := Some(last))] == s2.conns;
    assert s2.conns[id := Conn(None, Some(last), last, [])] == s3.conns;
    ExecCons(s, Reconnect(id), [Open(id)] + ([Subscribe(id)] + ([Pump(id)] + [])), cfg);
    ExecCons(s1, Open(id), [Subscribe(id)] + ([Pump(id)] + []), cfg);
    ExecCons(s2, Subscribe(id), [Pump(id)] + [], cfg);
    ExecCons(s3, Pump(id), [], cfg);
    FirstFrame(s3, id, cfg, last, upto);
  }

  lemma FirstFrame(s: System, id: ConnId, cfg: Config, last: nat, upto: nat)
    requires id in s.conns && s.conns[id] == Conn(None, Some(last), last, [])
    requires upto == if last >= |s.log| then last else if last + cfg.limit < |s.log| then last + cfg.limit else |s.log|
    ensures PumpConn(s, id, cfg.limit).cursor == Some(upto)
    ensures PumpConn(s, id, cfg.limit).frames == if last < upto then [s.log[last..upto]] else []
  {
    if last < upto {
      assert ReadEvents(s.log, last, cfg.limit) == s.log[last..upto];
    }
  }

  // ------------------------------------------------------------------ progress

  /** Nothing is appended, and the socket is not dropped; anything else may happen. */
  predicate Undisturbed(actions: seq<Action>, id: ConnId) {
    forall a :: a in actions ==> !a.Append? && !(a.Drop? && a.id == id)
  }

  function PumpCount(actions: seq<Action>, id: ConnId): nat {
    if actions == [] then 0 else (if actions[0] == Pump(id) then 1 else 0) + PumpCount(actions[1..], id)
  }

  /** Where a cursor is after some bounded rounds over a fixed log. */
  function Reached(cursor: nat, pumps: nat, limit: nat, length: nat): nat {
    if cursor >= length then cursor
    else if cursor + pumps * limit >= length then length
    else cursor + pumps * limit
  }

  lemma ReachedNext(cursor: nat, pumps: nat, limit: nat, length: nat)
    ensures Reached(Reached(cursor, 1, limit, length), pumps, limit, length)
            == Reached(cursor, pumps + 1, limit, length)
  {
    assert (pumps + 1) * limit == pumps * limit + limit;
  }

  /** Only the socket's own pumps move its cursor, each as far as its limit allows. */
  lemma CursorStep(s: System, a: Action, n: System, id: ConnId, cfg: Config)
    requires id in s.conns && s.conns[id].cursor.Some? && Step(s, a, cfg) == Some(n)
    requires !a.Append? && !(a.Drop? && a.id == id)
    ensures n.log == s.log && id in n.conns
    ensures n.conns[id].cursor
            == Some(Reached(s.conns[id].cursor.value, if a == Pump(id) then 1 else 0, cfg.limit, |s.log|))
  {
  }

  lemma {:induction false} CursorAfter(s: System, actions: seq<Action>, id: ConnId, cfg: Config)
    requires id in s.conns && s.conns[id].cursor.Some? && Undisturbed(actions, id) && Exec(s, actions, cfg).Some?
    ensures var n := Exec(s, actions, cfg).value;
            && n.log == s.log && id in n.conns
            && n.conns[id].cursor == Some(Reached(s.conns[id].cursor.value, PumpCount(actions, id), cfg.limit, |s.log|))
    decreases |actions|
  {
    if actions != [] {
      var a, n := actions[0], Step(s, actions[0], cfg).value;
      assert a in actions && forall x :: x in actions[1..] ==> x in actions;
      CursorStep(s, a, n, id, cfg);
      CursorAfter(n, actions[1..], id, cfg);
      ReachedNext(s.conns[id].cursor.value, PumpCount(actions[1..], id), cfg.limit, |s.log|);
    }
  }

  /**
   * On every run that neither appends nor drops the socket, whatever other sockets, polls and timers
   * do: once the socket was pumped often enough and its frames are delivered, the client has the whole log.
   */
  lemma PumpsReachTheEnd(s: System, start: nat, actions: seq<Action>, id: ConnId, cfg: Config)
    requires Inv(s, start) && start <= |s.log| && id in s.conns && s.conns[id].cursor.Some?
    requires Undisturbed(actions, id) && Exec(s, actions, cfg).Some?
    requires s.conns[id].cursor.value + PumpCount(actions, id) * cfg.limit >= |s.log|
    requires id in Exec(s, actions, cfg).value.conns && Exec(s, actions, cfg).value.conns[id].frames == []
    ensures Exec(s, actions, cfg).value.client.lastSequenceId == |s.log|
    ensures Exec(s, actions, cfg).value.delivered == s.log[start..]
  {
    CursorAfter(s, actions, id, cfg);
    ExecKeeps(s, start, actions, cfg);
    var n := Exec(s, actions, cfg).value;
    assert ConnOk(n.log, n.client.lastSequenceId, n.conns[id]);
    assert n.log[start..|n.log|] == n.log[start..];
  }

  function Pumps(k: nat, id: ConnId): seq<Action> {
    if k == 0 then [] else [Pump(id)] + Pumps(k - 1, id)
  }

  function Deliveries(k: nat, id: ConnId): seq<Action> {
    if k == 0 then [] else [Deliver(id)] + Deliveries(k - 1, id)
  }

  lemma {:induction false} PumpsRun(s: System, k: nat, id: ConnId, cfg: Config)
    requires id in s.conns && s.conns[id].cursor.Some?
    ensures Exec(s, Pumps(k, id), cfg).Some? && id in Exec(s, Pumps(k, id), cfg).value.conns
    decreases k
  {
    if k > 0 {
      assert Pumps(k, id)[1..] == Pumps(k - 1, id);
      PumpsRun(Step(s, Pump(id), cfg).value, k - 1, id, cfg);
    }
  }

  lemma {:induction false} DeliveriesDrain(s: System, id: ConnId, cfg: Config)
    requires id in s.conns
    ensures var run := Exec(s, Deliveries(|s.conns[id].frames|, id), cfg);
            run.Some? && id in run.value.conns && run.value.conns[id].frames == []
    decreases |s.conns[id].frames|
  {
    var k := |s.conns[id].frames|;
    if k > 0 {
      assert Deliveries(k, id)[1..] == Deliveries(k - 1, id);
      DeliveriesDrain(Step(s, Deliver(id), cfg).value, id, cfg);
    }
  }

  lemma {:induction false} PumpsCounted(k: nat, m: nat, id: ConnId)
    ensures PumpCount(Pumps(k, id) + Deliveries(m, id), id) == k
    decreases k, m
  {
    var run := Pumps(k, id) + Deliveries(m, id);
    if k > 0 {
      assert run[1..] == Pumps(k - 1, id) + Deliveries(m, id);
      PumpsCounted(k - 1, m, id);
    } else if m > 0 {
      assert run[1..] == Pumps(0, id) + Deliveries(m - 1, id);
      PumpsCounted(0, m - 1, id);
    }
  }

  lemma {:induction false} PumpsOnly(k: nat, id: ConnId)
    ensures forall a :: a in Pumps(k, id) ==> a == Pump(id)
  {
    if k > 0 {
      PumpsOnly(k - 1, id);
    }
  }

  lemma {:induction false} DeliveriesOnly(k: nat, id: ConnId)
    ensures forall a :: a in Deliveries(k, id) ==> a == Deliver(id)
  {
    if k > 0 {
      DeliveriesOnly(k - 1, id);
    }
  }

  /** Such a run always exists: enough pumps, then the deliveries of what is in flight. */
  lemma EnoughPumpsSuffice(s: System, start: nat, k: nat, id: ConnId, cfg: Config)
    requires Inv(s, start) && start <= |s.log| && id in s.conns && s.conns[id].cursor.Some?
    requires s.conns[id].cursor.value + k * cfg.limit >= |s.log|
    ensures exists m: nat :: var run := Exec(s, Pumps(k, id) + Deliveries(m, id), cfg);
              run.Some? && run.value.client.lastSequenceId == |s.log| && run.value.delivered == s.log[start..]
  {
    PumpsRun(s, k, id, cfg);
    var pumped := Exec(s, Pumps(k, id), cfg).value;
    var m := |pumped.conns[id].frames|;
    DeliveriesDrain(pumped, id, cfg);
    ExecAppend(s, Pumps(k, id), Deliveries(m, id), cfg);
    PumpsCounted(k, m, id);
    PumpsOnly(k, id);
    DeliveriesOnly(m, id);
    PumpsReachTheEnd(s, start, Pumps(k, id) + Deliveries(m, id), id, cfg);
  }

  /** One answered poll moves the cursor as far as its limit allows. */
  lemma PollAdvances(s: System, start: nat, id: nat, cfg: Config)
    requires Inv(s, start) && s.client.mode.Polling? && id !in s.polls && cfg.limit > 0
    ensures var n := Exec(s, [Ask(id), Reply(id), TakeReply(id)], cfg);
            && n.Some? && n.value.log == s.log && n.value.client.mode.Polling? && id !in n.value.polls
            && n.value.client.lastSequenceId == Reached(s.client.lastSequenceId, 1, cfg.limit, |s.log|)
  {
    var last := s.client.lastSequenceId;
    var s1 := s.(polls := s.polls[id := Asked(last)]);
    var events := ReadEvents(s.log, last, cfg.limit);
    var s2 := s1.(polls := s1.polls[id := Replied(last, events)]);
    ReadIsSlice(s.log, last, cfg.limit);
    HandleKeeps(s2, start, last, events);
    var s3 := Handle(s2, events).(polls := s2.polls - {id});
    ExecThree(s, Ask(id), Reply(id), TakeReply(id), cfg, s1, s2, s3);
  }

  lemma ExecThree(s: System, a: Action, b: Action, c: Action, cfg: Config, s1: System, s2: System, s3: System)
    requires Step(s, a, cfg) == Some(s1) && Step(s1, b, cfg) == Some(s2) && Step(s2, c, cfg) == Some(s3)
    ensures Exec(s, [a, b, c], cfg) == Some(s3)
  {
    assert [a, b, c][1..] == [b, c] && [b, c][1..] == [c] && [c][1..] == [];
    assert Exec(s2, [c], cfg) == Some(s3);
    assert Exec(s1, [b, c], cfg) == Some(s3);
  }

  function Polls(n: nat, id: nat): seq<Action> {
    if n == 0 then [] else [Ask(id), Reply(id), TakeReply(id)] + Polls(n - 1, id)
  }

  lemma {:induction false} ExecAppend(s: System, a: seq<Action>, b: seq<Action>, cfg: Config)
    requires Exec(s, a, cfg).Some?
    ensures Exec(s, a + b, cfg) == Exec(Exec(s, a, cfg).value, b, cfg)
    decreases |a|
  {
    if a == [] {
      assert a + b == b;
    } else {
      assert (a + b)[1..] == a[1..] + b;
      ExecAppend(Step(s, a[0], cfg).value, a[1..], b, cfg);
    }
  }

  /** In the polling fallback, enough answered polls also reach the end of a log that stands still. */
  lemma {:induction false} PollsReachTheEnd(s: System, start: nat, n: nat, id: nat, cfg: Config)
    requires Inv(s, start) && start <= |s.log| && s.client.mode.Polling? && id !in s.polls && cfg.limit > 0
    requires s.client.lastSequenceId + n * cfg.limit >= |s.log|
    ensures Exec(s, Polls(n, id), cfg).Some?
    ensures Exec(s, Polls(n, id), cfg).value.client.lastSequenceId == |s.log|
    ensures Exec(s, Polls(n, id), cfg).value.delivered == s.log[start..]
    decreases n
  {
    if n == 0 {
      assert s.log[start..|s.log|] == s.log[start..];
    } else {
      var next := PollRound(s, start, n - 1, id, cfg);
      EnoughLeft(s.client.lastSequenceId, n, cfg.limit, |s.log|);
      PollsReachTheEnd(next, start, n - 1, id, cfg);
    }
  }

  lemma PollRound(s: System, start: nat, more: nat, id: nat, cfg: Config) returns (next: System)
    requires Inv(s, start) && s.client.mode.Polling? && id !in s.polls && cfg.limit > 0
    ensures Inv(next, start) && next.client.mode.Polling? && id !in next.polls && next.log == s.log
    ensures next.client.lastSequenceId == Reached(s.client.lastSequenceId, 1, cfg.limit, |s.log|)
    ensures Exec(s, Polls(more + 1, id), cfg) == Exec(next, Polls(more, id), cfg)
  {
    PollAdvances(s, start, id, cfg);
    var round := [Ask(id), Reply(id), TakeReply(id)];
    next := Exec(s, round, cfg).value;
    ExecKeeps(s, start, round, cfg);
    ExecAppend(s, round, Polls(more, id), cfg);
  }

  lemma EnoughLeft(cursor: nat, n: nat, limit: nat, length: nat)
    requires n > 0 && cursor + n * limit >= length
    ensures Reached(cursor, 1, limit, length) + (n - 1) * limit >= length
  {
    assert n * limit == (n - 1) * limit + limit;
  }
}
