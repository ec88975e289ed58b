/**
 * The FTP server of src/ftp.c: the client table, slot lookup and release, the
 * port check of ftp_srv_open, and one iteration of the event loop
 * (ftp_srv_start).
 *
 * System calls are not modelled; what they return is an input: the clock
 * reading, the descriptors select reported readable, the descriptor accept
 * returned, the byte count write returned for the greeting, and what recv
 * returned for each slot.  The watched descriptor set is a set of integers.
 */
module FtpServer {
  import opened Wrappers
  import opened Fsm
  import opened Time
  import opened FtpProto

  /** BUF_SIZE: the receive buffer holds BUF_SIZE bytes and a terminator. */
  const BUF_SIZE: nat := 4096

  /** The length ftp_srv_start passes to recv: `sizeof data`, that is BUF_SIZE + 1. */
  const RECV_LEN_AS_WRITTEN: nat := BUF_SIZE + 1

  /** The length that leaves the last cell of the buffer for the terminator. */
  const RECV_LEN: nat := BUF_SIZE

  const EINVAL: int := 22

  /** One client slot seen as a value: its socket (0 marks a free slot), its FSM state and its deadline. */
  datatype Slot = Slot(socket: int, state: int, timeout: TimeVal)

  /** An occupied slot's FSM is in one of the four protocol states. */
  predicate SlotOk(c: Slot)
  {
    c.socket != 0 ==> IsState(c.state)
  }

  predicate SlotsOk(slots: seq<Slot>)
  {
    forall j :: 0 <= j < |slots| ==> SlotOk(slots[j])
  }

  /** What the system calls of one loop iteration give back. */
  datatype Inputs = Inputs(
    clock: Option<TimeVal>,  // gettimeofday; None when it fails
    ready: set<int>,         // the descriptors select reported readable
    accepted: int,           // accept's result
    written: int,            // write's result for the greeting
    recvLen: seq<int>)       // recv's result, by slot index

  /** Inputs as the code admits them: recv may return up to the `sizeof data` it was asked for. */
  predicate InputsOkAsWritten(io: Inputs, n: nat)
  {
    |io.recvLen| == n && forall j :: 0 <= j < n ==> io.recvLen[j] <= RECV_LEN_AS_WRITTEN
  }

  /** Inputs that fit a table of n slots; recv never returns more than it was asked for. */
  predicate InputsOk(io: Inputs, n: nat)
  {
    |io.recvLen| == n && forall j :: 0 <= j < n ==> io.recvLen[j] <= RECV_LEN
  }

  // ---------------------------------------------------------------------------
  // cli_find

  /** The lowest slot from `i` on whose socket is `fd`, or None (NULL). */
  function FindSlot(slots: seq<Slot>, fd: int, i: nat): (r: Option<nat>)
    requires i <= |slots|
    ensures r.Some? ==> i <= r.value < |slots| && slots[r.value].socket == fd
    ensures r.Some? ==> forall j :: i <= j < r.value ==> slots[j].socket != fd
    ensures r.None? <==> forall j :: i <= j < |slots| ==> slots[j].socket != fd
    decreases |slots| - i
  {
    if i == |slots| then None
    else if slots[i].socket == fd then Some(i)
    else FindSlot(slots, fd, i + 1)
  }

  // ---------------------------------------------------------------------------
  // The port check and outcome of ftp_srv_open

  /** How ftp_srv_open ends: rejected before any socket exists, aborted after one, or listening. */
  datatype OpenResult =
    | Rejected(errno: int)
    | Aborted(closed: bool)
    | Listening(sock: int, rfds: set<int>)

  /**
   * ftp_srv_open with the results of socket (`sock`) and of the three set-up
   * calls (`setupOk`: setsockopt, bind and listen all succeeded).
   */
  function SrvOpen(port: int, sock: int, setupOk: bool, rfds: set<int>): (r: OpenResult)
    ensures r.Rejected? <==> port <= 1024 || port > 9999
    ensures r.Rejected? ==> r.errno == EINVAL
    ensures r.Listening? <==> 1024 < port <= 9999 && sock >= 0 && setupOk
    ensures r.Listening? ==> r.sock == sock && sock in r.rfds && r.rfds - {sock} == rfds - {sock}
    ensures r.Aborted? ==> (r.closed <==> sock >= 0)
  {
    if port <= 1024 || port > 9999 then Rejected(EINVAL)
    else if sock < 0 then Aborted(false)
    else if !setupOk then Aborted(true)
    else Listening(sock, rfds + {sock})
  }

  // ---------------------------------------------------------------------------
  // ftp_srv_start as a function of the table and the inputs

  /** The accept block: the result so far, the table, the watched set, and whether the call returned. */
  datatype Phase = Phase(err: int, slots: seq<Slot>, rfds: set<int>, returned: bool)

  /** The effect of one slot-loop pass on the running variables of the loop. */
  datatype Visit = Visit(slot: Slot, rfds: set<int>, err: int, wake: Option<TimeVal>, stop: bool)

  /** The result of one iteration; `wake` is the remembered deadline, `wait` the timeout written out. */
  datatype Step = Step(err: int, slots: seq<Slot>, rfds: set<int>, wake: Option<TimeVal>, wait: TimeVal)

  /** The next wait: the remembered deadline minus now, or all zero. */
  function WaitFor(wake: Option<TimeVal>, now: TimeVal): (wait: TimeVal)
  {
    if wake.Some? then Sub(wake.value, now) else ZERO
  }

  /**
   * The listener block of ftp_srv_start.  A free slot gets the new socket, is
   * watched, has its FSM re-initialised at S_IDLE and receives E_OPEN, whose
   * on_open action returns write's result; its deadline is left as it was.
   */
  function Accept(lsock: int, slots: seq<Slot>, rfds: set<int>, io: Inputs): (p: Phase)
    requires SlotsOk(slots)
    ensures |p.slots| == |slots| && SlotsOk(p.slots)
  {
    if lsock !in io.ready then Phase(0, slots, rfds, false)
    else if io.accepted < 0 then Phase(-1, slots, rfds, true)
    else match FindSlot(slots, 0, 0)
      case None => Phase(io.written, slots, rfds, io.written < 0)
      case Some(k) =>
        OpenFromIdle(io.written);
        var o := Dispatch(Stt[S_IDLE], 0, E_OPEN, None, [io.written], 0);
        var code := o.code;
        var slots' := slots[k := Slot(io.accepted, Stt[S_IDLE][o.entry].next, slots[k].timeout)];
        Phase(code, slots', rfds + {io.accepted}, code != 0)
  }

  /** The receive half of a slot pass, for an occupied slot. */
  function Receive(c: Slot, rfds: set<int>, err: int, wake: Option<TimeVal>, ready: set<int>, rd: int): (v: Visit)
    requires c.socket != 0 && IsState(c.state)
    ensures SlotOk(v.slot)
  {
    if c.socket !in ready then Visit(c, rfds, err, wake, false)
    else if rd < 0 then Visit(c.(socket := 0), rfds - {c.socket}, err, wake, false)
    else
      QuietDispatch(c.state, E_RECV, None, []);
      var o := Dispatch(Stt[c.state], 0, E_RECV, None, [], 0);
      var code := o.code;
      var c' := c.(state := Stt[c.state][o.entry].next);
      Visit(c', rfds, code, wake, code != 0)
  }

  /**
   * One pass of the slot loop: skip a free slot; fire an armed deadline that
   * is earlier than now (zero it and trigger E_TIMEOUT), or else remember it
   * when it is not earlier than the one remembered; then receive.
   */
  function VisitSlot(c: Slot, rfds: set<int>, err: int, wake: Option<TimeVal>, now: TimeVal, ready: set<int>, rd: int): (v: Visit)
    requires SlotOk(c)
    ensures SlotOk(v.slot)
  {
    if c.socket == 0 then Visit(c, rfds, err, wake, false)
    else if IsSet(c.timeout) && !GreaterEq(c.timeout, now) then
      QuietDispatch(c.state, E_TIMEOUT, None, []);
      var o := Dispatch(Stt[c.state], 0, E_TIMEOUT, None, [], 0);
      var code := o.code;
      var c' := Slot(c.socket, Stt[c.state][o.entry].next, ZERO);
      if code != 0 then Visit(c', rfds, code, wake, true)
      else Receive(c', rfds, code, wake, ready, rd)
    else
      var wake' := if IsSet(c.timeout) && (wake.None? || !Less(c.timeout, wake.value)) then Some(c.timeout) else wake;
      Receive(c, rfds, err, wake', ready, rd)
  }

  /** The slot loop from slot i on; a nonzero trigger result ends it early. */
  function Loop(slots: seq<Slot>, rfds: set<int>, i: nat, err: int, wake: Option<TimeVal>, now: TimeVal, io: Inputs): (s: Step)
    requires i <= |slots| && |io.recvLen| == |slots| && SlotsOk(slots)
    ensures |s.slots| == |slots| && SlotsOk(s.slots)
    decreases |slots| - i
  {
    if i == |slots| then Step(err, slots, rfds, wake, WaitFor(wake, now))
    else
      var v := VisitSlot(slots[i], rfds, err, wake, now, io.ready, io.recvLen[i]);
      var slots' := slots[i := v.slot];
      if v.stop then Step(v.err, slots', v.rfds, v.wake, WaitFor(v.wake, now))
      else Loop(slots', v.rfds, i + 1, v.err, v.wake, now, io)
  }

  /** One iteration of ftp_srv_start on a table `slots`, listener `lsock` and watched set `rfds`. */
  function Iteration(lsock: int, slots: seq<Slot>, rfds: set<int>, io: Inputs): (s: Step)
    requires SlotsOk(slots) && |io.recvLen| == |slots|
    ensures |s.slots| == |slots| && SlotsOk(s.slots)
  {
    if io.clock.None? then Step(-1, slots, rfds, None, ZERO)
    else
      var p := Accept(lsock, slots, rfds, io);
      if p.returned then Step(p.err, p.slots, p.rfds, None, ZERO)
      else Loop(p.slots, p.rfds, 0, p.err, None, io.clock.value, io)
  }

  // ---------------------------------------------------------------------------
  // Reference semantics of one slot, and what the loop does to the whole table

  /** An armed deadline earlier than now. */
  predicate Expired(t: TimeVal, now: TimeVal)
  {
    IsSet(t) && Less(t, now)
  }

  /** An occupied slot whose armed deadline is not earlier than now: it is a wake-up candidate. */
  predicate Pending(c: Slot, now: TimeVal)
  {
    c.socket != 0 && IsSet(c.timeout) && !Less(c.timeout, now)
  }

  /** The slot receives a negative recv result and is closed. */
  predicate Closes(c: Slot, ready: set<int>, rd: int)
  {
    c.socket != 0 && c.socket in ready && rd < 0
  }

  /** Some trigger runs for the slot: its deadline fires, or data (possibly none) was received. */
  predicate Triggers(c: Slot, now: TimeVal, ready: set<int>, rd: int)
  {
    c.socket != 0 && (Expired(c.timeout, now) || (c.socket in ready && rd >= 0))
  }

  /**
   * Reference definition of what one iteration does to one occupied slot: an
   * expired deadline is disarmed and the session takes its timeout
   * transition; then a negative recv result frees the slot and any other
   * result takes the receive transition.
   */
  function SlotAfter(c: Slot, now: TimeVal, ready: set<int>, rd: int): (c': Slot)
  {
    if c.socket == 0 then c
    else
      var c1 := if Expired(c.timeout, now) then Slot(c.socket, Next(c.state, E_TIMEOUT), ZERO) else c;
      if c1.socket !in ready then c1
      else if rd < 0 then c1.(socket := 0)
      else c1.(state := Next(c1.state, E_RECV))
  }

  /** The sockets the loop closes from slot i on. */
  function ClosedFrom(slots: seq<Slot>, i: nat, ready: set<int>, recvLen: seq<int>): (closed: set<int>)
    requires |recvLen| == |slots|
  {
    set j | i <= j < |slots| && Closes(slots[j], ready, recvLen[j]) :: slots[j].socket
  }

  /** One unfolding of the slot loop: the pass over slot i, then the rest. */
  lemma LoopStep(slots: seq<Slot>, rfds: set<int>, i: nat, err: int, wake: Option<TimeVal>, now: TimeVal, io: Inputs, v: Visit)
    requires i < |slots| && |io.recvLen| == |slots| && SlotsOk(slots)
    requires v == VisitSlot(slots[i], rfds, err, wake, now, io.ready, io.recvLen[i])
    ensures SlotsOk(slots[i := v.slot])
    ensures Loop(slots, rfds, i, err, wake, now, io) ==
      if v.stop then Step(v.err, slots[i := v.slot], v.rfds, v.wake, WaitFor(v.wake, now))
      else Loop(slots[i := v.slot], v.rfds, i + 1, v.err, v.wake, now, io)
  {
  }

  /** No slot pass stops the loop: with this table every trigger from the loop returns 0. */
  lemma VisitNeverStops(c: Slot, rfds: set<int>, err: int, wake: Option<TimeVal>, now: TimeVal, ready: set<int>, rd: int)
    requires SlotOk(c)
    ensures var v := VisitSlot(c, rfds, err, wake, now, ready, rd);
      !v.stop &&
      v.slot == SlotAfter(c, now, ready, rd) &&
      v.rfds == (if Closes(c, ready, rd) then rfds - {c.socket} else rfds) &&
      v.err == (if Triggers(c, now, ready, rd) then 0 else err) &&
      v.wake == (if Pending(c, now) && (wake.None? || !Less(c.timeout, wake.value)) then Some(c.timeout) else wake)
  {
    if c.socket != 0 {
      QuietDispatch(c.state, E_TIMEOUT, None, []);
      var s1 := if Expired(c.timeout, now) then Next(c.state, E_TIMEOUT) else c.state;
      QuietDispatch(s1, E_RECV, None, []);
    }
  }

  /**
   * The loop from slot i on runs to the end and does to each slot what
   * SlotAfter says, closes exactly the sockets ClosedFrom names, and leaves
   * err at 0 when some trigger ran, unchanged otherwise.
   */
  lemma {:induction false} LoopPointwise(slots: seq<Slot>, rfds: set<int>, i: nat, err: int, wake: Option<TimeVal>, now: TimeVal, io: Inputs)
    requires i <= |slots| && |io.recvLen| == |slots| && SlotsOk(slots)
    ensures var s := Loop(slots, rfds, i, err, wake, now, io);
      (forall j :: 0 <= j < i ==> s.slots[j] == slots[j]) &&
      (forall j :: i <= j < |slots| ==> s.slots[j] == SlotAfter(slots[j], now, io.ready, io.recvLen[j])) &&
      s.rfds == rfds - ClosedFrom(slots, i, io.ready, io.recvLen) &&
      s.err == (if exists j :: i <= j < |slots| && Triggers(slots[j], now, io.ready, io.recvLen[j]) then 0 else err) &&
      s.wait == WaitFor(s.wake, now)
    decreases |slots| - i
  {
    if i < |slots| {
      var v := VisitSlot(slots[i], rfds, err, wake, now, io.ready, io.recvLen[i]);
      VisitNeverStops(slots[i], rfds, err, wake, now, io.ready, io.recvLen[i]);
      var slots' := slots[i := v.slot];
      LoopPointwise(slots', v.rfds, i + 1, v.err, v.wake, now, io);
      var s := Loop(slots', v.rfds, i + 1, v.err, v.wake, now, io);
      assert ClosedFrom(slots', i + 1, io.ready, io.recvLen) == ClosedFrom(slots, i + 1, io.ready, io.recvLen);
      var here := if Closes(slots[i], io.ready, io.recvLen[i]) then {slots[i].socket} else {};
      assert ClosedFrom(slots, i, io.ready, io.recvLen) == here + ClosedFrom(slots, i + 1, io.ready, io.recvLen);
      if Triggers(slots[i], now, io.ready, io.recvLen[i]) {
        assert s.err == 0;
      } else if exists j :: i + 1 <= j < |slots| && Triggers(slots[j], now, io.ready, io.recvLen[j]) {
        assert s.err == 0;
      } else {
        assert !exists j :: i <= j < |slots| && Triggers(slots[j], now, io.ready, io.recvLen[j]);
      }
    }
  }

  /**
   * The deadline the loop remembers is the LATEST pending one (the comparison
   * keeps a deadline whenever it is not earlier than the remembered one): it
   * is None exactly when nothing is pending, it is one of the pending
   * deadlines (or the one remembered on entry), and no pending deadline is
   * later than it.
   */
  lemma {:induction false} WakeIsLatest(slots: seq<Slot>, rfds: set<int>, i: nat, err: int, wake: Option<TimeVal>, now: TimeVal, io: Inputs)
    requires i <= |slots| && |io.recvLen| == |slots| && SlotsOk(slots)
    ensures var w := Loop(slots, rfds, i, err, wake, now, io).wake;
      (w.None? <==> wake.None? && forall j :: i <= j < |slots| ==> !Pending(slots[j], now)) &&
      (w.Some? ==> w == wake || exists j :: i <= j < |slots| && Pending(slots[j], now) && w.value == slots[j].timeout) &&
      (w.Some? && wake.Some? ==> !Less(w.value, wake.value)) &&
      (w.Some? ==> forall j :: i <= j < |slots| && Pending(slots[j], now) ==> !Less(w.value, slots[j].timeout))
    decreases |slots| - i
  {
    if i < |slots| {
      var c := slots[i];
      VisitNeverStops(c, rfds, err, wake, now, io.ready, io.recvLen[i]);
      var v := VisitSlot(c, rfds, err, wake, now, io.ready, io.recvLen[i]);
      var slots' := slots[i := v.slot];
      WakeIsLatest(slots', v.rfds, i + 1, v.err, v.wake, now, io);
      var w := Loop(slots', v.rfds, i + 1, v.err, v.wake, now, io).wake;
      assert forall j :: i + 1 <= j < |slots| ==> slots'[j] == slots[j];
      if w.Some? && Pending(c, now) {
        if v.wake == Some(c.timeout) {
          if wake.Some? {
            NotLessTransitive(w.value, c.timeout, wake.value);
          }
        } else {
          NotLessTransitive(w.value, wake.value, c.timeout);
        }
      }
    }
  }

  /** The accept block when the listener is ready and a slot is free: the lowest free slot takes the connection. */
  lemma AcceptIntoFreeSlot(lsock: int, slots: seq<Slot>, rfds: set<int>, io: Inputs, k: nat)
    requires SlotsOk(slots) && lsock in io.ready && io.accepted >= 0
    requires FindSlot(slots, 0, 0) == Some(k)
    ensures k < |slots| && slots[k].socket == 0 && forall j :: 0 <= j < k ==> slots[j].socket != 0
    ensures var p := Accept(lsock, slots, rfds, io);
      p.slots == slots[k := Slot(io.accepted, if io.written > 0 then S_IDLE else S_WAIT_USER, slots[k].timeout)] &&
      p.rfds == rfds + {io.accepted} &&
      p.err == (if io.written < 0 then io.written else 0) &&
      p.returned == (io.written < 0)
  {
    OpenFromIdle(io.written);
  }

  /**
   * The accept block when the listener is ready and the table is full: the
   * greeting is written, nothing is recorded, and a failed write is returned.
   */
  lemma AcceptTableFull(lsock: int, slots: seq<Slot>, rfds: set<int>, io: Inputs)
    requires SlotsOk(slots) && lsock in io.ready && io.accepted >= 0
    requires forall j :: 0 <= j < |slots| ==> slots[j].socket != 0
    ensures Accept(lsock, slots, rfds, io) == Phase(io.written, slots, rfds, io.written < 0)
  {
  }

  /**
   * The accept block when the listener is not ready, or accept fails: the
   * table and the watched set are unchanged; a failed accept returns -1.
   */
  lemma AcceptNothing(lsock: int, slots: seq<Slot>, rfds: set<int>, io: Inputs)
    requires SlotsOk(slots)
    ensures lsock !in io.ready ==> Accept(lsock, slots, rfds, io) == Phase(0, slots, rfds, false)
    ensures lsock in io.ready && io.accepted < 0 ==> Accept(lsock, slots, rfds, io) == Phase(-1, slots, rfds, true)
  {
  }

  /**
   * What ftp_srv_start returns: -1 when the clock or accept fails, a failed
   * greeting's write result, and otherwise 0 when some trigger ran in the
   * slot loop, or else what the accept block left (the full-table write
   * count, or 0).
   */
  lemma StartResult(lsock: int, slots: seq<Slot>, rfds: set<int>, io: Inputs)
    requires SlotsOk(slots) && |io.recvLen| == |slots|
    ensures var s := Iteration(lsock, slots, rfds, io);
      (io.clock.None? ==> s.err == -1) &&
      (io.clock.Some? && lsock in io.ready && io.accepted < 0 ==> s.err == -1) &&
      (io.clock.Some? && lsock in io.ready && io.accepted >= 0 && io.written < 0 ==> s.err == io.written)
    ensures io.clock.Some? && !(lsock in io.ready && (io.accepted < 0 || io.written < 0)) ==>
      var p := Accept(lsock, slots, rfds, io);
      var now := io.clock.value;
      p.err == (if lsock in io.ready && FindSlot(slots, 0, 0).None? then io.written else 0) &&
      Iteration(lsock, slots, rfds, io).err ==
        (if exists j :: 0 <= j < |slots| && Triggers(p.slots[j], now, io.ready, io.recvLen[j]) then 0 else p.err)
  {
    if io.clock.Some? && lsock in io.ready && io.accepted >= 0 {
      OpenFromIdle(io.written);
    }
    if io.clock.Some? {
      var p := Accept(lsock, slots, rfds, io);
      if !p.returned {
        LoopPointwise(p.slots, p.rfds, 0, p.err, None, io.clock.value, io);
      }
    }
  }

  /**
   * An iteration that reaches the slot loop leaves no occupied slot with an
   * armed deadline earlier than now: each expired deadline fired once and
   * was disarmed, so the same clock reading cannot fire it again.
   */
  lemma NoDeadlineLeftExpired(lsock: int, slots: seq<Slot>, rfds: set<int>, io: Inputs)
    requires SlotsOk(slots) && |io.recvLen| == |slots| && io.clock.Some?
    requires !Accept(lsock, slots, rfds, io).returned
    ensures var s := Iteration(lsock, slots, rfds, io);
      forall j :: 0 <= j < |slots| && s.slots[j].socket != 0 ==> !Expired(s.slots[j].timeout, io.clock.value)
  {
    var p := Accept(lsock, slots, rfds, io);
    LoopPointwise(p.slots, p.rfds, 0, p.err, None, io.clock.value, io);
  }

  /**
   * With a normalised clock and normalised deadlines, the timeout handed to
   * the next select is never negative: it is the remembered (latest pending)
   * deadline minus now, or zero.
   */
  lemma WaitNotNegative(lsock: int, slots: seq<Slot>, rfds: set<int>, io: Inputs)
    requires SlotsOk(slots) && |io.recvLen| == |slots| && io.clock.Some? && Normal(io.clock.value)
    requires forall j :: 0 <= j < |slots| ==> Normal(slots[j].timeout)
    ensures var s := Iteration(lsock, slots, rfds, io);
      Normal(s.wait) && Micros(s.wait) >= 0 &&
      (s.wake.None? ==> s.wait == ZERO) &&
      (s.wake.Some? ==> Micros(s.wait) == Micros(s.wake.value) - Micros(io.clock.value))
  {
    var now := io.clock.value;
    var p := Accept(lsock, slots, rfds, io);
    if !p.returned {
      assert forall j :: 0 <= j < |slots| ==> p.slots[j].timeout == slots[j].timeout;
      WakeIsLatest(p.slots, p.rfds, 0, p.err, None, now, io);
      LoopPointwise(p.slots, p.rfds, 0, p.err, None, now, io);
      var s := Loop(p.slots, p.rfds, 0, p.err, None, now, io);
      if s.wake.Some? {
        var j :| 0 <= j < |slots| && Pending(p.slots[j], now) && s.wake.value == p.slots[j].timeout;
        CompareIsTimeOrder(s.wake.value, now);
        SubMeasuresDistance(s.wake.value, now);
      }
    }
  }

  /** Every occupied slot's socket is watched. */
  predicate Watched(slots: seq<Slot>, rfds: set<int>)
  {
    forall j :: 0 <= j < |slots| && slots[j].socket != 0 ==> slots[j].socket in rfds
  }

  /** No two occupied slots share a socket. */
  predicate DistinctSockets(slots: seq<Slot>)
  {
    forall j, k :: 0 <= j < |slots| && 0 <= k < |slots| && j != k && slots[j].socket != 0 ==>
      slots[j].socket != slots[k].socket
  }

  /**
   * One iteration keeps every occupied socket watched and distinct, provided
   * accept hands out a descriptor no occupied slot holds.
   */
  lemma StartKeepsWatched(lsock: int, slots: seq<Slot>, rfds: set<int>, io: Inputs)
    requires SlotsOk(slots) && |io.recvLen| == |slots|
    requires Watched(slots, rfds) && DistinctSockets(slots)
    requires forall j :: 0 <= j < |slots| && slots[j].socket != 0 ==> slots[j].socket != io.accepted
    ensures var s := Iteration(lsock, slots, rfds, io);
      Watched(s.slots, s.rfds) && DistinctSockets(s.slots)
  {
    if io.clock.Some? {
      var p := Accept(lsock, slots, rfds, io);
      AcceptKeepsWatched(lsock, slots, rfds, io);
      if !p.returned {
        LoopKeepsWatched(p.slots, p.rfds, p.err, io.clock.value, io);
      }
    }
  }

  /** The listener block keeps the sockets watched and distinct when accept hands out a descriptor no slot holds. */
  lemma AcceptKeepsWatched(lsock: int, slots: seq<Slot>, rfds: set<int>, io: Inputs)
    requires SlotsOk(slots)
    requires Watched(slots, rfds) && DistinctSockets(slots)
    requires forall j :: 0 <= j < |slots| && slots[j].socket != 0 ==> slots[j].socket != io.accepted
    ensures var p := Accept(lsock, slots, rfds, io);
      Watched(p.slots, p.rfds) && DistinctSockets(p.slots)
  {
    if lsock in io.ready && io.accepted >= 0 && FindSlot(slots, 0, 0).Some? {
      AcceptIntoFreeSlot(lsock, slots, rfds, io, FindSlot(slots, 0, 0).value);
    }
  }

  /** The slot loop only frees slots and unwatches their sockets, so watched and distinct sockets stay so. */
  lemma LoopKeepsWatched(slots: seq<Slot>, rfds: set<int>, err: int, now: TimeVal, io: Inputs)
    requires SlotsOk(slots) && |io.recvLen| == |slots|
    requires Watched(slots, rfds) && DistinctSockets(slots)
    ensures var s := Loop(slots, rfds, 0, err, None, now, io);
      Watched(s.slots, s.rfds) && DistinctSockets(s.slots)
  {
    LoopPointwise(slots, rfds, 0, err, None, now, io);
    var s := Loop(slots, rfds, 0, err, None, now, io);
    forall j | 0 <= j < |slots| && s.slots[j].socket != 0
      ensures s.slots[j].socket in s.rfds
    {
      assert s.slots[j].socket == slots[j].socket && !Closes(slots[j], io.ready, io.recvLen[j]);
    }
  }

  // ---------------------------------------------------------------------------
  // The receive buffer: `char data[BUF_SIZE + 1]` and `data[rd] = '\0'`

  /** The terminator store `data[rd]` stays inside the BUF_SIZE + 1 cells of the buffer. */
  predicate TerminatorFits(rd: int)
  {
    0 <= rd < BUF_SIZE + 1
  }

  /**
   * As written, recv is asked for `sizeof data` bytes.  For every table size
   * and watched set there is a table, a listener and inputs the code admits
   * where the iteration gets past the clock and the listener block, the first
   * slot the loop visits is occupied and ready, and its read (rd == BUF_SIZE
   * + 1) is not negative, so the receive branch stores the terminator, one
   * cell past the buffer.  Those inputs fall outside InputsOk.
   */
  lemma TerminatorOverflowsAsWritten(n: nat, rfds: set<int>)
    requires n > 0
    ensures exists lsock: int, slots: seq<Slot>, io: Inputs ::
      |slots| == n && SlotsOk(slots) && InputsOkAsWritten(io, n) && !InputsOk(io, n) &&
      io.clock.Some? && !Accept(lsock, slots, rfds, io).returned &&
      Accept(lsock, slots, rfds, io).slots[0].socket != 0 &&
      Accept(lsock, slots, rfds, io).slots[0].socket in io.ready &&
      io.recvLen[0] >= 0 && !TerminatorFits(io.recvLen[0])
  {
    var slots := seq(n, _ => Slot(5, S_OPEN, ZERO));
    var io := Inputs(Some(TimeVal(1, 0)), {5}, 0, 0, seq(n, _ => RECV_LEN_AS_WRITTEN));
    var lsock := -1;
    assert io.recvLen[0] == RECV_LEN_AS_WRITTEN && slots[0].socket == 5;
    assert SlotsOk(slots) && InputsOkAsWritten(io, n) && !InputsOk(io, n);
    assert Accept(lsock, slots, rfds, io) == Phase(0, slots, rfds, false);
  }

  /** Asking recv for BUF_SIZE bytes keeps every terminator store inside the buffer. */
  lemma TerminatorFitsCorrected(rd: int)
    requires 0 <= rd <= RECV_LEN
    ensures TerminatorFits(rd)
  {
  }

  // ---------------------------------------------------------------------------
  // The server object

  /** struct ftp_cli: a client slot updated in place; its FSM is embedded in it. */
  class Cli {
    var socket: int
    var timeout: TimeVal
    const fsm: Machine

    /** A zero-filled slot: free, no deadline, a zeroed FSM. */
    constructor ()
      ensures socket == 0 && timeout == ZERO && fresh(fsm)
      ensures fsm.stt == [] && fsm.cth.None? && fsm.state == 0
    {
      socket := 0;
      timeout := ZERO;
      fsm := new Machine();
    }
  }

  /** struct ftp_srv: the listener, the watched set, the clock reading and the client table. */
  class Server {
    const socket: int
    var rfds: set<int>
    var now: TimeVal
    const clients: array<Cli>
    ghost const Repr: set<object>

    /**
     * The slots and their FSMs are distinct objects held in Repr, and every
     * occupied slot's FSM runs the session table, has no catch hook and is
     * in one of the four protocol states.
     */
    ghost predicate Valid()
      reads clients, Repr
    {
      this !in Repr && clients !in Repr &&
      (forall j :: 0 <= j < clients.Length ==> clients[j] in Repr && clients[j].fsm in Repr) &&
      (forall j, k :: 0 <= j < clients.Length && 0 <= k < clients.Length && j != k ==>
        clients[j] != clients[k] && clients[j].fsm != clients[k].fsm) &&
      (forall j :: 0 <= j < clients.Length && clients[j].socket != 0 ==>
        clients[j].fsm.stt == Stt && clients[j].fsm.cth.None? && IsState(clients[j].fsm.state))
    }

    /** The client table as values. */
    ghost function View(): (v: seq<Slot>)
      requires Valid()
      reads clients, Repr
      ensures |v| == clients.Length && SlotsOk(v)
      ensures forall j :: 0 <= j < clients.Length ==>
        v[j] == Slot(clients[j].socket, clients[j].fsm.state, clients[j].timeout)
    {
      seq(clients.Length, j requires 0 <= j < clients.Length && Valid() reads clients, Repr =>
        Slot(clients[j].socket, clients[j].fsm.state, clients[j].timeout))
    }

    /**
     * The server record ftp_srv_open fills in once the listener is up: the
     * listening socket, the watched set, and a zeroed table of n slots.
     */
    constructor (n: nat, lsock: int, watched: set<int>)
      ensures Valid() && clients.Length == n && fresh(clients)
      ensures fresh(Repr)
      ensures socket == lsock && rfds == watched && now == ZERO
      ensures forall j :: 0 <= j < n ==> View()[j] == Slot(0, 0, ZERO)
    {
      var cs: seq<Cli> := [];
      while |cs| < n
        invariant |cs| <= n
        invariant forall j :: 0 <= j < |cs| ==>
          cs[j].socket == 0 && cs[j].timeout == ZERO && cs[j].fsm.state == 0
        invariant forall j, k :: 0 <= j < |cs| && 0 <= k < |cs| && j != k ==>
          cs[j] != cs[k] && cs[j].fsm != cs[k].fsm
        invariant forall j :: 0 <= j < |cs| ==> fresh(cs[j]) && fresh(cs[j].fsm)
      {
        var c := new Cli();
        cs := cs + [c];
      }
      socket := lsock;
      rfds := watched;
      now := ZERO;
      clients := new Cli[n](j requires 0 <= j < |cs| => cs[j]);
      Repr := (set j | 0 <= j < n :: cs[j] as object) + (set j | 0 <= j < n :: cs[j].fsm as object);
    }

    /** cli_find: the lowest slot whose socket is fd (fd == 0 finds a free slot), or None. */
    method Find(fd: int) returns (r: Option<nat>)
      requires Valid()
      ensures r == FindSlot(View(), fd, 0)
    {
      var i := 0;
      while i < clients.Length && clients[i].socket != fd
        invariant 0 <= i <= clients.Length
        invariant FindSlot(View(), fd, i) == FindSlot(View(), fd, 0)
      {
        i := i + 1;
      }
      r := if i == clients.Length then None else Some(i);
    }

    /** cli_close: stop watching the slot's socket and mark the slot free; nothing else changes. */
    method Close(i: nat)
      requires Valid() && i < clients.Length
      modifies this`rfds, clients[i]
      ensures Valid()
      ensures rfds == old(rfds) - {old(clients[i].socket)}
      ensures View() == old(View())[i := old(View())[i].(socket := 0)]
    {
      rfds := rfds - {clients[i].socket};
      clients[i].socket := 0;
    }

    /**
     * The listener block of ftp_srv_start: accept, then either seat the new
     * connection in the lowest free slot and trigger E_OPEN on its fresh FSM,
     * or, with the table full, write the greeting and drop the connection.
     */
    method Admit(io: Inputs) returns (err: int, returned: bool)
      requires Valid()
      modifies this`rfds, Repr
      ensures Valid()
      ensures Accept(socket, old(View()), old(rfds), io) == Phase(err, View(), rfds, returned)
    {
      err, returned := 0, false;
      if socket in io.ready {
        var sock := io.accepted;
        if sock < 0 {
          return -1, true;
        }
        var k := Find(0);
        if k.None? {
          err := io.written;
          returned := err < 0;
        } else {
          AcceptIntoFreeSlot(socket, View(), rfds, io, k.value);
          err := Seat(k.value, sock, io.written);
          returned := err != 0;
        }
      }
    }

    /**
     * The free-slot branch of the listener block: slot k takes the socket,
     * which is watched; its FSM is re-initialised at S_IDLE and receives
     * E_OPEN, whose on_open action returns `written`.
     */
    method Seat(k: nat, sock: int, written: int) returns (code: int)
      requires Valid() && k < clients.Length
      modifies this`rfds, clients[k], clients[k].fsm
      ensures Valid()
      ensures rfds == old(rfds) + {sock}
      ensures View() == old(View())[k := Slot(sock, if written > 0 then S_IDLE else S_WAIT_USER, old(clients[k].timeout))]
      ensures code == if written < 0 then written else 0
    {
      SttWellFormed();
      var cli := clients[k];
      cli.socket := sock;
      rfds := rfds + {sock};
      cli.fsm.Init(S_IDLE, Stt);
      OpenFromIdle(written);
      var o := cli.fsm.Trigger(E_OPEN, [written]);
      code := o.code;
    }

    /**
     * An occupied slot's deadline fires: it is disarmed and E_TIMEOUT is
     * triggered, which with this table returns 0 and takes the session's
     * timeout transition.
     */
    method FireTimeout(i: nat) returns (code: int)
      requires Valid() && i < clients.Length && clients[i].socket != 0
      modifies clients[i], clients[i].fsm
      ensures Valid() && code == 0
      ensures View() == old(View())[i := Slot(old(clients[i].socket), Next(old(clients[i].fsm.state), E_TIMEOUT), ZERO)]
    {
      var cli := clients[i];
      cli.timeout := ZERO;
      QuietDispatch(cli.fsm.state, E_TIMEOUT, None, []);
      var o := cli.fsm.Trigger(E_TIMEOUT, []);
      code := o.code;
    }

    /**
     * An occupied slot received rd >= 0 bytes: the bytes are terminated in
     * the receive buffer and E_RECV is triggered, which with this table
     * returns 0 and takes the session's receive transition.
     */
    method Deliver(i: nat, rd: int) returns (code: int)
      requires Valid() && i < clients.Length && clients[i].socket != 0 && 0 <= rd <= RECV_LEN
      modifies clients[i].fsm
      ensures Valid() && code == 0
      ensures View() == old(View())[i := old(View())[i].(state := Next(old(clients[i].fsm.state), E_RECV))]
    {
      var data := new char[BUF_SIZE + 1];
      TerminatorFitsCorrected(rd);
      data[rd] := '\0';
      var cli := clients[i];
      QuietDispatch(cli.fsm.state, E_RECV, None, []);
      var o := cli.fsm.Trigger(E_RECV, []);
      code := o.code;
    }

    /**
     * One pass of the slot loop over slot i: fire or remember its deadline,
     * then receive.  `to` is the slot whose deadline is remembered (the
     * pointer into the table), `wake` the deadline it points at.
     */
    method ServeSlot(i: nat, err: int, to: Option<nat>, ghost wake: Option<TimeVal>, io: Inputs)
      returns (err': int, to': Option<nat>, ghost wake': Option<TimeVal>, stop: bool)
      requires Valid() && InputsOk(io, clients.Length) && i < clients.Length
      requires to.None? <==> wake.None?
      requires to.Some? ==> to.value < i && wake == Some(View()[to.value].timeout)
      modifies this`rfds, clients[i], clients[i].fsm
      ensures Valid()
      ensures View() == old(View())[i := View()[i]]
      ensures to'.None? <==> wake'.None?
      ensures to'.Some? ==> to'.value <= i && wake' == Some(View()[to'.value].timeout)
      ensures Loop(old(View()), old(rfds), i, err, wake, now, io) ==
        if stop then Step(err', View(), rfds, wake', WaitFor(wake', now))
        else Loop(View(), rfds, i + 1, err', wake', now, io)
    {
      ghost var slots := View();
      ghost var c := slots[i];
      VisitNeverStops(c, rfds, err, wake, now, io.ready, io.recvLen[i]);
      LoopStep(slots, rfds, i, err, wake, now, io, VisitSlot(c, rfds, err, wake, now, io.ready, io.recvLen[i]));
      err', to', wake', stop := err, to, wake, false;
      var cli := clients[i];
      if cli.socket == 0 {
        return;
      }
      if IsSet(cli.timeout) {
        if !GreaterEq(cli.timeout, now) {
          err' := FireTimeout(i);
          stop := err' != 0;
        } else if to.None? || !Less(cli.timeout, clients[to.value].timeout) {
          to', wake' := Some(i), Some(cli.timeout);
        }
      }
      if !stop && cli.socket in io.ready {
        var rd := io.recvLen[i];
        if rd < 0 {
          Close(i);
        } else {
          err' := Deliver(i, rd);
          stop := err' != 0;
        }
      }
    }

    /**
     * The slot loop of ftp_srv_start, from the first slot, with the result
     * err0 the listener block left.
     */
    method Sweep(err0: int, io: Inputs) returns (err: int, timeout: TimeVal)
      requires Valid() && InputsOk(io, clients.Length)
      modifies this`rfds, Repr
      ensures Valid()
      ensures var s := Loop(old(View()), old(rfds), 0, err0, None, now, io);
        err == s.err && timeout == s.wait && View() == s.slots && rfds == s.rfds
    {
      ghost var t := now;
      ghost var goal := Loop(View(), rfds, 0, err0, None, t, io);
      err, timeout := err0, ZERO;
      var to: Option<nat> := None;
      ghost var wake: Option<TimeVal> := None;
      var i := 0;
      while i < clients.Length
        invariant 0 <= i <= clients.Length && Valid()
        invariant t == now
        invariant Loop(View(), rfds, i, err, wake, t, io) == goal
        invariant to.None? <==> wake.None?
        invariant to.Some? ==> to.value < i && wake == Some(View()[to.value].timeout)
      {
        var stop;
        err, to, wake, stop := ServeSlot(i, err, to, wake, io);
        if stop {
          break;
        }
        i := i + 1;
      }
      assert goal == Step(err, View(), rfds, wake, WaitFor(wake, t));
      if to.Some? {
        timeout := Sub(clients[to.value].timeout, now);
      }
    }

    /**
     * ftp_srv_start: one iteration of the event loop on the inputs io.  The
     * result, the timeout written out, the table and the watched set are
     * those Iteration gives for the table and watched set on entry.
     */
    method Start(io: Inputs) returns (err: int, timeout: TimeVal)
      requires Valid() && InputsOk(io, clients.Length)
      modifies this`rfds, this`now, Repr
      ensures Valid()
      ensures var s := Iteration(socket, old(View()), old(rfds), io);
        err == s.err && timeout == s.wait && View() == s.slots && rfds == s.rfds
      ensures now == if io.clock.Some? then io.clock.value else old(now)
    {
      timeout := ZERO;
      if io.clock.None? {
        return -1, ZERO;
      }
      now := io.clock.value;
      ghost var p := Accept(socket, View(), rfds, io);
      var returned;
      err, returned := Admit(io);
      assert p == Phase(err, View(), rfds, returned);
      if returned {
        return;
      }
      err, timeout := Sweep(err, io);
    }
  }
}
