/** The JtagServer class of openocd_jtag_fast.py, which bridges OpenOCD's
    remote_bitbang TCP protocol to the adapter's `openocd_jtag` call. The two
    daemon threads are modelled as two methods, one iteration of each thread
    loop per call, each running atomically; any interleaving of the threads
    is a sequence of such calls. The socket layer is given from outside: the
    sockets `select` reports readable, what `recv` returns on each, and
    whether a `send` on an open socket raises. */
module JtagBridge {
  import opened Base
  import opened JtagConfig
  import opened JtagListener

  /** The RuntimeErrors `start_server` can raise: its own "Server has
      already stopped", and Python's refusal to start a thread twice. */
  datatype ServerError = AlreadyStopped | ThreadsAlreadyStarted

  /** One `send` on a client socket. */
  datatype Sent = Sent(socket: SocketId, data: seq<byte>)

  /** What the processor does with a transfer's response (lines 117-118):
      nothing, a send to `_sock`, or a send on a socket the listener has
      already closed, which raises OSError and ends the processor thread. */
  datatype Reply = Dropped | SendTo(socket: SocketId) | SendFails

  function ReplyFor(response: seq<byte>, sock: Option<SocketId>, closed: set<SocketId>): (r: Reply)
    ensures r != Dropped <==> response != [] && sock.Some?
    ensures r.SendTo? ==> sock == Some(r.socket) && r.socket !in closed
    ensures r == SendFails <==> response != [] && sock.Some? && sock.value in closed
  {
    if response == [] || sock.None? then Dropped
    else if sock.value in closed then SendFails
    else SendTo(sock.value)
  }

  /** Everything the server's state holds, as one value: the adapter's call
      log and the adapter calls made before the server existed, the pins,
      the lifecycle flags, the listener's part, the sends, and (for the
      proofs) every chunk received and every chunk forwarded. */
  datatype ServerState = ServerState(
    calls: seq<AdapterCall>,
    callsBefore: seq<AdapterCall>,
    pins: Pins,
    terminated: bool,
    started: bool,
    listening: bool,
    processing: bool,
    listener: ListenerState,
    sent: seq<Sent>,
    received: seq<seq<byte>>,
    forwarded: seq<seq<byte>>)

  /** The listener's part before its thread starts. */
  const Unstarted: ListenerState := ListenerState([], None, [], {}, 1)

  /** The pins passed the range checks, and the adapter has seen the GPIO
      setup followed by one transfer per forwarded chunk, in order, with the
      server's pins. */
  ghost predicate CallsInv(s: ServerState)
  {
    && ValidatePins(s.pins) == Pass
    && s.calls == s.callsBefore + SetupCalls(s.pins) + TransferCalls(s.pins, s.forwarded)
  }

  /** Chunks leave the queue in the order they entered it. */
  ghost predicate QueueInv(s: ServerState)
  {
    s.forwarded + s.listener.queue == s.received
  }

  /** `_sock`, when set, is an accepted client, and every send carried a
      non-empty response to an accepted client. */
  ghost predicate SocketsInv(s: ServerState)
  {
    && s.listener.nextId >= 1
    && (s.listener.sock.Some? ==> 0 < s.listener.sock.value < s.listener.nextId)
    && (forall i :: 0 <= i < |s.sent| ==> s.sent[i].data != [] && 0 < s.sent[i].socket < s.listener.nextId)
  }

  /** Nothing happens before the threads start; the listener's bookkeeping
      holds while it runs; once it has exited, every socket it ever had is
      closed. */
  ghost predicate LifecycleInv(s: ServerState)
  {
    && (s.listening || s.processing ==> s.started)
    && (!s.started ==> s.listener == Unstarted && s.sent == [] && s.received == [])
    && (s.listening ==> ListenerInv(s.listener))
    && (s.started && !s.listening ==> forall c :: 0 <= c < s.listener.nextId ==> c in s.listener.closed)
  }

  /** What holds of the server at every step. */
  ghost predicate Inv(s: ServerState)
  {
    CallsInv(s) && QueueInv(s) && SocketsInv(s) && LifecycleInv(s)
  }

  /** One pass of the listener thread: the scan, then the shutdown if
      `_terminate` is set. */
  function ListenerStep(s: ServerState, readable: seq<SocketId>, recv: SocketId -> seq<byte>): ServerState
  {
    var l := Scan(s.listener, readable, recv);
    s.(listener := if s.terminated then Shutdown(l) else l,
       listening := !s.terminated,
       received := s.received + Delivered(readable, recv))
  }

  /** One pass of the processor thread, given the hardware's answer as a
      function of the adapter's call log, and whether a send on the open
      `_sock` raises (a reset peer, or a full buffer on the non-blocking
      socket of line 83). A transfer or a send that raises ends the thread,
      as the uncaught exception does: nothing is sent, and the chunk is gone
      from the queue. */
  function ProcessStep(s: ServerState, respond: seq<AdapterCall> -> Option<seq<byte>>, sendRaises: bool): ServerState
  {
    if s.terminated then s.(processing := false)
    else if s.listener.queue == [] then s
    else
      var chunk := s.listener.queue[0];
      var calls := s.calls + [Transfer(s.pins, chunk)];
      var answer := respond(calls);
      var response := if answer.Some? then answer.value else [];
      var reply := ReplyFor(response, s.listener.sock, s.listener.closed);
      var delivered := reply.SendTo? && !sendRaises;
      s.(calls := calls,
         listener := s.listener.(queue := s.listener.queue[1..]),
         forwarded := s.forwarded + [chunk],
         sent := if delivered then s.sent + [Sent(reply.socket, response)] else s.sent,
         processing := answer.Some? && (reply == Dropped || delivered))
  }

  lemma TransferCallsSnoc(p: Pins, chunks: seq<seq<byte>>, c: seq<byte>)
    ensures TransferCalls(p, chunks + [c]) == TransferCalls(p, chunks) + [Transfer(p, c)]
  {
    assert (chunks + [c])[..|chunks|] == chunks;
  }

  /** The one adapter call a processor pass makes is the transfer of the
      head of the queue, and that chunk leaves the queue; a pass that finds
      the queue empty or the server terminated makes no call. */
  lemma ProcessTransfersHead(s: ServerState, respond: seq<AdapterCall> -> Option<seq<byte>>, sendRaises: bool)
    ensures !s.terminated && s.listener.queue != [] ==>
      && ProcessStep(s, respond, sendRaises).calls == s.calls + [Transfer(s.pins, s.listener.queue[0])]
      && ProcessStep(s, respond, sendRaises).listener.queue == s.listener.queue[1..]
    ensures s.terminated || s.listener.queue == [] ==>
      ProcessStep(s, respond, sendRaises).calls == s.calls && ProcessStep(s, respond, sendRaises).listener.queue == s.listener.queue
  {
  }

  /** A processor pass keeps the adapter log equal to the set-up followed by
      the transfers of the forwarded chunks, and the forwarded chunks followed
      by the queue unchanged. */
  lemma ProcessKeepsCallsAndQueue(s: ServerState, respond: seq<AdapterCall> -> Option<seq<byte>>, sendRaises: bool)
    requires CallsInv(s) && QueueInv(s)
    ensures CallsInv(ProcessStep(s, respond, sendRaises)) && QueueInv(ProcessStep(s, respond, sendRaises))
  {
    if !s.terminated && s.listener.queue != [] {
      var chunk := s.listener.queue[0];
      TransferCallsSnoc(s.pins, s.forwarded, chunk);
      assert s.forwarded + [chunk] + s.listener.queue[1..] == s.forwarded + s.listener.queue;
    }
  }

  lemma ProcessKeepsSockets(s: ServerState, respond: seq<AdapterCall> -> Option<seq<byte>>, sendRaises: bool)
    requires SocketsInv(s)
    ensures SocketsInv(ProcessStep(s, respond, sendRaises))
  {
  }

  /** The bookkeeping does not look at the queue. */
  lemma ListenerInvIgnoresQueue(l: ListenerState, q: seq<seq<byte>>)
    ensures ListenerInv(l.(queue := q)) == ListenerInv(l)
  {
  }

  lemma ProcessKeepsLifecycle(s: ServerState, respond: seq<AdapterCall> -> Option<seq<byte>>, sendRaises: bool)
    requires LifecycleInv(s) && s.processing
    ensures LifecycleInv(ProcessStep(s, respond, sendRaises))
  {
    if !s.terminated && s.listener.queue != [] {
      ListenerInvIgnoresQueue(s.listener, s.listener.queue[1..]);
    }
  }

  /** A processor pass keeps the invariant. */
  lemma ProcessKeepsInv(s: ServerState, respond: seq<AdapterCall> -> Option<seq<byte>>, sendRaises: bool)
    requires Inv(s) && s.processing
    ensures Inv(ProcessStep(s, respond, sendRaises))
  {
    ProcessKeepsCallsAndQueue(s, respond, sendRaises);
    ProcessKeepsSockets(s, respond, sendRaises);
    ProcessKeepsLifecycle(s, respond, sendRaises);
  }

  /** The state right after construction satisfies the invariant. */
  lemma ConstructedInv(before: seq<AdapterCall>, pins: Pins)
    requires ValidatePins(pins) == Pass
    ensures Inv(ServerState(before + SetupCalls(pins), before, pins, false, false, false, false, Unstarted, [], [], []))
  {
    assert TransferCalls(pins, []) == [];
    assert before + SetupCalls(pins) + [] == before + SetupCalls(pins);
  }

  /** `start_server` on a server not yet started nor stopped: both threads
      start, and the listener watches only its server socket. */
  function Started(s: ServerState): ServerState
  {
    s.(started := true, listening := true, processing := true, listener := s.listener.(readList := [ServerSocket]))
  }

  lemma StartKeepsInv(s: ServerState)
    requires Inv(s) && !s.started
    ensures Inv(Started(s))
    ensures Started(s).listener == Initial()
  {
  }

  /** A listener pass keeps the invariant, provided `select` only reported
      sockets of `read_list`. */
  lemma ListenerKeepsInv(s: ServerState, readable: seq<SocketId>, recv: SocketId -> seq<byte>)
    requires Inv(s) && s.listening
    requires forall x :: x in readable ==> x in s.listener.readList
    ensures Inv(ListenerStep(s, readable, recv))
  {
    var l := Scan(s.listener, readable, recv);
    ScanClosedForm(s.listener, readable, recv);
    ScanKeepsInv(s.listener, readable, recv);
    assert s.forwarded + l.queue == s.received + Delivered(readable, recv);
    if s.terminated {
      ShutdownClosesEverything(l);
    }
  }

  /** Once the listener has exited, the processor sends nothing more: `_sock`
      is unset or closed, so a response is either dropped or its send fails. */
  lemma NoSendAfterListenerExit(s: ServerState, respond: seq<AdapterCall> -> Option<seq<byte>>, sendRaises: bool)
    requires Inv(s) && s.started && !s.listening
    ensures ProcessStep(s, respond, sendRaises).sent == s.sent
  {
  }

  /** Each chunk is forwarded once, in the order it was received, and the
      adapter's transfers are exactly the forwarded chunks with the server's
      pins. */
  lemma ForwardedInOrder(s: ServerState)
    requires Inv(s)
    ensures |s.forwarded| <= |s.received| && s.received[..|s.forwarded|] == s.forwarded
    ensures s.calls[|s.callsBefore| + 5..] == TransferCalls(s.pins, s.forwarded)
  {
    assert s.received[..|s.forwarded|] == (s.forwarded + s.listener.queue)[..|s.forwarded|];
    assert |SetupCalls(s.pins)| == 5;
  }

  /** A transfer that raises ends the processor thread: the chunk was handed
      to the adapter and is gone from the queue, and nothing is sent. */
  lemma FailedTransferEndsProcessor(s: ServerState, respond: seq<AdapterCall> -> Option<seq<byte>>, sendRaises: bool)
    requires !s.terminated && s.listener.queue != []
    requires respond(s.calls + [Transfer(s.pins, s.listener.queue[0])]).None?
    ensures !ProcessStep(s, respond, sendRaises).processing
    ensures ProcessStep(s, respond, sendRaises).sent == s.sent
    ensures ProcessStep(s, respond, sendRaises).calls == s.calls + [Transfer(s.pins, s.listener.queue[0])]
    ensures ProcessStep(s, respond, sendRaises).forwarded == s.forwarded + [s.listener.queue[0]]
    ensures ProcessStep(s, respond, sendRaises).listener.queue == s.listener.queue[1..]
  {
  }

  /** A send to the open `_sock` that raises (a reset peer, or a full buffer
      on the non-blocking socket) ends the processor thread with nothing
      recorded as sent; when it does not raise, the response is sent and the
      thread goes on. */
  lemma SendOutcome(s: ServerState, respond: seq<AdapterCall> -> Option<seq<byte>>, sendRaises: bool)
    requires !s.terminated && s.listener.queue != []
    requires var answer := respond(s.calls + [Transfer(s.pins, s.listener.queue[0])]);
      answer.Some? && answer.value != [] && s.listener.sock.Some? && s.listener.sock.value !in s.listener.closed
    ensures var answer := respond(s.calls + [Transfer(s.pins, s.listener.queue[0])]);
      && (sendRaises ==> !ProcessStep(s, respond, sendRaises).processing && ProcessStep(s, respond, sendRaises).sent == s.sent)
      && (!sendRaises ==>
            && ProcessStep(s, respond, sendRaises).processing
            && ProcessStep(s, respond, sendRaises).sent == s.sent + [Sent(s.listener.sock.value, answer.value)])
  {
  }

  /** `_terminate` is never cleared, and once it is set the processor makes no
      further transfer. */
  lemma TerminationIsFinal(s: ServerState, readable: seq<SocketId>, recv: SocketId -> seq<byte>, respond: seq<AdapterCall> -> Option<seq<byte>>, sendRaises: bool)
    requires s.terminated
    ensures ListenerStep(s, readable, recv).terminated && !ListenerStep(s, readable, recv).listening
    ensures ProcessStep(s, respond, sendRaises).terminated && !ProcessStep(s, respond, sendRaises).processing
    ensures ProcessStep(s, respond, sendRaises).calls == s.calls
  {
  }

  class JtagServer {
    /** `_pt`, shared with whoever created the server. */
    const adapter: Adapter
    /** `_tdi_pin`, `_tdo_pin`, `_tms_pin`, `_tck_pin`. */
    const pins: Pins
    /** `_terminate`. */
    var terminated: bool
    /** The two threads have been started. */
    var started: bool
    /** The listener thread is still in its loop. */
    var listening: bool
    /** The processor thread is still in its loop. */
    var processing: bool
    /** The listener thread's local `read_list`. */
    var readList: seq<SocketId>
    /** `_sock`. */
    var sock: Option<SocketId>
    /** `_input_queue`, head first. */
    var queue: seq<seq<byte>>
    /** Sockets closed so far. */
    var closed: set<SocketId>
    /** The number the next accepted client gets. */
    var nextId: nat
    /** Every `send` so far, in order. */
    var sent: seq<Sent>
    /** Every chunk ever put on the queue, in order. */
    ghost var received: seq<seq<byte>>
    /** Every chunk taken off the queue and handed to the adapter, in order. */
    ghost var forwarded: seq<seq<byte>>
    /** The adapter's calls before this server was created. */
    ghost var callsBefore: seq<AdapterCall>

    /** The part of the state the listener works on. */
    function Listener(): ListenerState
      reads this
    {
      ListenerState(readList, sock, queue, closed, nextId)
    }

    ghost function State(): ServerState
      reads this, adapter
    {
      ServerState(adapter.calls, callsBefore, pins, terminated, started, listening, processing,
                  Listener(), sent, received, forwarded)
    }

    ghost predicate Valid()
      reads this, adapter
    {
      Inv(State())
    }

    /** `JtagServer(pt, tdi_pin, tdo_pin, tms_pin, tck_pin)`: the range checks
        (lines 20-27), then the GPIO setup and the initial state. On a
        ValueError no adapter call is made. */
    static method Open(adapter: Adapter, tdi: int, tdo: int, tms: int, tck: int) returns (r: Result<JtagServer, PinError>)
      modifies adapter
      ensures ValidatePins(Pins(tdi, tdo, tms, tck)).Fail? ==>
        r == Failure(ValidatePins(Pins(tdi, tdo, tms, tck)).error) && adapter.calls == old(adapter.calls)
      ensures ValidatePins(Pins(tdi, tdo, tms, tck)) == Pass ==>
        && r.Success? && fresh(r.value) && r.value.Valid()
        && r.value.adapter == adapter && r.value.pins == Pins(tdi, tdo, tms, tck)
        && adapter.calls == old(adapter.calls) + SetupCalls(Pins(tdi, tdo, tms, tck))
        && !r.value.terminated && !r.value.started && r.value.Listener() == Unstarted
    {
      var p := Pins(tdi, tdo, tms, tck);
      match ValidatePins(p)
      case Fail(e) =>
        r := Failure(e);
      case Pass =>
        var server := new JtagServer(adapter, p);
        r := Success(server);
    }

    /** Lines 29-50 once the pins are known to be in range: TDI, TMS, TCK to
        OUTPUT, then TDO to INPUT with no pull; nothing queued, no client. */
    constructor (adapter: Adapter, pins: Pins)
      requires ValidatePins(pins) == Pass
      modifies adapter
      ensures Valid() && this.adapter == adapter && this.pins == pins
      ensures State() == ServerState(old(adapter.calls) + SetupCalls(pins), old(adapter.calls), pins,
                                     false, false, false, false, Unstarted, [], [], [])
    {
      this.adapter := adapter;
      this.pins := pins;
      terminated, started, listening, processing := false, false, false, false;
      readList, sock, queue, closed, nextId, sent := [], None, [], {}, 1, [];
      received, forwarded := [], [];
      callsBefore := adapter.calls;
      new;
      adapter.GpioSetDirection(pins.tdi, Output);
      adapter.GpioSetDirection(pins.tms, Output);
      adapter.GpioSetDirection(pins.tck, Output);
      adapter.GpioSetDirection(pins.tdo, Input);
      adapter.GpioSetPull(pins.tdo, PullNone);
      ConstructedInv(callsBefore, pins);
      InvOf(ServerState(callsBefore + SetupCalls(pins), callsBefore, pins, false, false, false, false, Unstarted, [], [], []), State());
    }

    /** `start_server` (lines 52-59): refused once `_terminate` is set;
        otherwise both threads start and the server itself is returned. */
    method StartServer() returns (r: Result<JtagServer, ServerError>)
      requires Valid()
      modifies this
      ensures Valid()
      ensures old(terminated) ==> r == Failure(AlreadyStopped) && unchanged(this)
      ensures !old(terminated) && old(started) ==> r == Failure(ThreadsAlreadyStarted) && unchanged(this)
      ensures !old(terminated) && !old(started) ==> r == Success(this) && State() == Started(old(State()))
    {
      if terminated {
        return Failure(AlreadyStopped);
      }
      if started {
        return Failure(ThreadsAlreadyStarted);
      }
      ghost var s0 := State();
      StartKeepsInv(s0);
      started, listening, processing := true, true, true;
      readList := [ServerSocket];
      InvOf(Started(s0), State());
      return Success(this);
    }

    /** `stop_server` (lines 61-64): set `_terminate`, which nothing clears.
        The joins are the threads' next iterations, which see the flag. */
    method StopServer()
      requires Valid()
      modifies this`terminated
      ensures Valid() && State() == old(State()).(terminated := true)
    {
      terminated := true;
    }

    /** `__enter__` (lines 66-67): `start_server`, whose result is dropped, so
        the `with` target is None; its RuntimeErrors propagate. */
    method Enter() returns (r: Outcome<ServerError>)
      requires Valid()
      modifies this
      ensures Valid()
      ensures old(terminated) ==> r == Fail(AlreadyStopped) && unchanged(this)
      ensures !old(terminated) && old(started) ==> r == Fail(ThreadsAlreadyStarted) && unchanged(this)
      ensures !old(terminated) && !old(started) ==> r == Pass && State() == Started(old(State()))
    {
      var res := StartServer();
      r := if res.Success? then Pass else Fail(res.error);
    }

    /** `__exit__` (lines 69-70): `stop_server`, on every way out of the
        `with` block. */
    method Exit()
      requires Valid()
      modifies this`terminated
      ensures Valid() && State() == old(State()).(terminated := true)
    {
      StopServer();
    }

    /** One pass of the listener thread, keeping the invariant; `select`
        reports only sockets of `read_list`. */
    method ListenerIteration(readable: seq<SocketId>, recv: SocketId -> seq<byte>)
      requires Valid() && listening
      requires forall s :: s in readable ==> s in readList
      modifies this
      ensures Valid()
      ensures State() == ListenerStep(old(State()), readable, recv)
    {
      ghost var s0 := State();
      ListenerKeepsInv(s0, readable, recv);
      ListenerPass(readable, recv);
      InvOf(ListenerStep(s0, readable, recv), State());
    }

    /** The body of the listener loop (lines 79-101): the scan of the
        readable sockets, then, if `_terminate` is set, every socket closed
        and the thread ended. */
    method ListenerPass(readable: seq<SocketId>, recv: SocketId -> seq<byte>)
      requires listening
      modifies this
      ensures State() == ListenerStep(old(State()), readable, recv)
    {
      ScanReadable(readable, recv);
      if terminated {
        CloseAll();
        listening := false;
      }
    }

    /** Lines 80-94: the `for` loop over the readable sockets. */
    method ScanReadable(readable: seq<SocketId>, recv: SocketId -> seq<byte>)
      modifies this`readList, this`sock, this`queue, this`closed, this`nextId, this`received
      ensures Listener() == Scan(old(Listener()), readable, recv)
      ensures received == old(received) + Delivered(readable, recv)
    {
      ghost var d: seq<seq<byte>> := [];
      var i := 0;
      while i < |readable|
        invariant 0 <= i <= |readable|
        invariant Scan(Listener(), readable[i..], recv) == Scan(old(Listener()), readable, recv)
        invariant queue == old(queue) + d && received == old(received) + d
      {
        var s := readable[i];
        assert readable[i..][0] == s && readable[i..][1..] == readable[i + 1..];
        if s == ServerSocket {
          var client := nextId;
          nextId := nextId + 1;
          sock := Some(client);
          readList := readList + [client];
        } else {
          var data := recv(s);
          if data != [] {
            queue := queue + [data];
            received := received + [data];
            d := d + [data];
          } else {
            closed := closed + {s};
            readList := Remove(readList, s);
            break;
          }
        }
        i := i + 1;
      }
      assert Listener() == Scan(old(Listener()), readable, recv);
      ScanClosedForm(old(Listener()), readable, recv);
      AppendCancel(old(queue), d, Delivered(readable, recv));
    }

    /** Lines 97-101 and the end of the `with` block: close every client in
        `read_list`, then the server socket. */
    method CloseAll()
      modifies this`closed
      ensures closed == old(closed) + (set s | s in readList) + {ServerSocket}
    {
      var j := 0;
      while j < |readList|
        invariant 0 <= j <= |readList|
        invariant old(closed) <= closed
        invariant forall k :: 0 <= k < j && readList[k] != ServerSocket ==> readList[k] in closed
        invariant forall x :: x in closed ==> x in old(closed) || x in readList
      {
        if readList[j] != ServerSocket {
          closed := closed + {readList[j]};
        }
        j := j + 1;
      }
      closed := closed + {ServerSocket};
    }

    /** One pass of the processor thread, keeping the invariant. */
    method ProcessIteration(sendRaises: bool)
      requires Valid() && processing
      modifies this, adapter
      ensures Valid()
      ensures State() == ProcessStep(old(State()), adapter.respond, sendRaises)
    {
      ghost var s0 := State();
      ProcessKeepsInv(s0, adapter.respond, sendRaises);
      ProcessPass(sendRaises);
      InvOf(ProcessStep(s0, adapter.respond, sendRaises), State());
    }

    /** The body of the processor loop (lines 105-118): stop once
        `_terminate` is set; do nothing when the queue stays empty; otherwise
        take the head chunk, make one `openocd_jtag` call with the four pins,
        and send a non-empty response to `_sock` if it is set. A transfer
        that raises, or a send that raises (on a closed socket, or when
        `sendRaises` says the open socket refuses it), ends the thread. */
    method ProcessPass(sendRaises: bool)
      requires processing
      modifies this, adapter
      ensures State() == ProcessStep(old(State()), adapter.respond, sendRaises)
    {
      if terminated {
        processing := false;
        return;
      }
      if queue == [] {
        return;
      }
      var chunk := queue[0];
      queue := queue[1..];
      forwarded := forwarded + [chunk];
      var answer := adapter.OpenocdJtag(pins, chunk);
      if answer.None? {
        processing := false;
        return;
      }
      var response := answer.value;
      var reply := ReplyFor(response, sock, closed);
      if reply.SendTo? && !sendRaises {
        sent := sent + [Sent(reply.socket, response)];
      } else if reply != Dropped {
        processing := false;
      }
    }
  }

  lemma InvOf(a: ServerState, b: ServerState)
    requires Inv(a) && a == b
    ensures Inv(b)
  {
  }

  lemma AppendCancel<T>(a: seq<T>, x: seq<T>, y: seq<T>)
    requires a + x == a + y
    ensures x == y
  {
    assert x == (a + x)[|a|..];
    assert y == (a + y)[|a|..];
  }
}
