/** One pass of JtagServer's listener thread (`_run_thread_func` in
    openocd_jtag_fast.py), as a function of the sockets `select` reported
    readable and of what `recv` returns on each. The pass walks the readable
    sockets in order: the server socket accepts a client, which is appended to
    `read_list` and becomes `_sock`; a client with data has the data put on
    the input queue; a client whose recv is empty is closed, removed from
    `read_list`, and ends the pass. Sockets are opaque numbers: the server
    socket is 0 and accepted clients are numbered 1, 2, ... in order. */
module JtagListener {
  import opened Base

  type SocketId = nat

  const ServerSocket: SocketId := 0

  /** What the listener reads and writes: its `read_list`, the server's
      `_sock` and input queue, the sockets closed so far, and the number the
      next accepted client gets. */
  datatype ListenerState = ListenerState(
    readList: seq<SocketId>,
    sock: Option<SocketId>,
    queue: seq<seq<byte>>,
    closed: set<SocketId>,
    nextId: nat)

  /** The state when the listener thread starts (line 77): only the server
      socket is watched, no client has been accepted, nothing is queued. The
      bookkeeping invariant holds from here on. */
  function Initial(): (st: ListenerState)
    ensures ListenerInv(st)
  {
    ListenerState([ServerSocket], None, [], {}, 1)
  }

  /** `list.remove(s)`: drops the first occurrence of `s` (the listener only
      removes sockets that are in the list). */
  function Remove(l: seq<SocketId>, s: SocketId): seq<SocketId>
  {
    if l == [] then []
    else if l[0] == s then l[1..]
    else [l[0]] + Remove(l[1..], s)
  }

  /** `n`, `n + 1`, ..., `n + k - 1`: the numbers of `k` clients accepted in a row. */
  function Range(n: nat, k: nat): (r: seq<SocketId>)
    ensures |r| == k
    ensures forall i :: 0 <= i < k ==> r[i] == n + i
    decreases k
  {
    if k == 0 then [] else [n] + Range(n + 1, k - 1)
  }

  /** Lines 81-85: accept a client, make it `_sock`, and watch it. */
  function Accept(st: ListenerState): ListenerState
  {
    st.(readList := st.readList + [st.nextId], sock := Some(st.nextId), nextId := st.nextId + 1)
  }

  /** Lines 80-94: the scan over the readable sockets, left to right. */
  function Scan(st: ListenerState, readable: seq<SocketId>, recv: SocketId -> seq<byte>): ListenerState
    decreases |readable|
  {
    if readable == [] then st
    else
      var s := readable[0];
      if s == ServerSocket then Scan(Accept(st), readable[1..], recv)
      else if recv(s) != [] then Scan(st.(queue := st.queue + [recv(s)]), readable[1..], recv)
      else st.(readList := Remove(st.readList, s), closed := st.closed + {s})
  }

  /** Lines 96-101 and the end of the `with` block: every client in
      `read_list` is closed by the loop, and the server socket by the `with`
      statement. */
  function Shutdown(st: ListenerState): (r: ListenerState)
    ensures forall s :: s in st.readList ==> s in r.closed
    ensures ServerSocket in r.closed
    ensures r.closed - st.closed <= (set s | s in st.readList) + {ServerSocket}
    ensures st.closed <= r.closed
    ensures r.readList == st.readList && r.sock == st.sock && r.queue == st.queue && r.nextId == st.nextId
  {
    st.(closed := st.closed + (set s | s in st.readList) + {ServerSocket})
  }

  /** The chunks a scan puts on the queue: every non-empty recv, in order,
      up to the first empty one. */
  function Delivered(readable: seq<SocketId>, recv: SocketId -> seq<byte>): (d: seq<seq<byte>>)
    ensures forall i :: 0 <= i < |d| ==> d[i] != []
  {
    if readable == [] then []
    else
      var s := readable[0];
      if s == ServerSocket then Delivered(readable[1..], recv)
      else if recv(s) != [] then [recv(s)] + Delivered(readable[1..], recv)
      else []
  }

  /** The number of clients a scan accepts: the server socket's entries
      before the first empty recv. */
  function Accepts(readable: seq<SocketId>, recv: SocketId -> seq<byte>): nat
  {
    if readable == [] then 0
    else
      var s := readable[0];
      if s == ServerSocket then 1 + Accepts(readable[1..], recv)
      else if recv(s) != [] then Accepts(readable[1..], recv)
      else 0
  }

  /** The client whose empty recv ends the scan, if there is one. */
  function Hangup(readable: seq<SocketId>, recv: SocketId -> seq<byte>): Option<SocketId>
  {
    if readable == [] then None
    else
      var s := readable[0];
      if s == ServerSocket || recv(s) != [] then Hangup(readable[1..], recv)
      else Some(s)
  }

  /** The state after `a` accepts, the delivery of `d` and, when `h` is set,
      a hang-up of `h`, all from `st`. */
  function AfterScan(st: ListenerState, a: nat, d: seq<seq<byte>>, h: Option<SocketId>): ListenerState
  {
    var grown := st.readList + Range(st.nextId, a);
    ListenerState(
      if h.Some? then Remove(grown, h.value) else grown,
      if a == 0 then st.sock else Some(st.nextId + a - 1),
      st.queue + d,
      if h.Some? then st.closed + {h.value} else st.closed,
      st.nextId + a)
  }

  /** One more accept in front. */
  lemma AfterScanAccept(st: ListenerState, a: nat, d: seq<seq<byte>>, h: Option<SocketId>)
    ensures AfterScan(Accept(st), a, d, h) == AfterScan(st, a + 1, d, h)
  {
    assert st.readList + [st.nextId] + Range(st.nextId + 1, a) == st.readList + Range(st.nextId, a + 1);
  }

  /** One more delivered chunk in front. */
  lemma AfterScanDeliver(st: ListenerState, c: seq<byte>, a: nat, d: seq<seq<byte>>, h: Option<SocketId>)
    ensures AfterScan(st.(queue := st.queue + [c]), a, d, h) == AfterScan(st, a, [c] + d, h)
  {
    assert st.queue + [c] + d == st.queue + ([c] + d);
  }

  /** What a whole scan does, in one formula: the accepted clients are
      appended to `read_list` in order and the last of them is `_sock` (which
      is otherwise untouched, even by a hang-up); the delivered chunks are
      appended to the queue in order; a hang-up closes that one socket and
      removes it from `read_list`, after the appends. */
  lemma {:induction false} ScanClosedForm(st: ListenerState, readable: seq<SocketId>, recv: SocketId -> seq<byte>)
    ensures Scan(st, readable, recv) == AfterScan(st, Accepts(readable, recv), Delivered(readable, recv), Hangup(readable, recv))
    decreases |readable|
  {
    if readable == [] {
      assert st.readList + Range(st.nextId, 0) == st.readList;
      assert st.queue + [] == st.queue;
    } else {
      var s, rest := readable[0], readable[1..];
      var a, d, h := Accepts(rest, recv), Delivered(rest, recv), Hangup(rest, recv);
      if s == ServerSocket {
        ScanClosedForm(Accept(st), rest, recv);
        AfterScanAccept(st, a, d, h);
      } else if recv(s) != [] {
        ScanClosedForm(st.(queue := st.queue + [recv(s)]), rest, recv);
        AfterScanDeliver(st, recv(s), a, d, h);
      } else {
        assert st.readList + Range(st.nextId, 0) == st.readList;
        assert st.queue + [] == st.queue;
      }
    }
  }

  /** A hang-up ends the scan: nothing after it in the readable list is
      served, `_sock` and the queue stay as they were, and only that socket
      leaves `read_list`. */
  lemma HangupEndsScan(st: ListenerState, s: SocketId, rest: seq<SocketId>, rest2: seq<SocketId>, recv: SocketId -> seq<byte>)
    requires s != ServerSocket && recv(s) == []
    ensures Scan(st, [s] + rest, recv) == Scan(st, [s] + rest2, recv)
    ensures Scan(st, [s] + rest, recv).sock == st.sock
    ensures Scan(st, [s] + rest, recv).queue == st.queue
    ensures Scan(st, [s] + rest, recv).readList == Remove(st.readList, s)
    ensures Scan(st, [s] + rest, recv).closed == st.closed + {s}
  {
  }

  /** `remove` takes out exactly the first occurrence and keeps the order of
      the rest. */
  lemma {:induction false} RemoveSplits(l: seq<SocketId>, s: SocketId, i: nat)
    requires i < |l| && l[i] == s && s !in l[..i]
    ensures Remove(l, s) == l[..i] + l[i + 1..]
    decreases i
  {
    if i > 0 {
      assert l[0] != s by { assert l[0] == l[..i][0]; }
      RemoveSplits(l[1..], s, i - 1);
      assert l[1..][..i - 1] == l[1..i];
      assert l[..i] == [l[0]] + l[1..i];
    }
  }

  /** Removing from a list without repeats: `s` is gone, every other member
      stays, no repeats appear, and the head stays when it is not `s`. */
  lemma {:induction false} RemoveFromDistinct(l: seq<SocketId>, s: SocketId)
    requires Distinct(l)
    ensures s !in Remove(l, s)
    ensures forall x :: x != s ==> (x in Remove(l, s) <==> x in l)
    ensures Distinct(Remove(l, s))
    ensures |l| > 0 && l[0] != s ==> |Remove(l, s)| > 0 && Remove(l, s)[0] == l[0]
    decreases |l|
  {
    if l != [] {
      DistinctTail(l);
      if l[0] != s {
        RemoveFromDistinct(l[1..], s);
        var r := Remove(l[1..], s);
        assert Remove(l, s) == [l[0]] + r;
        forall i, j | 0 <= i < j < |[l[0]] + r|
          ensures ([l[0]] + r)[i] != ([l[0]] + r)[j]
        {
          assert ([l[0]] + r)[j] == r[j - 1] && r[j - 1] in r;
          if i > 0 {
            assert ([l[0]] + r)[i] == r[i - 1];
          }
        }
      }
    }
  }

  lemma DistinctTail(l: seq<SocketId>)
    requires Distinct(l) && l != []
    ensures Distinct(l[1..]) && l[0] !in l[1..]
  {
    forall j | 0 <= j < |l| - 1
      ensures l[1..][j] != l[0]
    {
      assert l[1..][j] == l[j + 1];
    }
  }

  /** No socket appears twice. */
  predicate Distinct(l: seq<SocketId>)
  {
    forall i, j :: 0 <= i < j < |l| ==> l[i] != l[j]
  }

  /** The bookkeeping the listener keeps: the server socket heads
      `read_list`, which has no repeats; every client ever accepted is either
      still watched or closed, never both; nothing is numbered beyond the
      clients accepted; and `_sock`, when set, is an accepted client. */
  ghost predicate ListenerInv(st: ListenerState)
  {
    && |st.readList| >= 1 && st.readList[0] == ServerSocket
    && Distinct(st.readList)
    && (forall i :: 1 <= i < |st.readList| ==> 0 < st.readList[i] < st.nextId)
    && (forall s :: s in st.closed ==> s < st.nextId)
    && (forall s :: s in st.readList ==> s !in st.closed)
    && (forall c :: 0 < c < st.nextId ==> c in st.readList || c in st.closed)
    && (st.sock.Some? ==> 0 < st.sock.value < st.nextId)
    && st.nextId >= 1
  }

  lemma AcceptKeepsInv(st: ListenerState)
    requires ListenerInv(st)
    ensures ListenerInv(Accept(st))
  {
    var r := Accept(st);
    forall i, j | 0 <= i < j < |r.readList|
      ensures r.readList[i] != r.readList[j]
    {
      if j == |st.readList| && i > 0 {
        assert r.readList[i] == st.readList[i] < st.nextId;
      }
    }
    forall c | 0 < c < r.nextId
      ensures c in r.readList || c in r.closed
    {
      if c == st.nextId {
        assert r.readList[|st.readList|] == c;
      } else if c in st.readList {
        var k :| 0 <= k < |st.readList| && st.readList[k] == c;
        assert r.readList[k] == c;
      }
    }
    forall s | s in r.readList
      ensures s !in r.closed
    {
      var k :| 0 <= k < |r.readList| && r.readList[k] == s;
      if k < |st.readList| {
        assert st.readList[k] == s;
      }
    }
  }

  lemma HangupKeepsInv(st: ListenerState, s: SocketId)
    requires ListenerInv(st) && s != ServerSocket && s in st.readList
    ensures ListenerInv(st.(readList := Remove(st.readList, s), closed := st.closed + {s}))
  {
    var r := st.(readList := Remove(st.readList, s), closed := st.closed + {s});
    RemoveFromDistinct(st.readList, s);
    var k :| 0 <= k < |st.readList| && st.readList[k] == s;
    assert k > 0;
    forall i | 1 <= i < |r.readList|
      ensures 0 < r.readList[i] < r.nextId
    {
      var x := r.readList[i];
      assert x in st.readList;
      var m :| 0 <= m < |st.readList| && st.readList[m] == x;
      assert m != 0 by { assert r.readList[0] == ServerSocket; }
    }
  }

  /** Every scan keeps the bookkeeping, provided `select` only reported
      sockets from `read_list`. In particular the server socket is never
      removed and stays first. */
  lemma {:induction false} ScanKeepsInv(st: ListenerState, readable: seq<SocketId>, recv: SocketId -> seq<byte>)
    requires ListenerInv(st)
    requires forall s :: s in readable ==> s in st.readList
    ensures ListenerInv(Scan(st, readable, recv))
    decreases |readable|
  {
    if readable != [] {
      var s, rest := readable[0], readable[1..];
      if s == ServerSocket {
        AcceptKeepsInv(st);
        ScanKeepsInv(Accept(st), rest, recv);
      } else if recv(s) != [] {
        ScanKeepsInv(st.(queue := st.queue + [recv(s)]), rest, recv);
      } else {
        HangupKeepsInv(st, s);
      }
    }
  }

  /** After the shutdown every client ever accepted is closed, so is the
      server socket, and `_sock`, when set, names a closed socket. */
  lemma ShutdownClosesEverything(st: ListenerState)
    requires ListenerInv(st)
    ensures forall c :: 0 <= c < st.nextId ==> c in Shutdown(st).closed
    ensures st.sock.Some? ==> st.sock.value in Shutdown(st).closed
  {
  }
}
