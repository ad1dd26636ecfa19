// Network/Session.cpp: one client connection with its send and receive byte buffers.
// The socket calls are parameters: `SendResult` is what `send` returned and
// `RecvResult` is what `recv` delivered.
module Sessions {

  type Byte = b: int | 0 <= b < 256

  /** `Session::EState`. */
  datatype SessionState = Wait | QueueingMatch | InRoom | Closed | Empty

  /** The outcome of `send`: a byte count, or `SOCKET_ERROR`. */
  datatype SendResult = Sent(count: int) | SendError

  /** The outcome of `recv`: the bytes read (empty when the peer shut down), or
      `SOCKET_ERROR`. */
  datatype RecvResult = Received(bytes: seq<Byte>) | RecvError

  /** What the framing loop makes of buffered bytes: the frames it hands on, in order,
      and the bytes it leaves buffered. */
  datatype Framing = Framing(frames: seq<seq<Byte>>, rest: seq<Byte>)

  function Concat(frames: seq<seq<Byte>>): (r: seq<Byte>)
    ensures frames == [] ==> r == []
  {
    if frames == [] then [] else frames[0] + Concat(frames[1..])
  }

  /** The framing the receive loop is meant to perform: each frame starts with a one-byte
      `Size` header counting the whole frame; a frame is cut off only when all of it has
      arrived, and the loop stops at an incomplete frame. A zero `Size` would never
      advance the cursor, so it stops the loop too. */
  function Frames(data: seq<Byte>): (r: Framing)
    ensures |r.rest| <= |data|
    ensures r.frames == [] <==> |data| == 0 || data[0] == 0 || data[0] > |data|
    decreases |data|
  {
    if |data| == 0 then Framing([], [])
    else if data[0] == 0 || data[0] > |data| then Framing([], data)
    else
      var tail := Frames(data[data[0]..]);
      Framing([data[..data[0]]] + tail.frames, tail.rest)
  }

  /** Framing loses, duplicates and reorders nothing: the frames followed by the kept
      bytes are exactly the input. */
  lemma {:induction false} FramesPartition(data: seq<Byte>)
    ensures Concat(Frames(data).frames) + Frames(data).rest == data
    decreases |data|
  {
    if |data| > 0 && !(data[0] == 0 || data[0] > |data|) {
      var size: nat := data[0];
      var head, after := data[..size], data[size..];
      var tail := Frames(after);
      assert Frames(data) == Framing([head] + tail.frames, tail.rest);
      FramesPartition(after);
      ConcatCons(head, tail.frames);
      assert Concat(tail.frames) + tail.rest == after;
      TakeDrop(data, size);
    }
  }

  lemma TakeDrop(s: seq<Byte>, n: nat)
    requires n <= |s|
    ensures s[..n] + s[n..] == s
  {
  }

  lemma ConcatCons(frame: seq<Byte>, frames: seq<seq<Byte>>)
    ensures Concat([frame] + frames) == frame + Concat(frames)
  {
    assert ([frame] + frames)[1..] == frames;
  }

  /** Every frame handed on carries its own length in its header byte. */
  lemma {:induction false} FramesAreWhole(data: seq<Byte>)
    ensures forall f | f in Frames(data).frames :: |f| > 0 && f[0] == |f|
    decreases |data|
  {
    if |data| > 0 && !(data[0] == 0 || data[0] > |data|) {
      FramesAreWhole(data[data[0]..]);
    }
  }

  /** What is kept is empty or starts with a frame that cannot be cut off yet. */
  lemma {:induction false} FramesStopAtIncomplete(data: seq<Byte>)
    ensures var rest := Frames(data).rest;
            rest == [] || rest[0] == 0 || rest[0] > |rest|
    decreases |data|
  {
    if |data| > 0 && !(data[0] == 0 || data[0] > |data|) {
      FramesStopAtIncomplete(data[data[0]..]);
    }
  }

  /** The framing loop as written in Session.cpp:78, whose test is `Size < recvBytes`:
      it stops when the frame at the cursor is SHORTER than what is buffered, and
      dispatches a frame at least as long as the buffered bytes. A frame longer than
      what is buffered moves the cursor past the data and wraps the unsigned byte count
      around: `Overrun` marks that undefined behaviour. */
  datatype LoopResult = Completed(framing: Framing) | Overrun

  function FramesAsWritten(data: seq<Byte>): (r: LoopResult)
    ensures r == Overrun <==> |data| > 0 && data[0] > |data|
    ensures r.Completed? ==>
              (r.framing == Framing([], data))
              || (|data| > 0 && data[0] == |data| && r.framing == Framing([data], []))
    decreases |data|
  {
    if |data| == 0 then Completed(Framing([], []))
    else if data[0] < |data| then Completed(Framing([], data))
    else if data[0] > |data| then Overrun
    else
      assert data[..data[0]] == data && data[data[0]..] == [];
      match FramesAsWritten(data[data[0]..])
      case Overrun => Overrun
      case Completed(tail) => Completed(Framing([data[..data[0]]] + tail.frames, tail.rest))
  }

  /** Two complete two-byte frames: the loop as written dispatches neither and keeps
      both buffered, where the intended framing dispatches both. */
  lemma TwoFramesAsWritten()
    ensures FramesAsWritten([2, 7, 2, 7]) == Completed(Framing([], [2, 7, 2, 7]))
    ensures Frames([2, 7, 2, 7]) == Framing([[2, 7], [2, 7]], [])
  {
    var two: seq<Byte> := [2, 7];
    assert two[2..] == [] && two[..2] == two;
    assert Frames(two) == Framing([two], []);
    assert [2, 7, 2, 7][2..] == two && [2, 7, 2, 7][..2] == two;
  }

  /** A frame whose first byte only has arrived: as written the loop runs past the data;
      the intended framing keeps the byte until the rest arrives. */
  lemma PartialFrameAsWritten()
    ensures FramesAsWritten([3]) == Overrun
    ensures Frames([3]) == Framing([], [3])
  {
  }

  /** Moves `a[from..to]` to the front of `a` (the `memcpy_s` to the buffer start in
      `ProcessSend` and `ProcessReceive`), copying forwards, so overlap is harmless. */
  method MoveToFront(a: array<Byte>, from: nat, to: nat)
    requires from <= to <= a.Length
    modifies a
    ensures a[..to - from] == old(a[from..to])
    ensures a[to - from..] == old(a[to - from..])
  {
    var i := 0;
    while i < to - from
      invariant 0 <= i <= to - from
      invariant forall j :: 0 <= j < i ==> a[j] == old(a[from + j])
      invariant forall j :: i <= j < a.Length ==> a[j] == old(a[j])
    {
      a[i] := a[from + i];
      i := i + 1;
    }
    assert a[..to - from] == old(a[from..to]);
  }

  /** Copies `data` into `a` starting at `at`. */
  method CopyInto(a: array<Byte>, at: nat, data: seq<Byte>)
    requires at + |data| <= a.Length
    modifies a
    ensures a[..at] == old(a[..at])
    ensures a[at..at + |data|] == data
  {
    var j := 0;
    while j < |data|
      invariant 0 <= j <= |data|
      invariant a[..at] == old(a[..at])
      invariant a[at..at + j] == data[..j]
    {
      a[at + j] := data[j];
      j := j + 1;
    }
  }

  class Session {
    const socket: int
    var state: SessionState
    var readBuffer: array<Byte>
    var recvBytes: nat
    var sendBuffer: array<Byte>
    var sendBytes: nat
    /** Whether a player controller is attached; frames go to it, otherwise to the
        waiting-room handler, whose body is empty. */
    var hasController: bool
    /** The frames handed to the attached controller, in order. */
    var delivered: seq<seq<Byte>>

    ghost predicate Valid()
      reads this
    {
      readBuffer != sendBuffer
      && recvBytes <= readBuffer.Length && sendBytes <= sendBuffer.Length
    }

    /** The bytes waiting to be sent. */
    function Pending(): seq<Byte>
      reads this, sendBuffer
      requires Valid()
    {
      sendBuffer[..sendBytes]
    }

    /** The received bytes not yet framed. */
    function Buffered(): seq<Byte>
      reads this, readBuffer
      requires Valid()
    {
      readBuffer[..recvBytes]
    }

    /** `Session( socket )`: both buffers hold 1024 bytes and are empty; the state is
        `Wait`. */
    constructor (socket: int)
      ensures Valid() && fresh(readBuffer) && fresh(sendBuffer)
      ensures this.socket == socket && state == Wait && !hasController && delivered == []
      ensures readBuffer.Length == 1024 && sendBuffer.Length == 1024
      ensures Pending() == [] && Buffered() == []
    {
      this.socket := socket;
      state := Wait;
      readBuffer := new Byte[1024];
      recvBytes := 0;
      sendBuffer := new Byte[1024];
      sendBytes := 0;
      hasController := false;
      delivered := [];
    }

    function GetSocket(): (s: int)
      reads this
      ensures s == socket
    {
      socket
    }

    function HasSendBytes(): (r: bool)
      reads this, sendBuffer
      requires Valid()
      ensures r <==> Pending() != []
    {
      sendBytes != 0
    }

    function IsClosed(): (r: bool)
      reads this
      ensures r <==> state == Closed
    {
      state == Closed
    }

    method SetState(state: SessionState)
      modifies this
      ensures this.state == state
      ensures readBuffer == old(readBuffer) && recvBytes == old(recvBytes)
      ensures sendBuffer == old(sendBuffer) && sendBytes == old(sendBytes)
      ensures hasController == old(hasController) && delivered == old(delivered)
    {
      this.state := state;
    }

    /** `Close`: a session whose socket handle is 0 is left alone; any other is marked
        closed (the socket itself is released by the system call, not modelled). */
    method Close()
      modifies this
      ensures state == if socket == 0 then old(state) else Closed
      ensures readBuffer == old(readBuffer) && recvBytes == old(recvBytes)
      ensures sendBuffer == old(sendBuffer) && sendBytes == old(sendBytes)
      ensures hasController == old(hasController) && delivered == old(delivered)
    {
      if socket == 0 {
        return;
      }
      SetState(Closed);
    }

    /** `SendByte`: appends `data` to the pending bytes unless the session is closed.
        When they do not fit, the buffer doubles once; the caller must not hand over
        more than that makes room for. */
    method SendByte(data: seq<Byte>)
      requires Valid()
      requires !IsClosed() ==> sendBytes + |data| <= 2 * sendBuffer.Length
      modifies this, sendBuffer
      ensures Valid()
      ensures old(IsClosed()) ==>
                sendBuffer == old(sendBuffer) && sendBytes == old(sendBytes)
                && sendBuffer[..] == old(sendBuffer[..])
      ensures !old(IsClosed()) ==> Pending() == old(Pending()) + data
      ensures state == old(state) && hasController == old(hasController) && delivered == old(delivered)
      ensures readBuffer == old(readBuffer) && recvBytes == old(recvBytes)
    {
      if IsClosed() {
        return;
      }
      if sendBytes + |data| > sendBuffer.Length {
        var bigger := new Byte[2 * sendBuffer.Length];
        CopyInto(bigger, 0, sendBuffer[..sendBytes]);
        sendBuffer := bigger;
      }
      CopyInto(sendBuffer, sendBytes, data);
      sendBytes := sendBytes + |data|;
      assert Pending() == sendBuffer[..old(sendBytes)] + sendBuffer[old(sendBytes)..sendBytes];
    }

    /** `ProcessSend`: after `send` took the first `count` pending bytes, the rest move
        to the front; a send error closes the session. */
    method ProcessSend(result: SendResult)
      requires Valid()
      requires result.Sent? ==> 0 <= result.count <= sendBytes
      modifies this, sendBuffer
      ensures Valid() && sendBuffer == old(sendBuffer)
      ensures result.SendError? ==> state == (if socket == 0 then old(state) else Closed)
                                    && Pending() == old(Pending())
      ensures result.Sent? ==> state == old(state) && Pending() == old(Pending())[result.count..]
      ensures hasController == old(hasController) && delivered == old(delivered)
      ensures readBuffer == old(readBuffer) && recvBytes == old(recvBytes)
    {
      match result
      case SendError =>
        Close();
      case Sent(count) =>
        MoveToFront(sendBuffer, count, sendBytes);
        sendBytes := sendBytes - count;
    }

    /** `ProcessReceive`: an error or an orderly shutdown closes the session; otherwise
        the received bytes are appended and then framed. `recv` may write as many bytes
        as the buffer holds starting at `recvBytes`, so the caller must not deliver more
        than fit. */
    method ProcessReceive(result: RecvResult)
      requires Valid()
      requires result.Received? ==> recvBytes + |result.bytes| <= readBuffer.Length
      modifies this, readBuffer
      ensures Valid() && readBuffer == old(readBuffer)
      ensures result.RecvError? || result.bytes == [] ==>
                state == (if socket == 0 then old(state) else Closed)
                && Buffered() == old(Buffered()) && delivered == old(delivered)
      ensures result.Received? && result.bytes != [] ==>
                var framing := Frames(old(Buffered()) + result.bytes);
                state == old(state) && Buffered() == framing.rest
                && delivered == old(delivered) + (if hasController then framing.frames else [])
      ensures hasController == old(hasController)
      ensures sendBuffer == old(sendBuffer) && sendBytes == old(sendBytes)
    {
      if result.RecvError? || result.bytes == [] {
        Close();
        return;
      }
      var incoming := result.bytes;
      CopyInto(readBuffer, recvBytes, incoming);
      recvBytes := recvBytes + |incoming|;
      assert Buffered() == old(Buffered()) + incoming by {
        assert Buffered() == readBuffer[..old(recvBytes)] + readBuffer[old(recvBytes)..recvBytes];
      }
      DispatchFrames();
    }

    /** The framing loop of `ProcessReceive`: hands every complete frame of the buffered
        bytes on, in order, and moves the remainder to the front of the buffer. */
    method DispatchFrames()
      requires Valid()
      modifies this, readBuffer
      ensures Valid() && readBuffer == old(readBuffer)
      ensures Buffered() == Frames(old(Buffered())).rest
      ensures delivered == old(delivered) + (if hasController then Frames(old(Buffered())).frames else [])
      ensures state == old(state) && hasController == old(hasController)
      ensures sendBuffer == old(sendBuffer) && sendBytes == old(sendBytes)
    {
      var dataEnd := recvBytes;
      var csr, handed := ScanFrames(readBuffer[..dataEnd]);
      if hasController {
        delivered := delivered + handed;
      }
      recvBytes := dataEnd - csr;
      if csr != 0 && csr != dataEnd {
        MoveToFront(readBuffer, csr, dataEnd);
      }
    }
  }

  /** The cursor loop itself: walks the first `dataEnd` bytes of `buffer` frame by
      frame and returns where it stopped together with the frames it passed. */
  method ScanFrames(data: seq<Byte>) returns (csr: nat, handed: seq<seq<Byte>>)
    ensures csr <= |data|
    ensures handed == Frames(data).frames
    ensures data[csr..] == Frames(data).rest
  {
    csr := 0;
    handed := [];
    ghost var whole := Frames(data);
    assert data[csr..] == data;
    while csr < |data| && 0 < data[csr] <= |data| - csr
      invariant csr <= |data|
      invariant whole == Resumed(data, csr, handed)
      decreases |data| - csr
    {
      var size := data[csr];
      var frame := data[csr..csr + size];
      FramesStep(data, csr, handed, frame);
      handed := handed + [frame];
      csr := csr + size;
    }
    FramesStop(data, csr);
  }

  /** The framing of the whole buffer, as seen from cursor `csr` once the frames in
      `handed` have been passed. */
  ghost function Resumed(data: seq<Byte>, csr: nat, handed: seq<seq<Byte>>): Framing
    requires csr <= |data|
  {
    var here := Frames(data[csr..]);
    Framing(handed + here.frames, here.rest)
  }

  /** One turn of the framing loop: a complete frame at `csr` is cut off first. */
  lemma FramesStep(data: seq<Byte>, csr: nat, handed: seq<seq<Byte>>, frame: seq<Byte>)
    requires csr < |data| && 0 < data[csr] <= |data| - csr
    requires frame == data[csr..csr + data[csr]]
    ensures Resumed(data, csr, handed) == Resumed(data, csr + data[csr], handed + [frame])
  {
    var d := data[csr..];
    assert d[0] == data[csr];
    assert d[data[csr]..] == data[csr + data[csr]..];
    assert d[..data[csr]] == frame;
    var next := Frames(data[csr + data[csr]..]);
    assert Frames(d) == Framing([frame] + next.frames, next.rest);
    assert handed + ([frame] + next.frames) == (handed + [frame]) + next.frames;
  }

  /** Where the framing loop stops, nothing further is cut off. */
  lemma FramesStop(data: seq<Byte>, csr: nat)
    requires csr <= |data|
    requires csr < |data| ==> data[csr] == 0 || data[csr] > |data| - csr
    ensures Frames(data[csr..]) == Framing([], data[csr..])
  {
    if csr < |data| {
      assert data[csr..][0] == data[csr];
    }
  }
}
