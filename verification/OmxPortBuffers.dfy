/** The functions of codec_OMX.c that work on a port's buffers, against the critical sections and the
    agreement of OmxPorts. */
module OmxPortBuffers {
  import opened Memory
  import opened OmxInputs
  import opened OmxPorts

  /** What the component is given to decode. */
  datatype Packet = Header(bytes: seq<uint8>) | Frame(bytes: seq<uint8>, time: int)

  const WMV3 := 1  // VIDEO_FORMAT_WMV3, the one format with a header to send first

  /** n copies of the header packet. */
  ghost function Headers(header: seq<uint8>, n: int): (r: seq<Packet>)
    ensures |r| == Max(0, n)
  {
    if n <= 0 then [] else Headers(header, n - 1) + [Header(header)]
  }

  /** What one call of video_dec_in sends: the headers, then the frame if it was taken. */
  ghost function Sent(header: seq<uint8>, headers: int, data: seq<uint8>, time: int, decoded: int): seq<Packet> {
    Headers(header, headers) + (if decoded > 0 then [Frame(data, time)] else [])
  }

  /** What a call has done after n sends: h of h0 headers are still to be sent, and decoded bytes went. */
  ghost predicate Progress(mail: seq<Packet>, box: seq<Packet>, header: seq<uint8>, data: seq<uint8>, time: int,
      format: int, h0: int, h: int, decoded: int, n: nat)
  {
    && n == (h0 - h) + (if decoded > 0 then 1 else 0)
    && (decoded == 0 || (decoded == |data| && h <= 0))
    && h <= h0 && (h < h0 ==> 0 <= h)
    && box == mail + Sent(header, h0 - h, data, time, decoded)
    && (h0 > 0 && format != WMV3 ==> n == 0)
  }

  lemma HeaderProgress(mail: seq<Packet>, box: seq<Packet>, header: seq<uint8>, data: seq<uint8>, time: int,
      format: int, h0: int, h: int, n: nat)
    requires Progress(mail, box, header, data, time, format, h0, h, 0, n) && h > 0 && format == WMV3
    ensures Progress(mail, box + [Header(header)], header, data, time, format, h0, h - 1, 0, n + 1)
  {
  }

  lemma FrameProgress(mail: seq<Packet>, box: seq<Packet>, header: seq<uint8>, data: seq<uint8>, time: int,
      format: int, h0: int, h: int, n: nat)
    requires Progress(mail, box, header, data, time, format, h0, h, 0, n) && h <= 0 && data != []
    ensures Progress(mail, box + [Frame(data, time)], header, data, time, format, h0, h, |data|, n + 1)
  {
  }

  class OmxPort {
    const buffers: array<BufferState>
    const frames: seq<int>  // the frame of each buffer
    var nbOmx: int
    var nbOmxMax: int
    var fifo: seq<nat>
    var locked: bool        // the port's mutex, held by the decoder thread
    ghost var held: set<nat>
    ghost var owned: set<nat>
    ghost var filled: seq<nat>
    ghost var gone: seq<nat>
    ghost var inbox: seq<Packet>  // everything the component was given, in order

    ghost function Abs(): Port
      reads this, buffers
    {
      Port(buffers[..], nbOmx, nbOmxMax, fifo, held, owned, filled, gone)
    }

    predicate IsFree(i: nat)
      reads buffers
      requires i < buffers.Length
    {
      buffers[i] == READY || buffers[i] == INIT
    }

    /** omx_buffer_send_locked */
    method SendLocked(i: nat)
      requires i < buffers.Length
      modifies buffers, this`nbOmx, this`held
      ensures Abs() == Send(old(Abs()), i)
      ensures old(nbOmx) < nbOmxMax ==>
        buffers[..] == old(buffers[..])[i := OMX] && nbOmx == old(nbOmx) + 1 && held == old(held) + {i}
      ensures old(nbOmx) >= nbOmxMax ==> Abs() == old(Abs())
    {
      if nbOmx < nbOmxMax {
        nbOmx := nbOmx + 1;
        buffers[i] := OMX;
        held := held + {i};
      }
    }

    /** omx_buffer_get_done_locked without waiting: -1 when the FIFO is empty. */
    method GetDoneLocked() returns (i: int)
      requires Sound(Abs())
      modifies buffers, this`fifo, this`owned, this`gone
      ensures Keeps(old(Abs()), Abs()) && Abs() == GetDone(old(Abs()))
      ensures i == -1 <==> old(fifo) == []
      ensures i == -1 ==> Abs() == old(Abs())
      ensures i != -1 ==> i == old(fifo)[0] && fifo == old(fifo)[1..] && buffers[..] == old(buffers[..])[i := OUT]
      ensures i != -1 ==> owned == old(owned) + {i as nat} && gone == old(gone) + [i as nat]
    {
      GetDoneKeeps(Abs());
      if fifo == [] {
        return -1;
      }
      GetDoneFinds(Abs());
      i := fifo[0];
      fifo := fifo[1..];
      buffers[i] := OUT;
      owned := owned + {i as nat};
      gone := gone + [i as nat];
    }

    ghost predicate SomeFree()
      reads buffers
    {
      exists i: nat :: i < buffers.Length && IsFree(i)
    }

    /** omx_buffer_get_free_locked without waiting: the first free buffer, or -1. */
    method GetFreeLocked() returns (i: int)
      ensures -1 <= i < buffers.Length
      ensures i != -1 ==> IsFree(i) && forall j :: 0 <= j < i ==> !IsFree(j)
      ensures i == -1 ==> !SomeFree()
    {
      i := -1;
      var k := 0;
      while k < buffers.Length && i == -1
        invariant 0 <= k <= buffers.Length && -1 <= i < k
        invariant i != -1 ==> IsFree(i) && forall j :: 0 <= j < i ==> !IsFree(j)
        invariant i == -1 ==> forall j :: 0 <= j < k ==> !IsFree(j)
      {
        if buffers[k] == READY || buffers[k] == INIT {
          i := k;
        }
        k := k + 1;
      }
    }

    /** omx_fill_buffer_done */
    method FillBufferDone(i: nat)
      requires Sound(Abs()) && i in held
      modifies buffers, this`nbOmx, this`fifo, this`held, this`filled
      ensures Keeps(old(Abs()), Abs()) && Abs() == FillDone(old(Abs()), i)
      ensures buffers[..] == old(buffers[..])[i := OMX_DONE] && nbOmx == old(nbOmx) - 1
      ensures fifo == old(fifo) + [i] && held == old(held) - {i} && filled == old(filled) + [i]
    {
      FillDoneKeeps(Abs(), i);
      nbOmx := nbOmx - 1;
      buffers[i] := OMX_DONE;
      fifo := fifo + [i];
      held := held - {i};
      filled := filled + [i];
    }

    /** omx_empty_buffer_done */
    method EmptyBufferDone(i: nat)
      requires InputAgrees(Abs()) && i in held
      modifies buffers, this`nbOmx, this`held
      ensures InputAgrees(Abs()) && Abs() == EmptyDone(old(Abs()), i)
      ensures buffers[..] == old(buffers[..])[i := READY] && nbOmx == old(nbOmx) - 1 && held == old(held) - {i}
    {
      EmptyDoneKeepsInput(Abs(), i);
      nbOmx := nbOmx - 1;
      buffers[i] := READY;
      held := held - {i};
    }

    /** omx_port_get_buffer_from_frame */
    method BufferFromFrame(frame: int) returns (i: int)
      requires |frames| == buffers.Length
      ensures -1 <= i < |frames|
      ensures i != -1 ==> frames[i] == frame && frame !in frames[..i]
      ensures i == -1 <==> frame !in frames
    {
      for k := 0 to buffers.Length
        invariant frame !in frames[..k]
      {
        if frames[k] == frame {
          return k;
        }
      }
      return -1;
    }

    /** video_put_out with a frame and no pending event. The client hands in a frame it holds, or one the
        port does not know. */
    method PutOut(frame: int) returns (error: int)
      requires |frames| == buffers.Length && Sound(Abs())
      requires forall i: nat :: i < |frames| && frames[i] == frame && frame !in frames[..i] ==> i in owned
      modifies buffers, this`nbOmx, this`held, this`owned
      ensures error == if frame in frames then 0 else 1
      ensures error == 1 ==> Abs() == old(Abs())
      ensures error == 0 ==> exists i: nat :: i < |frames| && frames[i] == frame && Abs() == OmxPorts.PutOut(old(Abs()), i)
      ensures Keeps(old(Abs()), Abs())
      ensures error == 0 ==> nbOmx == nbOmxMax || forall j :: 0 <= j < buffers.Length ==> buffers[j] != READY
    {
      var b := BufferFromFrame(frame);
      if b == -1 {
        return 1;
      }
      PutOutKeeps(Abs(), b);
      PutOutFeeds(Abs(), b);
      ghost var target := OmxPorts.PutOut(Abs(), b);
      buffers[b] := READY;
      owned := owned - {b as nat};
      assert Feed(Abs(), 0) == target;
      var i := 0;
      while i < buffers.Length && nbOmx < nbOmxMax
        invariant 0 <= i <= buffers.Length
        invariant Feed(Abs(), i) == target
      {
        if buffers[i] == READY {
          SendLocked(i);
        }
        i := i + 1;
      }
      assert Abs() == target;
      return 0;
    }

    /** The loop of omx_buffer_wait_all_done once the component has returned every buffer. */
    method DrainFifo()
      requires nbOmx == 0
      modifies this`fifo, this`filled, this`gone
      ensures Abs() == Drain(old(Abs())) && fifo == []
    {
      while fifo != []
        decreases |fifo|
      {
        fifo := fifo[1..];
      }
      filled, gone := [], [];
    }

    /** omx_port_reconfigure without a reallocation, after the drain: the component asked for `count`
        buffers. */
    method ReconfigureDrained(count: int)
      requires Sound(Abs()) && nbOmx == 0 && fifo == []
      modifies buffers, this`nbOmx, this`nbOmxMax, this`held
      ensures nbOmxMax >= old(nbOmxMax) && nbOmx == Min(old(Drained(Abs())), nbOmxMax)
      ensures Abs() == Resend(old(Abs()).(max := NewMax(old(nbOmxMax), count)), 0)
      ensures Sound(Abs()) && (Agree(Abs()) <==> old(Drained(Abs())) <= nbOmxMax)
    {
      var actual := count;
      if nbOmxMax > actual {
        actual := nbOmxMax;
      }
      nbOmxMax := actual;
      ResendRestoresIff(Abs());
      ghost var target := Resend(Abs(), 0);
      for i := 0 to buffers.Length
        invariant Resend(Abs(), i) == target && nbOmxMax == actual
      {
        if buffers[i] == OMX_DONE {
          SendLocked(i);
        }
      }
      assert Abs() == target;
    }

    /** One pass of video_dec_in's loop from omx_buffer_send_locked on: on an input port a send to a free
        buffer always reaches the component. */
    method SendPacket(i: nat, ghost packet: Packet)
      requires InputAgrees(Abs()) && i < buffers.Length && IsFree(i)
      modifies buffers, this`nbOmx, this`held, this`inbox
      ensures InputAgrees(Abs()) && i in held && Abs() == Send(old(Abs()), i)
      ensures inbox == old(inbox) + [packet]
    {
      FreeMeansRoom(Abs(), i);
      SendKeepsInput(Abs(), i);
      SendLocked(i);
      inbox := inbox + [packet];
    }

    /** One pass of the loop: a header if one is still to be sent, else the frame. */
    method DecPass(b: nat, data: seq<uint8>, time: int, format: int, header: seq<uint8>, doHeader: int)
        returns (error: int, decoded: int, doHeader': int)
      requires InputAgrees(Abs()) && b < buffers.Length && IsFree(b)
      modifies buffers, this`nbOmx, this`held, this`inbox
      ensures error == if doHeader > 0 && format != WMV3 then 1 else 0
      ensures error == 1 ==> Abs() == old(Abs()) && inbox == old(inbox) && decoded == 0 && doHeader' == doHeader
      ensures error == 0 ==> Abs() == Send(old(Abs()), b) && InputAgrees(Abs())
      ensures error == 0 && doHeader > 0 ==>
        doHeader' == doHeader - 1 && decoded == 0 && inbox == old(inbox) + [Header(header)]
      ensures error == 0 && doHeader <= 0 ==>
        doHeader' == doHeader && decoded == |data| && inbox == old(inbox) + [Frame(data, time)]
    {
      error, decoded, doHeader' := 0, 0, doHeader;
      if doHeader > 0 {
        if format == WMV3 {
          doHeader' := doHeader - 1;
        } else {
          error := 1;
          return;
        }
        SendPacket(b, Header(header));
      } else {
        decoded := |data|;
        SendPacket(b, Frame(data, time));
      }
    }

    /** The loop of video_dec_in under the mutex, b being the first free buffer or -1. */
    method DecLoop(first: int, data: seq<uint8>, time: int, format: int, header: seq<uint8>, doHeader: int)
        returns (error: int, decoded: int, doHeader': int, ghost sends: seq<InAction>)
      requires InputAgrees(Abs()) && -1 <= first < buffers.Length
      requires if first == -1 then !SomeFree() else IsFree(first)
      modifies buffers, this`nbOmx, this`held, this`inbox
      ensures IsSends(old(Abs()), sends, Abs()) && InputAgrees(Abs())
      ensures Progress(old(inbox), inbox, header, data, time, format, doHeader, doHeader', decoded, |sends|)
      ensures error == if doHeader > 0 && format != WMV3 && data != [] && first != -1 then 1 else 0
      ensures error == 0 && decoded < |data| ==> !SomeFree()
    {
      decoded, doHeader', sends, error := 0, doHeader, [], 0;
      ghost var before, mail := Abs(), inbox;
      var b := first;
      while decoded < |data| && b != -1
        invariant -1 <= b < buffers.Length && error == 0
        invariant IsSends(before, sends, Abs()) && InputAgrees(Abs())
        invariant Progress(mail, inbox, header, data, time, format, doHeader, doHeader', decoded, |sends|)
        invariant decoded < |data| ==> if b == -1 then !SomeFree() else IsFree(b)
        invariant sends == [] ==> b == first
        decreases |data| - decoded, doHeader'
      {
        ghost var box, h, p := inbox, doHeader', Abs();
        error, decoded, doHeader' := DecPass(b, data, time, format, header, doHeader');
        if error != 0 {
          return;
        }
        if h > 0 {
          HeaderProgress(mail, box, header, data, time, format, doHeader, h, |sends|);
        } else {
          FrameProgress(mail, box, header, data, time, format, doHeader, h, |sends|);
        }
        SendsAppend(before, sends, p, b);
        sends := sends + [Accept(b)];
        b := GetFreeLocked();
      }
    }

    /** video_dec_in from the lock of the port's mutex on. A frame goes to the component whole and once,
        or not at all, and after the header that is still to be sent; it is refused only when every
        buffer is with the component. To the port it is that many sends. The error return is taken with
        the mutex still locked. */
    method DecIn(data: seq<uint8>, time: int, format: int, header: seq<uint8>, doHeader: int)
        returns (error: int, decoded: int, doHeader': int, ghost sends: seq<InAction>)
      requires InputAgrees(Abs()) && !locked
      modifies buffers, this`nbOmx, this`held, this`inbox, this`locked
      ensures IsSends(old(Abs()), sends, Abs()) && InputAgrees(Abs())
      ensures |sends| == (doHeader - doHeader') + if decoded > 0 then 1 else 0
      ensures error == if doHeader > 0 && format != WMV3 && data != [] && old(SomeFree()) then 1 else 0
      ensures locked <==> error == 1
      ensures doHeader' <= doHeader && (doHeader' < doHeader ==> 0 <= doHeader')
      ensures decoded == 0 || decoded == |data|
      ensures inbox == old(inbox) + Sent(header, doHeader - doHeader', data, time, decoded)
      ensures decoded > 0 ==> doHeader' <= 0
      ensures error == 0 && decoded < |data| ==> !SomeFree()
    {
      locked := true;
      ghost var some := SomeFree();
      var first := GetFreeLocked();
      assert some <==> first != -1;
      error, decoded, doHeader', sends := DecLoop(first, data, time, format, header, doHeader);
      if error == 0 {
        locked := false;
      }
    }
  }
}
