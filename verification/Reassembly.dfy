/** The reassembly of fragmented text frames in newt_ws.c: a heap buffer that grows by the
    fragments of one payload and is handed to a queue when it is full. */
module Reassembly {
  import opened Bytes
  import opened Wrappers

  /** WS_RX_MAX */
  const RX_MAX: nat := 65536

  /** One data event of the websocket client. */
  datatype Fragment = Fragment(payloadLen: int, payloadOffset: int, data: seq<byte>)

  /** What the environment grants: memory for the assembly and for the copy, a queue place. */
  datatype Grants = Grants(assembly: bool, copy: bool, place: bool)

  datatype Partial = Partial(cap: nat, bytes: seq<byte>)

  datatype Rx = Rx(partial: Option<Partial>, queue: seq<seq<byte>>)

  /** An assembly is dropped as soon as it is full, and never outgrows the limit. */
  predicate Sane(s: Rx) {
    s.partial.Some? ==> |s.partial.value.bytes| < s.partial.value.cap <= RX_MAX
  }

  function Enqueued(s: Rx, buf: seq<byte>, g: Grants): Rx {
    if g.copy && g.place then s.(queue := s.queue + [buf]) else s
  }

  /** The fragment is added if it fits; a full assembly is enqueued. */
  function Appended(s: Rx, data: seq<byte>, g: Grants): Rx
    requires s.partial.Some?
  {
    var p := s.partial.value;
    var bytes := if |p.bytes| + |data| <= p.cap then p.bytes + data else p.bytes;
    if |bytes| >= p.cap then Enqueued(s, bytes, g).(partial := None) else s.(partial := Some(Partial(p.cap, bytes)))
  }

  /** handle_text_frame */
  function Handle(s: Rx, f: Fragment, g: Grants): Rx {
    if !(f.payloadLen > 0 && f.payloadLen > |f.data|) then Enqueued(s, f.data, g)
    else
      var t := if f.payloadOffset != 0 then s
               else if f.payloadLen > RX_MAX || !g.assembly then s.(partial := None)
               else s.(partial := Some(Partial(f.payloadLen, [])));
      if t.partial.None? then t else Appended(t, f.data, g)
  }

  lemma HandleSane(s: Rx, f: Fragment, g: Grants)
    requires Sane(s)
    ensures Sane(Handle(s, f, g))
  {
  }

  /** memcpy into the assembly */
  method Fill(buffer: array<byte>, at: nat, data: seq<byte>)
    requires at + |data| <= buffer.Length
    modifies buffer
    ensures buffer[..at + |data|] == old(buffer[..at]) + data
  {
    for i := 0 to |data|
      invariant buffer[..at + i] == old(buffer[..at]) + data[..i]
    {
      buffer[at + i] := data[i];
    }
  }

  /** The client's static variables. */
  class Receiver {
    var assembly: array?<byte>
    var len: nat
    var cap: nat
    var queue: seq<seq<byte>>

    ghost predicate Valid()
      reads this, assembly
    {
      if assembly == null then len == 0 && cap == 0 else assembly.Length == cap && len < cap <= RX_MAX
    }

    ghost function View(): Rx
      requires Valid()
      reads this, assembly
    {
      Rx(if assembly == null then None else Some(Partial(cap, assembly[..len])), queue)
    }

    constructor ()
      ensures Valid() && View() == Rx(None, [])
    {
      assembly, len, cap, queue := null, 0, 0, [];
    }

    /** enqueue_payload */
    method EnqueuePayload(buf: seq<byte>, g: Grants)
      modifies this`queue
      ensures queue == if g.copy && g.place then old(queue) + [buf] else old(queue)
    {
      if g.copy {
        if g.place {
          queue := queue + [buf];
        }
      }
    }

    method HandleTextFrame(f: Fragment, g: Grants)
      requires Valid()
      modifies this, assembly
      ensures Valid() && View() == Handle(old(View()), f, g)
    {
      if f.payloadLen > 0 && f.payloadLen > |f.data| {
        if f.payloadOffset == 0 {
          assembly, len, cap := null, 0, 0;
          if f.payloadLen > RX_MAX {
            return;
          }
          cap := f.payloadLen;
          if g.assembly {
            assembly := new byte[cap];
          }
          if assembly == null {
            cap := 0;
            return;
          }
        }
        if assembly == null {
          return;
        }
        Append(f.data, g);
        return;
      }
      EnqueuePayload(f.data, g);
    }

    /** The copy into the assembly and the hand-over of a full one. */
    method Append(data: seq<byte>, g: Grants)
      requires Valid() && assembly != null
      modifies this, assembly
      ensures Valid() && View() == Appended(old(View()), data, g)
    {
      if len + |data| <= cap {
        Fill(assembly, len, data);
        len := len + |data|;
      }
      if len >= cap {
        EnqueuePayload(assembly[..len], g);
        assembly, cap, len := null, 0, 0;
      }
    }
  }

  // The payload comes out whole

  const ALL := Grants(true, true, true)

  function Concat(chunks: seq<seq<byte>>): seq<byte> {
    if chunks == [] then [] else Concat(chunks[..|chunks| - 1]) + chunks[|chunks| - 1]
  }

  /** The client receives a payload of n bytes in order, chunk by chunk. */
  function Received(s: Rx, chunks: seq<seq<byte>>, n: nat): Rx {
    if chunks == [] then s
    else
      var before := chunks[..|chunks| - 1];
      Handle(Received(s, before, n), Fragment(n, |Concat(before)|, chunks[|chunks| - 1]), ALL)
  }

  /** After some of the chunks: what has come so far is in the assembly, or already out. */
  lemma {:induction false} ReceivedSoFar(s: Rx, chunks: seq<seq<byte>>, n: nat)
    requires Sane(s) && 0 < n <= RX_MAX && |Concat(chunks)| <= n
    ensures var c := Concat(chunks); var t := Received(s, chunks, n);
            && Sane(t) && t.queue == (if |c| == n then s.queue + [c] else s.queue)
            && (0 < |c| < n ==> t.partial == Some(Partial(n, c)))
    decreases |chunks|
  {
    if chunks != [] {
      var before, last := chunks[..|chunks| - 1], chunks[|chunks| - 1];
      ReceivedSoFar(s, before, n);
      assert Concat(chunks) == Concat(before) + last;
      HandleSane(Received(s, before, n), Fragment(n, |Concat(before)|, last), ALL);
      if Concat(before) == [] {
        assert Concat(chunks) == last;
      } else if last == [] {
        assert Concat(chunks) == Concat(before);
      }
    }
  }

  /** From any prior state, the chunks of a payload of at most 65536 bytes, in order, cause
      exactly one message to be enqueued: the payload. Chunks may be empty. */
  lemma PayloadReassembled(s: Rx, chunks: seq<seq<byte>>)
    requires Sane(s) && 0 < |Concat(chunks)| <= 65536
    ensures Received(s, chunks, |Concat(chunks)|).queue == s.queue + [Concat(chunks)]
  {
    ReceivedSoFar(s, chunks, |Concat(chunks)|);
  }

  /** A longer payload is dropped, unless it comes in one piece. */
  lemma {:induction false} OversizeDropped(s: Rx, chunks: seq<seq<byte>>, n: nat)
    requires n > 65536 && (forall i :: 0 <= i < |chunks| ==> |chunks[i]| < n)
    ensures Received(s, chunks, n).queue == s.queue
    ensures chunks != [] ==> Received(s, chunks, n).partial.None?
    decreases |chunks|
  {
    if chunks != [] {
      OversizeDropped(s, chunks[..|chunks| - 1], n);
    }
  }

  // Every fragment

  /** The exact effect of one fragment: a payload in one piece goes to the queue and leaves the
      assembly alone; a first fragment replaces any assembly, unless the payload is longer than
      65536 bytes or there is no memory; a later one is ignored without an assembly or if it does
      not fit, is added otherwise, and completes the payload if it fills the assembly. */
  lemma HandleExactly(s: Rx, f: Fragment, g: Grants)
    requires Sane(s)
    ensures var t := Handle(s, f, g); var sent := g.copy && g.place;
            if f.payloadLen <= |f.data| then t == Rx(s.partial, s.queue + if sent then [f.data] else [])
            else if f.payloadOffset == 0 then
              t == Rx(if f.payloadLen <= 65536 && g.assembly then Some(Partial(f.payloadLen, f.data)) else None,
                      s.queue)
            else if s.partial.None? then t == s
            else
              var p := s.partial.value; var bytes := p.bytes + f.data;
              if |bytes| > p.cap then t == s
              else if |bytes| < p.cap then t == Rx(Some(Partial(p.cap, bytes)), s.queue)
              else t == Rx(None, s.queue + if sent then [bytes] else [])
  {
    assert [] + f.data == f.data;
  }
}
