/**
 How an ota/command that arrives in pieces is put together (handle_ota_command_chunk in
 esp32/main/mqtt/mqtt_manager.c).
 */
module MqttReassembly {
  import opened Wrappers
  import opened OtaTypes

  const OTA_COMMAND_MAX: nat := 2048
  const NUL: byte := 0

  /** One MQTT_EVENT_DATA; only the first piece of a message carries the topic. */
  datatype Chunk = Chunk(topic: string, offset: int, total: int, data: seq<byte>)

  /** The buffer of a message on its way. */
  datatype Rx = Rx(total: nat, buf: seq<byte>)

  type Junk = s: seq<byte> | |s| == OTA_COMMAND_MAX + 1 witness seq(OTA_COMMAND_MAX + 1, _ => 0)

  /** What an allocation answers: none, or memory with anything in it. */
  type Memory = Option<Junk>

  // ---------------------------------------------------------------- one event

  predicate Wanted(topic: string, c: Chunk) {
    c.topic == topic && 0 < c.total <= OTA_COMMAND_MAX
  }

  function Opened(topic: string, rx: Option<Rx>, c: Chunk, memory: Memory): Option<Rx> {
    if c.offset != 0 then rx
    else if Wanted(topic, c) && memory.Some? then Some(Rx(c.total, memory.value[..c.total + 1]))
    else None
  }

  function Copied(buf: seq<byte>, at: nat, data: seq<byte>): seq<byte>
    requires at + |data| <= |buf|
  {
    buf[..at] + data + buf[at + |data|..]
  }

  /** The piece goes into the buffer, which is handed over when it is full and dropped when the piece does not fit. */
  function Continued(open: Rx, c: Chunk): (Option<Rx>, Option<seq<byte>>)
    requires |open.buf| == open.total + 1
  {
    var end := c.offset + |c.data|;
    if c.offset < 0 || end > open.total then (None, None)
    else
      var buf := Copied(open.buf, c.offset, c.data);
      if end == open.total then (None, Some(buf[open.total := NUL])) else (Some(Rx(open.total, buf)), None)
  }

  /** The buffer after the event and the payload that was handed over, if any. */
  function Handle(topic: string, rx: Option<Rx>, c: Chunk, memory: Memory): (Option<Rx>, Option<seq<byte>>)
    requires rx.Some? ==> |rx.value.buf| == rx.value.total + 1
  {
    match Opened(topic, rx, c, memory)
    case None => (None, None)
    case Some(open) => Continued(open, c)
  }

  /** Whether a message is under way once the topic and the length of the piece were looked at, and of what length. */
  predicate UnderWay(topic: string, rx: Option<Rx>, c: Chunk, memory: Memory) {
    if c.offset == 0 then c.topic == topic && 0 < c.total && c.total <= 2048 && memory.Some? else rx.Some?
  }

  function LengthOf(rx: Option<Rx>, c: Chunk): int {
    if c.offset == 0 || rx.None? then c.total else rx.value.total
  }

  /** The byte at `i` before the piece came: of the fresh memory, or of what was put together so far. */
  function ByteBefore(rx: Option<Rx>, c: Chunk, memory: Memory, i: nat): byte
    requires i <= 2048 && (c.offset == 0 ==> memory.Some?)
    requires c.offset != 0 ==> rx.Some? && i < |rx.value.buf|
  {
    if c.offset == 0 then memory.value[i] else rx.value.buf[i]
  }

  /** The buffer takes the bytes of the piece at their offset, and only there. */
  predicate Holds(rx: Option<Rx>, c: Chunk, memory: Memory, buf: seq<byte>, n: int)
    requires c.offset == 0 ==> memory.Some?
    requires c.offset != 0 ==> rx.Some? && n <= |rx.value.buf|
  {
    && 0 <= c.offset && 0 <= n <= |buf| && n <= 2049
    && forall i :: 0 <= i < n ==>
         buf[i] == if c.offset <= i < c.offset + |c.data| then c.data[i - c.offset] else ByteBefore(rx, c, memory, i)
  }

  /**
   Any piece at all, in order or not: it is dropped with everything before it when no wanted message is under
   way or when it does not fit; the piece that ends the message hands it over with a NUL behind it; and any
   other one only adds its bytes.
   */
  lemma HandleExactly(topic: string, rx: Option<Rx>, c: Chunk, memory: Memory)
    requires rx.Some? ==> |rx.value.buf| == rx.value.total + 1 && 0 < rx.value.total <= 2048
    ensures var (after, payload) := Handle(topic, rx, c, memory);
            var n := LengthOf(rx, c);
            if !UnderWay(topic, rx, c, memory) || c.offset < 0 || c.offset + |c.data| > n then
              after.None? && payload.None?
            else if c.offset + |c.data| == n then
              && after.None? && payload.Some? && |payload.value| == n + 1 && payload.value[n] == 0
              && Holds(rx, c, memory, payload.value, n)
            else
              && payload.None? && after.Some? && after.value.total == n && |after.value.buf| == n + 1
              && Holds(rx, c, memory, after.value.buf, n + 1)
  {
    if UnderWay(topic, rx, c, memory) {
      var open := Opened(topic, rx, c, memory).value;
      assert open.total == LengthOf(rx, c);
      assert forall i :: 0 <= i <= open.total ==> open.buf[i] == ByteBefore(rx, c, memory, i);
      ContinuedExactly(open, c);
    }
  }

  lemma CopiedAt(buf: seq<byte>, at: nat, data: seq<byte>)
    requires at + |data| <= |buf|
    ensures |Copied(buf, at, data)| == |buf|
    ensures forall i :: 0 <= i < |buf| ==>
              Copied(buf, at, data)[i] == if at <= i < at + |data| then data[i - at] else buf[i]
  {
  }

  /** `buf` is `open` with the bytes of the piece in it, as far as `n`. */
  predicate Filled(open: Rx, c: Chunk, buf: seq<byte>, n: nat)
    requires n <= |open.buf|
  {
    && n <= |buf|
    && forall i :: 0 <= i < n ==>
         buf[i] == if c.offset <= i < c.offset + |c.data| then c.data[i - c.offset] else open.buf[i]
  }

  lemma ContinuedExactly(open: Rx, c: Chunk)
    requires |open.buf| == open.total + 1
    ensures var (after, payload) := Continued(open, c);
            if c.offset < 0 || c.offset + |c.data| > open.total then after.None? && payload.None?
            else if c.offset + |c.data| == open.total then
              && after.None? && payload.Some? && |payload.value| == open.total + 1 && payload.value[open.total] == 0
              && Filled(open, c, payload.value, open.total)
            else
              && payload.None? && after.Some? && after.value.total == open.total && |after.value.buf| == open.total + 1
              && Filled(open, c, after.value.buf, open.total + 1)
  {
    if 0 <= c.offset && c.offset + |c.data| <= open.total {
      CopiedAt(open.buf, c.offset, c.data);
    }
  }

  method Allocate(n: nat, junk: Junk) returns (mem: array<byte>)
    requires n <= |junk|
    ensures fresh(mem) && mem[..] == junk[..n]
  {
    mem := new byte[n](i requires 0 <= i < n => junk[i]);
  }

  /** memcpy. */
  method CopyTo(buf: array<byte>, at: nat, data: seq<byte>)
    requires at + |data| <= buf.Length
    modifies buf
    ensures buf[..] == Copied(old(buf[..]), at, data)
  {
    forall i | 0 <= i < |data| {
      buf[at + i] := data[i];
    }
  }

  class Reassembler {
    const topic: string
    var rx: array?<byte>
    var total: nat

    ghost predicate Valid()
      reads this
    {
      rx != null ==> rx.Length == total + 1
    }

    ghost function View(): Option<Rx>
      requires Valid()
      reads this, rx
    {
      if rx == null then None else Some(Rx(total, rx[..]))
    }

    constructor (topic: string)
      ensures Valid() && View() == None && this.topic == topic
    {
      this.topic, rx, total := topic, null, 0;
    }

    /** The first piece of a message: whatever was under way is dropped, and a buffer is taken for a wanted message. */
    method Begin(c: Chunk, memory: Memory)
      requires Valid() && c.offset == 0
      modifies this
      ensures Valid() && View() == Opened(topic, old(View()), c, memory)
      ensures rx != null ==> fresh(rx)
    {
      rx := null;
      if c.topic != topic {
        return;
      }
      if c.total <= 0 || c.total > OTA_COMMAND_MAX {
        return;
      }
      total := c.total;
      if memory.None? {
        return;
      }
      var mem := Allocate(c.total + 1, memory.value);
      rx := mem;
    }

    /** Every write stays inside the buffer: Dafny checks each index of it. */
    method Continue(c: Chunk) returns (payload: Option<seq<byte>>)
      requires Valid() && rx != null
      modifies this, rx
      ensures Valid()
      ensures (View(), payload) == Continued(old(View()).value, c)
    {
      var end := c.offset + |c.data|;
      if c.offset < 0 || end > total {
        rx := null;
        return None;
      }
      CopyTo(rx, c.offset, c.data);
      if end == total {
        rx[total] := NUL;
        payload := Some(rx[..]);
        rx := null;
      } else {
        payload := None;
      }
    }

    method OnChunk(c: Chunk, memory: Memory) returns (payload: Option<seq<byte>>)
      requires Valid()
      modifies this, rx
      ensures Valid()
      ensures (View(), payload) == Handle(topic, old(View()), c, memory)
    {
      if c.offset == 0 {
        Begin(c, memory);
      }
      if rx == null {
        return None;
      }
      payload := Continue(c);
    }
  }

  // ---------------------------------------------------------------- whole messages

  /** The pieces of one message and what the allocation for it answers; only `arrived` of them get here. */
  datatype Message = Message(topic: string, pieces: seq<seq<byte>>, memory: Memory, arrived: nat)

  /** No piece is empty, but a message without payload is one empty piece. */
  predicate Sendable(m: Message) {
    && m.pieces != [] && 0 < m.arrived <= |m.pieces|
    && (m.pieces == [[]] || forall i :: 0 <= i < |m.pieces| ==> m.pieces[i] != [])
  }

  function Joined(pieces: seq<seq<byte>>): seq<byte> {
    if pieces == [] then [] else Joined(pieces[..|pieces| - 1]) + pieces[|pieces| - 1]
  }

  function Payload(m: Message): seq<byte> {
    Joined(m.pieces)
  }

  function PieceOf(m: Message, i: nat): Chunk
    requires i < |m.pieces|
  {
    Chunk(if i == 0 then m.topic else "", |Joined(m.pieces[..i])|, |Payload(m)|, m.pieces[i])
  }

  predicate Accepted(topic: string, m: Message) {
    m.topic == topic && 0 < |Payload(m)| <= OTA_COMMAND_MAX && m.memory.Some?
  }

  ghost predicate Open(rx: Option<Rx>) {
    rx.Some? ==> |rx.value.buf| == rx.value.total + 1
  }

  /** The buffer after the first `n` pieces of `m`, and the payloads that they handed over. */
  function AfterPieces(topic: string, rx: Option<Rx>, m: Message, n: nat): (r: (Option<Rx>, seq<seq<byte>>))
    requires Open(rx) && n <= |m.pieces|
    ensures Open(r.0)
  {
    if n == 0 then (rx, [])
    else
      var (before, out) := AfterPieces(topic, rx, m, n - 1);
      var (after, payload) := Handle(topic, before, PieceOf(m, n - 1), m.memory);
      (after, if payload.Some? then out + [payload.value] else out)
  }

  lemma {:induction false} JoinedGrows(pieces: seq<seq<byte>>, i: nat)
    requires i < |pieces| && forall k :: 0 <= k < |pieces| ==> pieces[k] != []
    ensures Joined(pieces[..i + 1]) == Joined(pieces[..i]) + pieces[i]
    ensures Joined(pieces[..i + 1]) <= Joined(pieces)
    ensures |Joined(pieces[..i + 1])| == |Joined(pieces)| <==> i + 1 == |pieces|
    decreases |pieces| - i
  {
    assert pieces[..i + 1][..i] == pieces[..i];
    if i + 1 == |pieces| {
      assert pieces[..i + 1] == pieces;
    } else {
      JoinedGrows(pieces, i + 1);
    }
  }

  /** Where the buffer stands after `n` pieces of a message. */
  ghost predicate Follows(topic: string, m: Message, n: nat, r: (Option<Rx>, seq<seq<byte>>))
    requires 0 < n <= |m.pieces|
  {
    if !Accepted(topic, m) then r == (None, [])
    else if n == |m.pieces| then r.0 == None && |r.1| == 1 && r.1[0] == Payload(m) + [NUL]
    else
      && r.1 == [] && r.0.Some? && r.0.value.total == |Payload(m)| && |r.0.value.buf| == |Payload(m)| + 1
      && Joined(m.pieces[..n]) <= r.0.value.buf
  }

  lemma CopyExtends(buf: seq<byte>, before: seq<byte>, data: seq<byte>)
    requires before <= buf && |before| + |data| < |buf|
    ensures before + data <= Copied(buf, |before|, data) && |Copied(buf, |before|, data)| == |buf|
    ensures |before| + |data| + 1 == |buf| ==> Copied(buf, |before|, data)[|buf| - 1 := NUL] == before + data + [NUL]
  {
    assert buf[..|before|] == before;
  }

  /** A piece that continues what is in the buffer. */
  lemma NextPiece(topic: string, rx: Rx, before: seq<byte>, data: seq<byte>, c: Chunk, memory: Memory)
    requires |rx.buf| == rx.total + 1 && before <= rx.buf && |before| + |data| <= rx.total
    requires c.offset == |before| && c.data == data && Opened(topic, Some(rx), c, memory) == Some(rx)
    ensures var r := Handle(topic, Some(rx), c, memory);
            if |before| + |data| == rx.total then r == (None, Some(before + data + [NUL]))
            else
              && r.0.Some? && r.0.value.total == rx.total && |r.0.value.buf| == |rx.buf|
              && before + data <= r.0.value.buf && r.1.None?
  {
    CopyExtends(rx.buf, before, data);
  }

  lemma FirstPiece(topic: string, rx: Option<Rx>, m: Message)
    requires Open(rx) && Sendable(m)
    ensures Follows(topic, m, 1, AfterPieces(topic, rx, m, 1))
  {
    var c := PieceOf(m, 0);
    assert AfterPieces(topic, rx, m, 0) == (rx, []);
    assert m.pieces[..0] == [] && c.offset == 0;
    assert m.pieces[..1] == [m.pieces[0]] && [m.pieces[0]][..0] == [];
    assert Joined([m.pieces[0]]) == Joined([]) + m.pieces[0] == m.pieces[0];
    if Accepted(topic, m) {
      var started := Opened(topic, rx, c, m.memory).value;
      PieceFits(m, 0);
      assert Handle(topic, rx, c, m.memory) == Handle(topic, Some(started), c, m.memory);
      NextPiece(topic, started, [], m.pieces[0], c, m.memory);
      assert [] + m.pieces[0] == m.pieces[0];
    }
  }

  lemma PieceFits(m: Message, i: nat)
    requires Sendable(m) && i < |m.pieces| && Payload(m) != []
    ensures Joined(m.pieces[..i + 1]) == Joined(m.pieces[..i]) + m.pieces[i]
    ensures |Joined(m.pieces[..i + 1])| <= |Payload(m)|
    ensures |Joined(m.pieces[..i + 1])| == |Payload(m)| <==> i + 1 == |m.pieces|
    ensures i + 1 == |m.pieces| ==> Joined(m.pieces[..i + 1]) == Payload(m)
    ensures i > 0 ==> |Joined(m.pieces[..i])| > 0
  {
    if m.pieces != [[]] {
      JoinedGrows(m.pieces, i);
      assert m.pieces[..|m.pieces|] == m.pieces;
      if i > 0 {
        JoinedGrows(m.pieces, i - 1);
      }
    }
  }

  lemma LaterPiece(topic: string, m: Message, n: nat, before: (Option<Rx>, seq<seq<byte>>))
    requires Sendable(m) && 1 < n <= |m.pieces| && Open(before.0) && Follows(topic, m, n - 1, before)
    ensures var (rx, payload) := Handle(topic, before.0, PieceOf(m, n - 1), m.memory);
            Follows(topic, m, n, (rx, if payload.Some? then before.1 + [payload.value] else before.1))
  {
    var c := PieceOf(m, n - 1);
    assert m.pieces != [[]];
    JoinedGrows(m.pieces, n - 2);
    PieceFits(m, n - 1);
    if Accepted(topic, m) {
      NextPiece(topic, before.0.value, Joined(m.pieces[..n - 1]), m.pieces[n - 1], c, m.memory);
    }
  }

  lemma {:induction false} PiecesFollow(topic: string, rx: Option<Rx>, m: Message, n: nat)
    requires Open(rx) && Sendable(m) && 0 < n <= |m.pieces|
    ensures Follows(topic, m, n, AfterPieces(topic, rx, m, n))
  {
    if n == 1 {
      FirstPiece(topic, rx, m);
    } else {
      PiecesFollow(topic, rx, m, n - 1);
      LaterPiece(topic, m, n, AfterPieces(topic, rx, m, n - 1));
    }
  }

  // ---------------------------------------------------------------- whole streams

  ghost function AfterMessages(topic: string, rx: Option<Rx>, ms: seq<Message>): seq<seq<byte>>
    requires Open(rx) && forall i :: 0 <= i < |ms| ==> Sendable(ms[i])
    decreases |ms|
  {
    if ms == [] then []
    else
      assert Sendable(ms[0]);
      var (next, out) := AfterPieces(topic, rx, ms[0], ms[0].arrived);
      out + AfterMessages(topic, next, ms[1..])
  }

  /** What is handed over of one message: all of it, or nothing. */
  function ExpectedOf(topic: string, m: Message): seq<seq<byte>> {
    if Accepted(topic, m) && m.arrived == |m.pieces| then [Payload(m) + [NUL]] else []
  }

  function Expected(topic: string, ms: seq<Message>): seq<seq<byte>> {
    if ms == [] then [] else ExpectedOf(topic, ms[0]) + Expected(topic, ms[1..])
  }

  lemma MessageIsDelivered(topic: string, rx: Option<Rx>, m: Message)
    requires Open(rx) && Sendable(m)
    ensures AfterPieces(topic, rx, m, m.arrived).1 == ExpectedOf(topic, m)
  {
    PiecesFollow(topic, rx, m, m.arrived);
  }

  /**
   Whatever was in the buffer before, and even when messages break off half-way: exactly the complete messages
   on the topic of the commands, of 1 to OTA_COMMAND_MAX bytes and for which there was memory, are handed over,
   once each, in order and byte for byte, with a NUL after them.
   */
  lemma {:induction false} StreamIsDelivered(topic: string, rx: Option<Rx>, ms: seq<Message>)
    requires Open(rx) && forall i :: 0 <= i < |ms| ==> Sendable(ms[i])
    ensures AfterMessages(topic, rx, ms) == Expected(topic, ms)
    decreases |ms|
  {
    if ms != [] {
      MessageIsDelivered(topic, rx, ms[0]);
      StreamIsDelivered(topic, AfterPieces(topic, rx, ms[0], ms[0].arrived).0, ms[1..]);
    }
  }
}
