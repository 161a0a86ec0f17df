/**
  The length-prefixed command stream between clients and the daemon: a four-byte big-endian length,
  then that many bytes of JSON.

  What a payload means is the parameter `parse`: the command a payload stands for, or None when it
  is not UTF-8, not a JSON object, or names no known command.
*/
module Ipc {
  import opened Wrappers

  type Byte = x: int | 0 <= x < 256
  type Bytes = seq<Byte>
  type Parse<!C> = Bytes -> Option<C>

  const HEADER_SIZE := 4
  const MAX_PAYLOAD_SIZE := 16 * 1024 * 1024
  const HEADER_RANGE := 0x1_0000_0000

  function Header(n: nat): Bytes
    requires n < HEADER_RANGE
  {
    [n / 0x100_0000, n / 0x1_0000 % 0x100, n / 0x100 % 0x100, n % 0x100]
  }

  function HeaderValue(h: Bytes): nat
    requires |h| == HEADER_SIZE
  {
    var a: int, b: int, c: int, d: int := h[0], h[1], h[2], h[3];
    a * 0x100_0000 + b * 0x1_0000 + c * 0x100 + d
  }

  function EncodeFrame(payload: Bytes): Bytes
    requires |payload| < HEADER_RANGE
  {
    Header(|payload|) + payload
  }

  /** One decoding attempt: a command if there is one, and the bytes that stay buffered. An
      oversized frame is skipped, as far as it has arrived. */
  function Decode<C>(data: Bytes, parse: Parse<C>): (r: (Option<C>, Bytes))
    ensures r.0.Some? ==> |r.1| < |data|
    ensures r.1 != data ==> |r.1| < |data|
  {
    if |data| < HEADER_SIZE then (None, data)
    else
      var n := HeaderValue(data[..HEADER_SIZE]);
      if n > MAX_PAYLOAD_SIZE then
        (None, if |data| >= HEADER_SIZE + n then data[HEADER_SIZE + n..] else [])
      else if |data| < HEADER_SIZE + n then (None, data)
      else (parse(data[HEADER_SIZE..HEADER_SIZE + n]), data[HEADER_SIZE + n..])
  }

  /** Decode until no progress is made: the commands, and what stays buffered. */
  function Drain<C>(data: Bytes, parse: Parse<C>): (seq<C>, Bytes)
    decreases |data|
  {
    var (command, rest) := Decode(data, parse);
    if command.None? && rest == data then ([], data)
    else
      var (commands, left) := Drain(rest, parse);
      (if command.Some? then [command.value] + commands else commands, left)
  }

  // ---- Round trip ----

  lemma HeaderRoundTrip(n: nat)
    requires n < HEADER_RANGE
    ensures HeaderValue(Header(n)) == n
  {
    var q, p := n / 0x100, n / 0x1_0000;
    assert n == q * 0x100 + n % 0x100;
    assert q == p * 0x100 + q % 0x100;
    assert p == n / 0x100_0000 * 0x100 + p % 0x100;
  }

  /** The number that the bytes spell, the first one counting most. */
  function NumberOf(bytes: Bytes): nat {
    if bytes == [] then 0 else NumberOf(bytes[..|bytes| - 1]) * 256 + bytes[|bytes| - 1] as int
  }

  /** A header is the length in four bytes, the first one counting most. */
  lemma HeaderIsBigEndian(h: Bytes, n: nat)
    requires |h| == 4 && n < HEADER_RANGE
    ensures HeaderValue(h) == NumberOf(h) && |Header(n)| == 4 && NumberOf(Header(n)) == n
  {
    SpellsNumber(h);
    SpellsNumber(Header(n));
    HeaderRoundTrip(n);
  }

  lemma SpellsNumber(h: Bytes)
    requires |h| == 4
    ensures HeaderValue(h) == NumberOf(h)
  {
    var h3, h2, h1 := h[..3], h[..2], h[..1];
    assert h3[..2] == h2 && h2[..1] == h1 && h1[..0] == [];
    assert NumberOf(h1) == h[0] as int;
    assert NumberOf(h2) == NumberOf(h1) * 256 + h[1] as int;
    assert NumberOf(h3) == NumberOf(h2) * 256 + h[2] as int;
  }

  /** Decoding an encoded payload gives it back and leaves the bytes behind it alone. */
  lemma FrameRoundTrip<C>(payload: Bytes, behind: Bytes, parse: Parse<C>)
    requires |payload| <= MAX_PAYLOAD_SIZE
    ensures Decode(EncodeFrame(payload) + behind, parse) == (parse(payload), behind)
  {
    var data := EncodeFrame(payload) + behind;
    HeaderRoundTrip(|payload|);
    assert data[..HEADER_SIZE] == Header(|payload|);
    assert data[HEADER_SIZE..HEADER_SIZE + |payload|] == payload;
    assert data[HEADER_SIZE + |payload|..] == behind;
  }

  /** With an encoder that the parser inverts, a command survives the trip. */
  lemma CommandRoundTrip<C>(command: C, dumps: C -> Bytes, parse: Parse<C>, behind: Bytes)
    requires |dumps(command)| <= MAX_PAYLOAD_SIZE && parse(dumps(command)) == Some(command)
    ensures Decode(EncodeFrame(dumps(command)) + behind, parse) == (Some(command), behind)
  {
    FrameRoundTrip(dumps(command), behind, parse);
  }

  // ---- Streams ----

  ghost predicate WithinLimit(payloads: seq<Bytes>) {
    forall p | p in payloads :: |p| <= 16 * 1024 * 1024
  }

  function Frames(payloads: seq<Bytes>): Bytes
    requires WithinLimit(payloads)
  {
    if payloads == [] then [] else EncodeFrame(payloads[0]) + Frames(payloads[1..])
  }

  /** The commands among some payloads, in order. */
  function Commands<C>(payloads: seq<Bytes>, parse: Parse<C>): seq<C> {
    if payloads == [] then []
    else
      var rest := Commands(payloads[1..], parse);
      var command := parse(payloads[0]);
      if command.Some? then [command.value] + rest else rest
  }

  function Concat(chunks: seq<Bytes>): Bytes {
    if chunks == [] then [] else Concat(chunks[..|chunks| - 1]) + chunks[|chunks| - 1]
  }

  /** The first `k` frames have arrived completely and the next one has not. */
  ghost predicate Arrived(payloads: seq<Bytes>, data: Bytes, k: nat, left: Bytes) {
    && k <= |payloads| && WithinLimit(payloads)
    && data == Frames(payloads[..k]) + left
    && (if k == |payloads| then left == [] else left <= EncodeFrame(payloads[k]) && left != EncodeFrame(payloads[k]))
  }

  lemma PartialFrame<C>(payload: Bytes, left: Bytes, parse: Parse<C>)
    requires |payload| <= MAX_PAYLOAD_SIZE && left <= EncodeFrame(payload) && left != EncodeFrame(payload)
    ensures Drain(left, parse) == ([], left)
  {
    HeaderRoundTrip(|payload|);
    if |left| >= HEADER_SIZE {
      assert left[..HEADER_SIZE] == Header(|payload|);
    }
  }

  /** Draining the part of a frame stream that has arrived handles exactly the commands of the
      complete frames and keeps the incomplete one. */
  lemma {:induction false} DrainArrived<C>(payloads: seq<Bytes>, data: Bytes, k: nat, left: Bytes, parse: Parse<C>)
    requires Arrived(payloads, data, k, left)
    ensures Drain(data, parse) == (Commands(payloads[..k], parse), left)
    decreases k
  {
    if k == 0 {
      assert data == left;
      if payloads != [] { PartialFrame(payloads[0], left, parse); }
    } else {
      var rest := Frames(payloads[1..][..k - 1]) + left;
      assert payloads[..k][1..] == payloads[1..][..k - 1];
      Assoc(EncodeFrame(payloads[0]), Frames(payloads[1..][..k - 1]), left);
      FrameRoundTrip(payloads[0], rest, parse);
      DrainArrived(payloads[1..], rest, k - 1, left, parse);
      assert data == EncodeFrame(payloads[0]) + rest;
    }
  }

  lemma {:induction false} ArrivedExists(payloads: seq<Bytes>, data: Bytes) returns (k: nat, left: Bytes)
    requires WithinLimit(payloads) && data <= Frames(payloads)
    ensures Arrived(payloads, data, k, left)
  {
    if payloads == [] {
      k, left := 0, [];
    } else {
      var first := EncodeFrame(payloads[0]);
      if |data| < |first| {
        k, left := 0, data;
        assert data == Frames(payloads)[..|data|] == first[..|data|];
      } else {
        var rest := data[|first|..];
        assert data[..|first|] == Frames(payloads)[..|first|] == first;
        assert rest == Frames(payloads)[|first|..|data|];
        assert Frames(payloads)[|first|..] == Frames(payloads[1..]);
        assert rest <= Frames(payloads[1..]);
        k, left := ArrivedExists(payloads[1..], rest);
        assert data == first + rest;
        ArrivedAfter(payloads, rest, k, left);
        k := k + 1;
      }
    }
  }

  lemma ArrivedAfter(payloads: seq<Bytes>, rest: Bytes, k: nat, left: Bytes)
    requires WithinLimit(payloads) && payloads != [] && Arrived(payloads[1..], rest, k, left)
    ensures Arrived(payloads, EncodeFrame(payloads[0]) + rest, k + 1, left)
  {
    assert payloads[..k + 1][1..] == payloads[1..][..k];
    Assoc(EncodeFrame(payloads[0]), Frames(payloads[1..][..k]), left);
  }

  // ---- The server loop ----

  /** The server's per-client state: the bytes kept, and the commands handled so far. */
  datatype Server<C> = Server(buffer: Bytes, handled: seq<C>)

  function Receive<C>(s: Server<C>, chunk: Bytes, parse: Parse<C>): Server<C> {
    var (commands, left) := Drain(s.buffer + chunk, parse);
    Server(left, s.handled + commands)
  }

  function ReceiveAll<C>(chunks: seq<Bytes>, parse: Parse<C>): Server<C> {
    if chunks == [] then Server([], [])
    else Receive(ReceiveAll(chunks[..|chunks| - 1], parse), chunks[|chunks| - 1], parse)
  }

  // ---- Cutting the stream into reads ----

  /** No frame that begins in the data announces more than the size limit. */
  predicate Clean(data: Bytes)
    decreases |data|
  {
    |data| < HEADER_SIZE
    || (var n := HeaderValue(data[..HEADER_SIZE]);
        n <= MAX_PAYLOAD_SIZE && (|data| < HEADER_SIZE + n || Clean(data[HEADER_SIZE + n..])))
  }

  lemma {:induction false} CleanPrefix(a: Bytes, b: Bytes)
    requires Clean(a + b)
    ensures Clean(a)
    decreases |a|
  {
    if |a| >= HEADER_SIZE {
      var n := HeaderValue(a[..HEADER_SIZE]);
      assert (a + b)[..HEADER_SIZE] == a[..HEADER_SIZE];
      if |a| >= HEADER_SIZE + n {
        assert (a + b)[HEADER_SIZE + n..] == a[HEADER_SIZE + n..] + b;
        CleanPrefix(a[HEADER_SIZE + n..], b);
      }
    }
  }

  /** Two drains after each other. */
  function Both<C>(first: seq<C>, second: (seq<C>, Bytes)): (seq<C>, Bytes) {
    (first + second.0, second.1)
  }

  lemma DecodeMore<C>(a: Bytes, b: Bytes, parse: Parse<C>)
    requires Clean(a) && Decode(a, parse).1 != a
    ensures Decode(a + b, parse) == (Decode(a, parse).0, Decode(a, parse).1 + b) && Clean(Decode(a, parse).1)
  {
    var n := HeaderValue(a[..HEADER_SIZE]);
    assert (a + b)[..HEADER_SIZE] == a[..HEADER_SIZE];
    assert (a + b)[HEADER_SIZE..HEADER_SIZE + n] == a[HEADER_SIZE..HEADER_SIZE + n];
    assert (a + b)[HEADER_SIZE + n..] == a[HEADER_SIZE + n..] + b;
  }

  /** Bytes that arrive later are drained as if they had been there. */
  lemma {:induction false} DrainMore<C>(a: Bytes, b: Bytes, parse: Parse<C>)
    requires Clean(a)
    ensures Drain(a + b, parse) == Both(Drain(a, parse).0, Drain(Drain(a, parse).1 + b, parse))
    decreases |a|
  {
    var (command, rest) := Decode(a, parse);
    if rest == a {
      assert [] + Drain(a + b, parse).0 == Drain(a + b, parse).0;
    } else {
      DecodeMore(a, b, parse);
      DrainMore(rest, b, parse);
      DrainStep(a, parse);
      ShrinkingDrain(a + b, command, rest + b, parse);
      Assoc(if command.Some? then [command.value] else [], Drain(rest, parse).0,
            Drain(Drain(rest, parse).1 + b, parse).0);
    }
  }

  lemma DrainStep<C>(data: Bytes, parse: Parse<C>)
    requires Decode(data, parse).1 != data
    ensures var (command, rest) := Decode(data, parse);
            Drain(data, parse) == Both(if command.Some? then [command.value] else [], Drain(rest, parse))
  {
    var (command, rest) := Decode(data, parse);
    if command.None? { assert [] + Drain(rest, parse).0 == Drain(rest, parse).0; }
  }

  lemma ShrinkingDrain<C>(data: Bytes, command: Option<C>, rest: Bytes, parse: Parse<C>)
    requires Decode(data, parse) == (command, rest) && |rest| < |data|
    ensures Drain(data, parse) == Both(if command.Some? then [command.value] else [], Drain(rest, parse))
  {
    DrainStep(data, parse);
  }

  /** Whatever the bytes mean, malformed frames included: as long as no frame is oversized, the reads
      do not matter. The server has handled what one read of all the bytes would give. */
  lemma {:induction false} CutsDoNotMatter<C>(chunks: seq<Bytes>, parse: Parse<C>)
    requires Clean(Concat(chunks))
    ensures ReceiveAll(chunks, parse) == Server(Drain(Concat(chunks), parse).1, Drain(Concat(chunks), parse).0)
  {
    if chunks != [] {
      var front, chunk := chunks[..|chunks| - 1], chunks[|chunks| - 1];
      CleanPrefix(Concat(front), chunk);
      CutsDoNotMatter(front, parse);
      DrainMore(Concat(front), chunk, parse);
    }
  }

  /** Frames within the limit, and less than a header behind them. */
  lemma {:induction false} FramesClean(payloads: seq<Bytes>, left: Bytes)
    requires WithinLimit(payloads) && |left| < HEADER_SIZE
    ensures Clean(Frames(payloads) + left)
  {
    if payloads != [] {
      var data, rest := Frames(payloads) + left, Frames(payloads[1..]) + left;
      FramesClean(payloads[1..], left);
      HeaderRoundTrip(|payloads[0]|);
      Assoc(EncodeFrame(payloads[0]), Frames(payloads[1..]), left);
      assert data == EncodeFrame(payloads[0]) + rest;
      assert data[..HEADER_SIZE] == Header(|payloads[0]|);
      assert data[HEADER_SIZE + |payloads[0]|..] == rest;
    }
  }

  /** While the client's bytes are a part of a frame stream, the server has handled the commands of
      the frames that have arrived, whatever the reads were. */
  lemma AnyChunking<C>(payloads: seq<Bytes>, chunks: seq<Bytes>, parse: Parse<C>) returns (k: nat, left: Bytes)
    requires WithinLimit(payloads) && Concat(chunks) <= Frames(payloads)
    ensures Arrived(payloads, Concat(chunks), k, left)
    ensures ReceiveAll(chunks, parse) == Server(left, Commands(payloads[..k], parse))
  {
    var data := Concat(chunks);
    k, left := ArrivedExists(payloads, data);
    FramesClean(payloads, []);
    assert Frames(payloads) + [] == data + Frames(payloads)[|data|..];
    CleanPrefix(data, Frames(payloads)[|data|..]);
    CutsDoNotMatter(chunks, parse);
    DrainArrived(payloads, data, k, left, parse);
  }

  /** However a stream of frames within the size limit is cut into reads, the server handles exactly
      the valid commands, in order, and nothing stays buffered; a malformed payload costs only its
      own frame. */
  lemma StreamHandled<C>(payloads: seq<Bytes>, chunks: seq<Bytes>, parse: Parse<C>)
    requires WithinLimit(payloads) && Concat(chunks) == Frames(payloads)
    ensures ReceiveAll(chunks, parse) == Server([], Commands(payloads, parse))
  {
    FramesClean(payloads, []);
    assert Frames(payloads) + [] == Frames(payloads);
    CutsDoNotMatter(chunks, parse);
    assert payloads[..|payloads|] == payloads;
    DrainArrived(payloads, Frames(payloads), |payloads|, [], parse);
  }

  // ---- Oversized frames ----

  /** The most that one read returns. */
  const READ_SIZE := 4096

  ghost predicate Oversized(n: nat) { 16 * 1024 * 1024 < n < HEADER_RANGE }

  lemma OversizedDiscards<C>(n: nat, part: Bytes, parse: Parse<C>)
    requires Oversized(n) && |part| < n
    ensures Drain(Header(n) + part, parse) == ([], [])
  {
    var data := Header(n) + part;
    HeaderRoundTrip(n);
    assert data[..HEADER_SIZE] == Header(n);
    assert Decode(data, parse) == (None, []);
    assert Drain([], parse) == ([], []);
  }

  /** The header of an oversized frame throws away everything that is buffered behind it. */
  lemma {:induction false} DrainOversized<C>(payloads: seq<Bytes>, n: nat, part: Bytes, parse: Parse<C>)
    requires WithinLimit(payloads) && Oversized(n) && |part| < n
    ensures Drain(Frames(payloads) + (Header(n) + part), parse) == (Commands(payloads, parse), [])
  {
    var tail := Header(n) + part;
    if payloads == [] {
      OversizedDiscards(n, part, parse);
      assert Frames(payloads) + tail == tail;
    } else {
      var rest := Frames(payloads[1..]) + tail;
      DrainOversized(payloads[1..], n, part, parse);
      FrameRoundTrip(payloads[0], rest, parse);
      Assoc(EncodeFrame(payloads[0]), Frames(payloads[1..]), tail);
      ShrinkingDrain(Frames(payloads) + tail, parse(payloads[0]), rest, parse);
    }
  }

  function ReceiveFrom<C>(s: Server<C>, chunks: seq<Bytes>, parse: Parse<C>): Server<C> {
    if chunks == [] then s
    else Receive(ReceiveFrom(s, chunks[..|chunks| - 1], parse), chunks[|chunks| - 1], parse)
  }

  lemma {:induction false} ReceiveSplit<C>(before: seq<Bytes>, after: seq<Bytes>, parse: Parse<C>)
    ensures ReceiveAll(before + after, parse) == ReceiveFrom(ReceiveAll(before, parse), after, parse)
    decreases |after|
  {
    if after == [] {
      assert before + after == before;
    } else {
      ReceiveSplit(before, after[..|after| - 1], parse);
      assert (before + after)[..|before + after| - 1] == before + after[..|after| - 1];
    }
  }

  /** With an empty buffer the past shows only in what was handled. */
  lemma {:induction false} FreshStart<C>(handled: seq<C>, chunks: seq<Bytes>, parse: Parse<C>)
    ensures var anew := ReceiveAll(chunks, parse);
            ReceiveFrom(Server([], handled), chunks, parse) == Server(anew.buffer, handled + anew.handled)
  {
    if chunks == [] {
      assert handled + [] == handled;
    } else {
      var front, chunk := chunks[..|chunks| - 1], chunks[|chunks| - 1];
      FreshStart(handled, front, parse);
      var anew := ReceiveAll(front, parse);
      Assoc(handled, anew.handled, Drain(anew.buffer + chunk, parse).0);
    }
  }

  /** What any cut does to an oversized frame. Let `chunk` be the read that completes its header; a
      read is too small to bring the whole payload with it. The commands handled by then are the valid
      ones in front of the frame, the part of the payload in `chunk` is dropped, and the rest of the
      payload is read as a fresh stream. */
  lemma OversizedFrame<C>(payloads: seq<Bytes>, n: nat, part: Bytes, before: seq<Bytes>, chunk: Bytes,
                          after: seq<Bytes>, parse: Parse<C>)
    requires WithinLimit(payloads) && Oversized(n) && (|part| < n || |chunk| <= READ_SIZE)
    requires Concat(before) + chunk == Frames(payloads) + (Header(n) + part)
    requires |Concat(before)| < |Frames(payloads)| + HEADER_SIZE
    ensures var anew := ReceiveAll(after, parse);
            ReceiveAll(before + [chunk] + after, parse)
            == Server(anew.buffer, Commands(payloads, parse) + anew.handled)
  {
    assert |Concat(before)| + |chunk| == |Frames(payloads)| + HEADER_SIZE + |part|;
    HeaderIncomplete(payloads, n, part, Concat(before), chunk);
    CutsDoNotMatter(before, parse);
    DrainMore(Concat(before), chunk, parse);
    DrainOversized(payloads, n, part, parse);
    assert (before + [chunk])[..|before|] == before;
    assert ReceiveAll(before + [chunk], parse) == Server([], Commands(payloads, parse));
    ReceiveSplit(before + [chunk], after, parse);
    FreshStart(Commands(payloads, parse), after, parse);
  }

  lemma HeaderIncomplete(payloads: seq<Bytes>, n: nat, part: Bytes, data: Bytes, chunk: Bytes)
    requires WithinLimit(payloads) && Oversized(n)
    requires data + chunk == Frames(payloads) + (Header(n) + part)
    requires |data| < |Frames(payloads)| + HEADER_SIZE
    ensures Clean(data)
  {
    var frames := Frames(payloads);
    var whole := frames + (Header(n) + part);
    assert data == whole[..|data|];
    if |data| <= |frames| {
      assert frames + [] == data + frames[|data|..];
      FramesClean(payloads, []);
      CleanPrefix(data, frames[|data|..]);
    } else {
      var left := data[|frames|..];
      assert data[..|frames|] == frames;
      assert data == frames + left;
      FramesClean(payloads, left);
    }
  }

  ghost predicate Readable(chunks: seq<Bytes>) { forall c | c in chunks :: 0 < |c| <= READ_SIZE }

  /** The size limit is what makes the cuts irrelevant. The same bytes, an oversized frame whose
      payload begins with a small frame of its own, in reads the server can make: cut behind the
      header, the small frame is taken for a command; cut behind the small frame, it is not. */
  lemma OversizedDependsOnCut<C>(command: C, small: Bytes, n: nat, after: seq<Bytes>, parse: Parse<C>)
    requires parse(small) == Some(command) && |small| <= READ_SIZE - 2 * HEADER_SIZE
    requires Oversized(n) && Readable(after)
    ensures var cut1, cut2 := [Header(n), EncodeFrame(small)] + after, [Header(n) + EncodeFrame(small)] + after;
            && Readable(cut1) && Readable(cut2) && Concat(cut1) == Concat(cut2)
            && ReceiveAll(cut1, parse).handled == [command] + ReceiveAll(cut2, parse).handled
  {
    var h, f := Header(n), EncodeFrame(small);
    CutBehindHeader(h, n, [f] + after, parse);
    assert [h] + ([f] + after) == [h, f] + after;
    SmallFrame(command, small, after, parse);
    CutBehind(h, n, f, after, parse);
    SameBytes(h, f, after);
  }

  lemma CutBehind<C>(header: Bytes, n: nat, part: Bytes, after: seq<Bytes>, parse: Parse<C>)
    requires Oversized(n) && header == Header(n) && |part| < n
    ensures ReceiveAll([header + part] + after, parse).handled == ReceiveAll(after, parse).handled
  {
    var none: seq<Bytes> := [];
    NoBytes(none, header + part);
    OversizedFrame(none, n, part, none, header + part, after, parse);
    assert none + [header + part] + after == [header + part] + after;
    assert [] + ReceiveAll(after, parse).handled == ReceiveAll(after, parse).handled;
  }

  lemma CutBehindHeader<C>(header: Bytes, n: nat, after: seq<Bytes>, parse: Parse<C>)
    requires Oversized(n) && header == Header(n)
    ensures ReceiveAll([header] + after, parse).handled == ReceiveAll(after, parse).handled
  {
    CutBehind(header, n, [], after, parse);
    assert header + [] == header;
  }

  lemma NoBytes(none: seq<Bytes>, data: Bytes)
    requires none == []
    ensures WithinLimit(none) && Concat(none) + data == Frames(none) + data
  {
  }

  lemma SmallFrame<C>(command: C, small: Bytes, after: seq<Bytes>, parse: Parse<C>)
    requires parse(small) == Some(command) && |small| <= READ_SIZE
    ensures ReceiveAll([EncodeFrame(small)] + after, parse).handled == [command] + ReceiveAll(after, parse).handled
  {
    OneFrame(command, small, parse);
    ReceiveSplit([EncodeFrame(small)], after, parse);
    FreshStart([command], after, parse);
  }

  lemma OneFrame<C>(command: C, small: Bytes, parse: Parse<C>)
    requires parse(small) == Some(command) && |small| <= READ_SIZE
    ensures ReceiveAll([EncodeFrame(small)], parse) == Server([], [command])
  {
    var frame := EncodeFrame(small);
    FrameRoundTrip(small, [], parse);
    assert frame + [] == frame && [] + frame == frame;
    ShrinkingDrain(frame, Some(command), [], parse);
    assert Drain([], parse) == ([], []);
    var chunks: seq<Bytes> := [frame];
    assert chunks[..0] == [];
    assert ReceiveAll(chunks[..0], parse) == Server([], []);
  }

  lemma {:induction false} SameBytes(a: Bytes, b: Bytes, after: seq<Bytes>)
    ensures Concat([a, b] + after) == Concat([a + b] + after)
    decreases |after|
  {
    if after == [] {
      assert [a, b] + after == [a, b] && [a + b] + after == [a + b];
      assert [a, b][..1] == [a] && [a][..0] == [] && [a + b][..0] == [];
      assert Concat([a]) == [] + a && Concat([a, b]) == a + b && Concat([a + b]) == [] + (a + b);
    } else {
      var front := after[..|after| - 1];
      SameBytes(a, b, front);
      assert ([a, b] + after)[..|after| + 1] == [a, b] + front;
      assert ([a + b] + after)[..|after|] == [a + b] + front;
    }
  }

  /** The loop of the server for one client. */
  class Connection<C> {
    var buffer: Bytes
    var handled: seq<C>

    constructor ()
      ensures buffer == [] && handled == []
    {
      buffer, handled := [], [];
    }

    method OnRead(data: Bytes, parse: Parse<C>)
      modifies this
      ensures Server(buffer, handled) == Receive(Server(old(buffer), old(handled)), data, parse)
    {
      buffer := buffer + data;
      var more := true;
      while more
        invariant more ==> Drain(old(buffer) + data, parse).1 == Drain(buffer, parse).1
                           && old(handled) + Drain(old(buffer) + data, parse).0 == handled + Drain(buffer, parse).0
        invariant !more ==> Server(buffer, handled) == Receive(Server(old(buffer), old(handled)), data, parse)
        decreases |buffer|, more
      {
        var (command, remaining) := Decode(buffer, parse);
        if command.None? {
          if remaining != buffer {
            buffer := remaining;
            continue;
          }
          more := false;
        } else {
          buffer := remaining;
          handled := handled + [command.value];
        }
      }
    }
  }
}
