/**
 The byte stream between client and server: length-prefixed packets one way,
 NUL-terminated commands the other, through calls that may move fewer bytes
 than asked for.
 */
module Framing {
  import opened Wrappers

  type Byte = b: int | 0 <= b < 256
  type Word32 = w: int | 0 <= w < 0x1_0000_0000

  const SERVER_PROGRESS: Word32 := 2
  const NEWLINE: Byte := 10

  datatype Packet = Packet(status: Word32, payload: seq<Byte>)

  // ----- packets ----------------------------------------------------------

  /** Network byte order. */
  function Encode32(w: Word32): (r: seq<Byte>)
    ensures |r| == 4
  {
    var q1: int := w / 256;
    var q2: int := q1 / 256;
    [q2 / 256, q2 % 256, q1 % 256, w % 256]
  }

  function Decode32(s: seq<Byte>): Word32
    requires |s| == 4
  {
    var (a: int, b: int, c: int, d: int) := (s[0], s[1], s[2], s[3]);
    ((a * 256 + b) * 256 + c) * 256 + d
  }

  lemma Decode32UndoesEncode32(w: Word32)
    ensures Decode32(Encode32(w)) == w
  {
  }

  /** The length goes out as 32 bits, whatever the payload's length; the payload goes out whole. */
  function EncodePacket(p: Packet): seq<Byte> {
    Encode32(p.status) + Encode32(|p.payload| % 0x1_0000_0000) + p.payload
  }

  /** The packet at the front of a stream, if all of it has arrived, and what is behind it. */
  function DecodePacket(s: seq<Byte>): (r: Option<(Packet, seq<Byte>)>)
    ensures r.Some? ==> |r.value.1| < |s|
  {
    if |s| < 8 then None
    else
      var n := Decode32(s[4..8]);
      if |s| < 8 + n then None else Some((Packet(Decode32(s[..4]), s[8..8 + n]), s[8 + n..]))
  }

  lemma EncodedHeader(p: Packet, rest: seq<Byte>)
    ensures var s := EncodePacket(p) + rest;
            && |s| == 8 + |p.payload| + |rest|
            && Decode32(s[..4]) == p.status && Decode32(s[4..8]) == |p.payload| % 0x1_0000_0000
            && s[8..] == p.payload + rest
  {
    var a, b := Encode32(p.status), Encode32(|p.payload| % 0x1_0000_0000);
    var s := EncodePacket(p) + rest;
    assert s[..4] == a && s[4..8] == b && s[8..] == p.payload + rest;
    Decode32UndoesEncode32(p.status);
    Decode32UndoesEncode32(|p.payload| % 0x1_0000_0000);
  }

  /** A packet is its two header words and then what the second one announces. */
  lemma PacketInParts(s: seq<Byte>, first: seq<Byte>, behindFirst: seq<Byte>, second: seq<Byte>,
                      behindSecond: seq<Byte>)
    requires |first| == |second| == 4 && s == first + behindFirst && behindFirst == second + behindSecond
    ensures var size := Decode32(second);
            DecodePacket(s) ==
            if |behindSecond| < size then None
            else Some((Packet(Decode32(first), behindSecond[..size]), behindSecond[size..]))
  {
    var size := Decode32(second);
    assert s[..4] == first && s[4..8] == second && s[8..] == behindSecond;
    if size <= |behindSecond| {
      assert s[8..8 + size] == s[8..][..size] && s[8 + size..] == s[8..][size..];
    }
  }

  /** A packet is read back, with the stream left exactly behind it, if and only if its length fits the header. */
  lemma DecodeUndoesEncode(p: Packet, rest: seq<Byte>)
    ensures DecodePacket(EncodePacket(p) + rest) == Some((p, rest)) <==> |p.payload| < 0x1_0000_0000
  {
    var s, n := EncodePacket(p) + rest, |p.payload| % 0x1_0000_0000;
    EncodedHeader(p, rest);
    assert s[8..8 + n] == s[8..][..n] && s[8 + n..] == s[8..][n..];
  }

  lemma Encode32UndoesDecode32(s: seq<Byte>)
    requires |s| == 4
    ensures Encode32(Decode32(s)) == s
  {
    var r := Encode32(Decode32(s));
    assert r[0] == s[0] && r[1] == s[1] && r[2] == s[2] && r[3] == s[3];
  }

  /** The order of byte strings of one length, decided by the first byte in which they differ. */
  predicate Precedes(a: seq<Byte>, b: seq<Byte>)
    requires |a| == |b|
  {
    a != [] && (a[0] < b[0] || (a[0] == b[0] && Precedes(a[1..], b[1..])))
  }

  /** Most significant byte first, and no other way: headers sort like the numbers in them. */
  lemma {:induction false} HeadersSortLikeNumbers(w: Word32, v: Word32)
    ensures w < v <==> Precedes(Encode32(w), Encode32(v))
  {
    var a, b := Encode32(w), Encode32(v);
    assert a[1..][1..] == a[2..] && a[2..][1..] == a[3..] && a[3..][1..] == [];
    assert b[1..][1..] == b[2..] && b[2..][1..] == b[3..] && b[3..][1..] == [];
    assert Precedes(a[3..], b[3..]) <==> a[3] < b[3];
    assert Precedes(a[2..], b[2..]) <==> a[2] < b[2] || (a[2] == b[2] && a[3] < b[3]);
    assert Precedes(a[1..], b[1..]) <==> a[1] < b[1] || (a[1] == b[1] && Precedes(a[2..], b[2..]));
    Decode32UndoesEncode32(w);
    Decode32UndoesEncode32(v);
  }

  /** Whatever stream begins with a packet is that packet's encoding, so no stream is read in another way. */
  lemma DecodesOnlyEncodings(s: seq<Byte>, p: Packet, rest: seq<Byte>)
    ensures DecodePacket(s) == Some((p, rest)) <==> s == EncodePacket(p) + rest && |p.payload| < 0x1_0000_0000
  {
    if s == EncodePacket(p) + rest {
      DecodeUndoesEncode(p, rest);
    }
    if DecodePacket(s) == Some((p, rest)) {
      DecodedInParts(s);
      Encode32UndoesDecode32(s[..4]);
      Encode32UndoesDecode32(s[4..8]);
    }
  }

  lemma DecodedInParts(s: seq<Byte>)
    requires DecodePacket(s).Some?
    ensures var (p, rest) := DecodePacket(s).value;
            && s == s[..4] + s[4..8] + p.payload + rest
            && p.status == Decode32(s[..4]) && |p.payload| == Decode32(s[4..8])
  {
  }

  // ----- replies ----------------------------------------------------------

  /** What the server sends for one command: output in progress, then one final packet of another status. */
  datatype Reply = Reply(progress: seq<seq<Byte>>, final: Packet)

  function EncodeProgress(progress: seq<seq<Byte>>): seq<Byte> {
    if progress == [] then [] else EncodePacket(Packet(SERVER_PROGRESS, progress[0])) + EncodeProgress(progress[1..])
  }

  function EncodeReply(r: Reply): seq<Byte> {
    EncodeProgress(r.progress) + EncodePacket(r.final)
  }

  /** What the client shows of a progress packet: the payload, on lines of its own. */
  function Display(payload: seq<Byte>): seq<Byte> {
    if payload == [] || payload[|payload| - 1] == NEWLINE then payload else payload + [NEWLINE]
  }

  function DisplayAll(progress: seq<seq<Byte>>): seq<Byte> {
    if progress == [] then [] else Display(progress[0]) + DisplayAll(progress[1..])
  }

  /** A response received: the final packet, what was shown before it, and the stream behind it. */
  datatype Received = Received(final: Packet, shown: seq<Byte>, rest: seq<Byte>)

  function Receive(s: seq<Byte>): Option<Received>
    decreases |s|
  {
    var d := DecodePacket(s);
    if d.None? then None
    else
      var (p, rest) := d.value;
      if p.status != SERVER_PROGRESS then Some(Received(p, [], rest))
      else
        match Receive(rest)
        case None => None
        case Some(r) => Some(r.(shown := Display(p.payload) + r.shown))
  }

  predicate Sendable(r: Reply) {
    && r.final.status != SERVER_PROGRESS && |r.final.payload| < 0x1_0000_0000
    && forall i :: 0 <= i < |r.progress| ==> |r.progress[i]| < 0x1_0000_0000
  }

  /** Every reply is recovered with all its progress output, and the stream stops at its boundary. */
  lemma {:induction false} ReceiveUndoesReply(r: Reply, rest: seq<Byte>)
    requires Sendable(r)
    ensures Receive(EncodeReply(r) + rest) == Some(Received(r.final, DisplayAll(r.progress), rest))
    decreases |r.progress|
  {
    if r.progress == [] {
      assert EncodeReply(r) == EncodePacket(r.final);
      DecodeUndoesEncode(r.final, rest);
    } else {
      var p, more := Packet(SERVER_PROGRESS, r.progress[0]), r.(progress := r.progress[1..]);
      Assoc(EncodePacket(p), EncodeProgress(more.progress), EncodePacket(r.final));
      Assoc(EncodePacket(p), EncodeReply(more), rest);
      DecodeUndoesEncode(p, EncodeReply(more) + rest);
      ReceiveUndoesReply(more, rest);
    }
  }

  /** Only the encoding of a reply is received as one. */
  lemma {:induction false} ReceivedWasSent(s: seq<Byte>, r: Received) returns (reply: Reply)
    requires Receive(s) == Some(r)
    ensures Sendable(reply) && s == EncodeReply(reply) + r.rest
    ensures r.final == reply.final && r.shown == DisplayAll(reply.progress)
    decreases |s|
  {
    var (p, rest) := DecodePacket(s).value;
    DecodesOnlyEncodings(s, p, rest);
    if p.status != SERVER_PROGRESS {
      reply := Reply([], p);
      assert EncodeReply(reply) == EncodePacket(p);
    } else {
      var more := ReceivedWasSent(rest, Receive(rest).value);
      reply := Reply([p.payload] + more.progress, more.final);
      assert reply.progress[1..] == more.progress;
      Assoc(EncodePacket(p), EncodeProgress(more.progress), EncodePacket(more.final));
      Assoc(EncodePacket(p), EncodeReply(more), r.rest);
    }
  }

  /** A response is received from a stream if and only if a whole reply stands at its front: that reply, and no more. */
  lemma {:induction false} ReceivedExactlyWhen(s: seq<Byte>, r: Received)
    ensures Receive(s) == Some(r) <==>
            exists reply :: && Sendable(reply) && s == EncodeReply(reply) + r.rest
                            && r.final == reply.final && r.shown == DisplayAll(reply.progress)
  {
    if Receive(s) == Some(r) {
      var reply := ReceivedWasSent(s, r);
    }
    if reply :| Sendable(reply) && s == EncodeReply(reply) + r.rest
                && r.final == reply.final && r.shown == DisplayAll(reply.progress) {
      ReceiveUndoesReply(reply, r.rest);
    }
  }

  /** Progress output is shown whole and in front of a line end of its own: the one it has, or one that is added. */
  lemma DisplayEndsItsLine(payload: seq<Byte>)
    ensures payload == [] ==> Display(payload) == []
    ensures payload != [] ==>
              var d := Display(payload);
              && d[|d| - 1] == 10
              && (d == payload || (d[..|d| - 1] == payload && payload[|payload| - 1] != 10))
  {
  }

  /** On the wire: status 2 and two bytes of output, then status 0 and no output. */
  lemma {:induction false} AResponseOnTheWire()
    ensures Receive([0, 0, 0, 2, 0, 0, 0, 2, 104, 105, 0, 0, 0, 0, 0, 0, 0, 0])
            == Some(Received(Packet(0, []), [104, 105, 10], []))
  {
    var hi: seq<Byte> := [104, 105];
    var reply := Reply([hi], Packet(0, []));
    assert Encode32(2) == [0, 0, 0, 2] && Encode32(0) == [0, 0, 0, 0];
    assert EncodePacket(Packet(2, hi)) == [0, 0, 0, 2, 0, 0, 0, 2, 104, 105];
    assert EncodePacket(reply.final) == [0, 0, 0, 0, 0, 0, 0, 0];
    assert reply.progress[1..] == [] && EncodeProgress([]) == [];
    assert DisplayAll(reply.progress) == [104, 105, 10];
    assert EncodeReply(reply) + [] == [0, 0, 0, 2, 0, 0, 0, 2, 104, 105, 0, 0, 0, 0, 0, 0, 0, 0];
    ReceiveUndoesReply(reply, []);
  }

  function EncodeSession(rs: seq<Reply>): seq<Byte> {
    if rs == [] then [] else EncodeReply(rs[0]) + EncodeSession(rs[1..])
  }

  /** What one response amounts to for the client: its final packet, and what was shown before it. */
  datatype Response = Response(final: Packet, shown: seq<Byte>)

  /** `n` responses read one after the other, and the stream behind them. */
  function ReceiveMany(s: seq<Byte>, n: nat): Option<(seq<Response>, seq<Byte>)>
    decreases n
  {
    if n == 0 then Some(([], s))
    else
      match Receive(s)
      case None => None
      case Some(r) =>
        match ReceiveMany(r.rest, n - 1)
        case None => None
        case Some(m) => Some(([Response(r.final, r.shown)] + m.0, m.1))
  }

  /** What the client should make of the replies: each final packet, and the progress output shown before it. */
  function Responses(rs: seq<Reply>): seq<Response> {
    seq(|rs|, i requires 0 <= i < |rs| => Response(rs[i].final, DisplayAll(rs[i].progress)))
  }

  lemma ResponsesCons(rs: seq<Reply>)
    requires rs != []
    ensures Responses(rs) == [Response(rs[0].final, DisplayAll(rs[0].progress))] + Responses(rs[1..])
  {
  }

  /** One response in front of `n` more. */
  lemma ReceiveOneMore(s: seq<Byte>, one: Response, more: seq<Byte>, rest: seq<Byte>, n: nat, others: seq<Response>)
    requires Receive(s) == Some(Received(one.final, one.shown, more))
    requires ReceiveMany(more, n) == Some((others, rest))
    ensures ReceiveMany(s, n + 1) == Some(([one] + others, rest))
  {
  }

  /** A whole session: the responses come out one by one, in order and complete, and nothing is left over. */
  lemma {:induction false} SessionRoundTrip(rs: seq<Reply>, rest: seq<Byte>)
    requires forall i :: 0 <= i < |rs| ==> Sendable(rs[i])
    ensures ReceiveMany(EncodeSession(rs) + rest, |rs|) == Some((Responses(rs), rest))
    decreases |rs|
  {
    if rs == [] {
      assert EncodeSession(rs) + rest == rest && Responses(rs) == [];
    } else {
      var first, more := EncodeReply(rs[0]), EncodeSession(rs[1..]);
      var one := Response(rs[0].final, DisplayAll(rs[0].progress));
      ReceiveUndoesReply(rs[0], more + rest);
      SessionRoundTrip(rs[1..], rest);
      Assoc(first, more, rest);
      ReceiveOneMore(first + more + rest, one, more + rest, rest, |rs| - 1, Responses(rs[1..]));
      ResponsesCons(rs);
    }
  }

  // ----- commands ---------------------------------------------------------

  /** The number of bytes read before a NUL, at most `limit`. */
  function Prefix(s: seq<Byte>, limit: nat): (n: nat)
    ensures n <= |s| && n <= limit
    ensures forall k :: 0 <= k < n ==> s[k] != 0
    ensures n < limit && n < |s| ==> s[n] == 0
  {
    if limit == 0 || s == [] || s[0] == 0 then 0 else 1 + Prefix(s[1..], limit - 1)
  }

  /** What one read of a command makes of the stream: the count it returns, the command, and the stream behind. */
  datatype Heard = Heard(count: int, command: seq<Byte>, rest: seq<Byte>)

  function Hear(s: seq<Byte>, size: nat): Heard {
    if size == 0 then Heard(-1, [], s)
    else
      var n := Prefix(s, size - 1);
      if n == size - 1 then Heard(n, s[..n], s[n..])   // full: the rest of the command is still to come
      else if n == |s| then Heard(0, s, [])            // the peer has gone
      else Heard(n, s[..n], s[n + 1..])
  }

  /** Where reading byte by byte stands after `used` bytes of a command, and how it ends there if it does. */
  lemma {:induction false} HearEnds(s: seq<Byte>, size: nat, used: nat)
    requires used < size && used <= Prefix(s, size - 1)
    ensures used + 1 == size ==> Hear(s, size) == Heard(used, s[..used], s[used..])
    ensures used + 1 < size && used == |s| ==> Hear(s, size) == Heard(0, s, [])
    ensures used + 1 < size && used < |s| && s[used] == 0 ==> Hear(s, size) == Heard(used, s[..used], s[used + 1..])
    ensures used + 1 < size && used < |s| && s[used] != 0 ==> used + 1 <= Prefix(s, size - 1)
  {
  }

  lemma {:induction false} PrefixGrows(s: seq<Byte>, limit: nat)
    ensures Prefix(s, limit) <= Prefix(s, limit + 1)
  {
    if limit > 0 && s != [] && s[0] != 0 {
      PrefixGrows(s[1..], limit - 1);
    }
  }

  lemma {:induction false} PrefixOfCommand(command: seq<Byte>, rest: seq<Byte>, limit: nat)
    requires 0 !in command
    ensures Prefix(command + [0] + rest, limit) == if |command| <= limit then |command| else limit
  {
    var s := command + [0] + rest;
    if limit > 0 && command != [] {
      assert s[1..] == command[1..] + [0] + rest;
      PrefixOfCommand(command[1..], rest, limit - 1);
    }
  }

  /**
   A command is heard as it was sent, with a positive count and the stream left
   behind its terminator, exactly when it is not empty and leaves a byte to
   spare besides its terminator. An empty one looks like a disconnect, and a
   longer one leaves its end in the stream.
   */
  lemma HearUndoesSend(command: seq<Byte>, rest: seq<Byte>, size: nat)
    requires 0 !in command && size > 0
    ensures (Hear(command + [0] + rest, size) == Heard(|command|, command, rest) && |command| > 0)
            <==> 1 <= |command| <= size - 2
  {
    var s := command + [0] + rest;
    PrefixOfCommand(command, rest, size - 1);
    assert s[..|command|] == command && s[|command| + 1..] == rest;
    if |command| == size - 1 {
      assert |s[|command|..]| == |rest| + 1;
    }
  }

  lemma {:induction false} PrefixIs(s: seq<Byte>, limit: nat, n: nat)
    requires n <= limit && n <= |s| && 0 !in s[..n] && (n < limit && n < |s| ==> s[n] == 0)
    ensures Prefix(s, limit) == n
  {
    if n > 0 {
      assert s[..n][0] == s[0] && s[..n][1..] == s[1..][..n - 1];
      PrefixIs(s[1..], limit - 1, n - 1);
    }
  }

  /**
   What is heard on any stream: the bytes in front of the first NUL, if one
   comes soon enough; as many as fit, if none does; and nothing if the stream
   ends before either.
   */
  lemma {:induction false} HearsUpToTheNul(s: seq<Byte>, size: nat, n: nat)
    requires size > 0 && n <= |s| && 0 !in s[..n]
    ensures n < size - 1 && n < |s| && s[n] == 0 ==> Hear(s, size) == Heard(n, s[..n], s[n + 1..])
    ensures n == size - 1 ==> Hear(s, size) == Heard(n, s[..n], s[n..])
    ensures n < size - 1 && n == |s| ==> Hear(s, size) == Heard(0, s, [])
  {
    if n == size - 1 || (n < size - 1 && (n == |s| || s[n] == 0)) {
      PrefixIs(s, size - 1, n);
    }
  }

  const COMMAND_BUFFER := 1024

  /** The empty line a client may send is counted like a closed connection; one of 1023 bytes leaves its NUL behind. */
  lemma SomeCommandsAreMisheard(full: seq<Byte>)
    requires |full| == 1023 && 0 !in full
    ensures Hear([0], COMMAND_BUFFER).count == Hear([], COMMAND_BUFFER).count == 0
    ensures Hear(full + [0], COMMAND_BUFFER) == Heard(|full|, full, [0]) && Hear([0], COMMAND_BUFFER).count == 0
  {
    assert full + [0] + [] == full + [0];
    PrefixOfCommand(full, [], COMMAND_BUFFER - 1);
  }

  function EncodeCommands(cs: seq<seq<Byte>>): seq<Byte> {
    if cs == [] then [] else cs[0] + [0] + EncodeCommands(cs[1..])
  }

  /** The commands heard until the stream is taken for closed. */
  function HearAll(s: seq<Byte>, size: nat): seq<seq<Byte>>
    decreases |s|
  {
    var h := Hear(s, size);
    if h.count <= 0 || |h.rest| >= |s| then [] else [h.command] + HearAll(h.rest, size)
  }

  lemma {:induction false} CommandsRoundTrip(cs: seq<seq<Byte>>, size: nat)
    requires forall i :: 0 <= i < |cs| ==> 0 !in cs[i] && 1 <= |cs[i]| <= size - 2
    ensures HearAll(EncodeCommands(cs), size) == cs
    decreases |cs|
  {
    if cs != [] {
      HearUndoesSend(cs[0], EncodeCommands(cs[1..]), size);
      CommandsRoundTrip(cs[1..], size);
    }
  }

  // ----- the loops --------------------------------------------------------

  /** What was shown before, in front of what a later read shows. */
  function Shift(shown: seq<Byte>, r: Option<Received>): Option<Received> {
    if r.None? then None else Some(r.value.(shown := shown + r.value.shown))
  }

  lemma ShiftNone(r: Option<Received>)
    ensures Shift([], r) == r
  {
    if r.Some? {
      assert [] + r.value.shown == r.value.shown;
    }
  }

  lemma ShiftTwice(a: seq<Byte>, b: seq<Byte>, r: Option<Received>)
    ensures Shift(a, Shift(b, r)) == Shift(a + b, r)
  {
    if r.Some? {
      assert a + (b + r.value.shown) == (a + b) + r.value.shown;
    }
  }

  lemma PrefixOfMore(x: seq<Byte>, y: seq<Byte>, z: seq<Byte>)
    requires x < y
    ensures x < y + z
  {
  }

  lemma SendInThree(sent: seq<Byte>, a: seq<Byte>, b: seq<Byte>, c: seq<Byte>)
    ensures sent + a + b + c == sent + (a + b + c) == sent + a + (b + c)
  {
  }

  method CopyIn(buffer: array<Byte>, at: nat, data: seq<Byte>)
    requires at + |data| <= buffer.Length
    modifies buffer
    ensures buffer[..at + |data|] == old(buffer[..at]) + data
  {
    for k := 0 to |data|
      invariant buffer[..at] == old(buffer[..at])
      invariant buffer[at..at + k] == data[..k]
    {
      buffer[at + k] := data[k];
    }
    assert buffer[..at + |data|] == buffer[..at] + buffer[at..at + |data|];
  }

  /** What one call to send or recv can do: move some bytes, at most one more than `extra`; be interrupted; fail. */
  datatype Call = Moves(extra: nat) | Interruption | Failure

  /** What a recv comes back with. */
  datatype Arrival = Data(bytes: seq<Byte>) | Closed | Interrupted | Failed

  /** One end of a connection. `pace` says what each call does; only `signals` many interruptions are still to come. */
  class Socket {
    var sent: seq<Byte>
    var incoming: seq<Byte>
    var calls: nat
    var signals: nat
    ghost var failures: nat  // calls that have failed so far
    const pace: nat -> Call

    constructor (incoming: seq<Byte>, signals: nat, pace: nat -> Call)
      ensures this.incoming == incoming && sent == [] && this.pace == pace && calls == 0 && failures == 0
    {
      this.incoming, sent, calls, this.signals, this.pace := incoming, [], 0, signals, pace;
      failures := 0;
    }

    /** Every call moves something while there is something to move. */
    ghost predicate Flows() {
      forall k :: pace(k).Moves?
    }

    method Send(data: seq<Byte>) returns (n: int, interrupted: bool)
      requires data != []
      modifies this`sent, this`calls, this`signals, this`failures
      ensures calls == old(calls) + 1 && signals <= old(signals)
      ensures n == -1 || 0 < n <= |data|
      ensures sent == old(sent) + if n == -1 then [] else data[..n]
      ensures interrupted ==> n == -1 && pace(old(calls)).Interruption? && signals < old(signals)
      ensures n == -1 && !interrupted <==> pace(old(calls)).Failure?
      ensures failures == old(failures) + if pace(old(calls)).Failure? then 1 else 0
    {
      var call := pace(calls);
      calls := calls + 1;
      if call.Failure? {
        failures := failures + 1;
        return -1, false;
      }
      if call.Interruption? && signals > 0 {
        signals := signals - 1;
        return -1, true;
      }
      n := if call.Moves? && call.extra + 1 < |data| then call.extra + 1 else if call.Moves? then |data| else 1;
      sent, interrupted := sent + data[..n], false;
    }

    method Recv(length: nat) returns (arrival: Arrival)
      requires length > 0
      modifies this`incoming, this`calls, this`signals, this`failures
      ensures calls == old(calls) + 1 && signals <= old(signals)
      ensures arrival.Failed? <==> pace(old(calls)).Failure?
      ensures failures == old(failures) + if arrival.Failed? then 1 else 0
      ensures arrival.Interrupted? ==> pace(old(calls)).Interruption? && signals < old(signals)
      ensures arrival.Closed? ==> old(incoming) == []
      ensures arrival.Data? ==> 0 < |arrival.bytes| <= length && old(incoming) == arrival.bytes + incoming
      ensures !arrival.Data? ==> incoming == old(incoming)
    {
      var call := pace(calls);
      calls := calls + 1;
      if call.Failure? {
        failures := failures + 1;
        return Failed;
      }
      if call.Interruption? && signals > 0 {
        signals := signals - 1;
        return Interrupted;
      }
      if incoming == [] {
        return Closed;
      }
      var n := if call.Moves? && call.extra + 1 < length then call.extra + 1 else if call.Moves? then length else 1;
      n := if n < |incoming| then n else |incoming|;
      arrival := Data(incoming[..n]);
      incoming := incoming[n..];
    }

    /** The client's loop gives up on an interruption as on a failure. */
    method SendAll(data: seq<Byte>) returns (ok: bool)
      modifies this`sent, this`calls, this`signals, this`failures
      ensures old(sent) <= sent && if ok then sent == old(sent) + data else sent < old(sent) + data
      ensures Flows() ==> ok
    {
      var total := 0;
      while total < |data|
        invariant total <= |data| && sent == old(sent) + data[..total]
        decreases |data| - total
      {
        var n, _ := Send(data[total..]);
        if n <= 0 {
          return false;
        }
        assert data[..total] + data[total..][..n] == data[..total + n];
        total := total + n;
      }
      return true;
    }

    /** The server's loop tries again after an interruption. */
    method SendAllPatiently(data: seq<Byte>) returns (ok: bool)
      modifies this`sent, this`calls, this`signals, this`failures
      ensures old(sent) <= sent && if ok then sent == old(sent) + data else sent < old(sent) + data
      ensures failures == old(failures) + if ok then 0 else 1
    {
      var total := 0;
      while total < |data|
        invariant total <= |data| && sent == old(sent) + data[..total]
        invariant failures == old(failures)
        decreases |data| - total, signals
      {
        var n, interrupted := Send(data[total..]);
        if n <= 0 {
          if interrupted {
            continue;
          }
          return false;
        }
        assert data[..total] + data[total..][..n] == data[..total + n];
        total := total + n;
      }
      return true;
    }

    /** Fills the first `length` places of the buffer, however the bytes arrive. */
    method RecvAll(buffer: array<Byte>, length: nat) returns (ok: bool)
      requires length <= buffer.Length
      modifies this`incoming, this`calls, this`signals, this`failures, buffer
      ensures ok ==> old(incoming) == buffer[..length] + incoming
      ensures Flows() ==> (ok <==> |old(incoming)| >= length)
    {
      var total := 0;
      while total < length
        invariant total <= length && old(incoming) == buffer[..total] + incoming
        decreases length - total
      {
        var arrival := Recv(length - total);
        if !arrival.Data? {
          return false;
        }
        var data := arrival.bytes;
        ghost var before := buffer[..total];
        CopyIn(buffer, total, data);
        assert before + data + incoming == before + (data + incoming);
        total := total + |data|;
      }
      return true;
    }

    /** Sends a final or a progress packet: status, length, payload. */
    method SendResponse(status: Word32, payload: seq<Byte>) returns (ok: bool)
      modifies this`sent, this`calls, this`signals, this`failures
      ensures var p := EncodePacket(Packet(status, payload));
              old(sent) <= sent && if ok then sent == old(sent) + p else sent < old(sent) + p
      ensures failures == old(failures) + if ok then 0 else 1
    {
      ghost var a, b := Encode32(status), Encode32(|payload| % 0x1_0000_0000);
      assert EncodePacket(Packet(status, payload)) == a + b + payload;
      SendInThree(old(sent), a, b, payload);
      ok := SendAllPatiently(Encode32(status));
      if !ok {
        PrefixOfMore(sent, old(sent) + a, b + payload);
        return;
      }
      ok := SendAllPatiently(Encode32(|payload| % 0x1_0000_0000));
      if !ok {
        PrefixOfMore(sent, old(sent) + a + b, payload);
        return;
      }
      if |payload| > 0 {
        ok := SendAllPatiently(payload);
      }
    }

    /** Reads one packet: two header words, then as many bytes as the second says. */
    method RecvPacket() returns (packet: Option<Packet>)
      modifies this`incoming, this`calls, this`signals, this`failures
      ensures packet.Some? ==> DecodePacket(old(incoming)) == Some((packet.value, incoming))
      ensures Flows() ==> (packet.Some? <==> DecodePacket(old(incoming)).Some?)
    {
      ghost var all := incoming;
      var header := new Byte[4];
      var ok := RecvAll(header, 4);
      if !ok {
        return None;
      }
      ghost var first, behindFirst := header[..], incoming;
      var status := Decode32(header[..]);
      ok := RecvAll(header, 4);
      if !ok {
        return None;
      }
      ghost var second, behindSecond := header[..], incoming;
      PacketInParts(all, first, behindFirst, second, behindSecond);
      var size := Decode32(header[..]);
      var payload := new Byte[size];
      ok := RecvAll(payload, size);
      if !ok {
        return None;
      }
      assert behindSecond[..size] == payload[..] && behindSecond[size..] == incoming;
      return Some(Packet(status, payload[..]));
    }

    /** Shows progress packets until a final packet arrives. */
    method ReceiveResponse() returns (final: Option<Packet>, shown: seq<Byte>)
      modifies this`incoming, this`calls, this`signals, this`failures
      ensures final.Some? ==> Receive(old(incoming)) == Some(Received(final.value, shown, incoming))
      ensures Flows() ==> (final.Some? <==> Receive(old(incoming)).Some?)
    {
      shown := [];
      ShiftNone(Receive(incoming));
      while true
        invariant Receive(old(incoming)) == Shift(shown, Receive(incoming))
        decreases |incoming|
      {
        ghost var before := incoming;
        var packet := RecvPacket();
        if packet.None? {
          return None, shown;
        }
        if packet.value.status != SERVER_PROGRESS {
          assert shown + [] == shown;
          return packet, shown;
        }
        ShiftTwice(shown, Display(packet.value.payload), Receive(incoming));
        shown := shown + Display(packet.value.payload);
      }
    }

    /** A recv of a single byte. */
    method RecvByte() returns (arrival: Arrival)
      modifies this`incoming, this`calls, this`signals, this`failures
      ensures calls == old(calls) + 1 && signals <= old(signals)
      ensures arrival.Failed? <==> pace(old(calls)).Failure?
      ensures failures == old(failures) + if arrival.Failed? then 1 else 0
      ensures arrival.Interrupted? ==> signals < old(signals)
      ensures arrival.Closed? ==> old(incoming) == []
      ensures arrival.Data? ==>
                && old(incoming) != [] && arrival.bytes == [old(incoming)[0]] && incoming == old(incoming)[1..]
      ensures !arrival.Data? ==> incoming == old(incoming)
    {
      arrival := Recv(1);
    }

    /**
     Reads a command byte by byte, up to its terminator, the end of the stream,
     or the end of the buffer; interruptions are tried again, a failure is
     reported as -1. `taken` is the number of bytes read off the stream.
     */
    method RecvCommand(buffer: array<Byte>) returns (count: int, ghost taken: nat)
      modifies this`incoming, this`calls, this`signals, this`failures, buffer
      ensures count == -1 <==> buffer.Length == 0 || failures > old(failures)
      ensures var h := Hear(old(incoming), buffer.Length);
              count != -1 ==>
              && count == h.count && incoming == h.rest
              && (count > 0 ==> count < buffer.Length && buffer[..count] == h.command && buffer[count] == 0)
      ensures taken <= |old(incoming)| && incoming == old(incoming)[taken..]
      ensures count == -1 ==> taken <= Prefix(old(incoming), buffer.Length)
    {
      ghost var all := incoming;
      if buffer.Length == 0 {
        return -1, 0;
      }
      PrefixGrows(all, buffer.Length - 1);
      var used, ended := ReadCommand(buffer);
      taken := used;
      HearEnds(all, buffer.Length, used);
      match ended
      case Failed => return -1, used;
      case Closed => return 0, used;
      case Data(_) => return used, used + 1;
      case Interrupted =>
        buffer[buffer.Length - 1] := 0;
        return used, used;
    }

    /**
     The loop: reads until a failure, the end of the stream, a terminator, or,
     shown by `Interrupted`, until the buffer is full.
     */
    method ReadCommand(buffer: array<Byte>) returns (used: nat, ended: Arrival)
      requires buffer.Length > 0
      modifies this`incoming, this`calls, this`signals, this`failures, buffer
      ensures used < buffer.Length && used <= Prefix(old(incoming), buffer.Length - 1)
      ensures buffer[..used] == old(incoming)[..used]
      ensures failures == old(failures) + if ended.Failed? then 1 else 0
      ensures ended.Interrupted? <==> used + 1 == buffer.Length
      ensures ended.Closed? ==> used == |old(incoming)|
      ensures ended.Data? ==> used < |old(incoming)| && old(incoming)[used] == 0 && buffer[used] == 0
      ensures incoming == old(incoming)[if ended.Data? then used + 1 else used..]
    {
      ghost var all := incoming;
      used := 0;
      while used + 1 < buffer.Length
        invariant used < buffer.Length && used <= Prefix(all, buffer.Length - 1)
        invariant incoming == all[used..] && forall k :: 0 <= k < used ==> buffer[k] == all[k]
        invariant failures == old(failures)
        decreases buffer.Length - used, signals
      {
        var arrival := RecvByte();
        match arrival
        case Failed => return used, Failed;
        case Interrupted => continue;
        case Closed => return used, Closed;
        case Data(bytes) =>
          buffer[used] := bytes[0];
          if buffer[used] == 0 {
            return used, arrival;
          }
          used := used + 1;
      }
      return used, Interrupted;
    }
  }
}
