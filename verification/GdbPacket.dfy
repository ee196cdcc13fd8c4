/**
 The packet codec of gdbstub.c for the GDB remote serial protocol: gdb_read_byte takes packets apart,
 memtox and put_packet_binary build them.
 */
module GdbPackets {

  newtype Byte = x: int | 0 <= x < 256

  const MAX_PACKET_LENGTH: nat := 4096

  const DOLLAR: Byte := 36
  const HASH: Byte := 35
  const STAR: Byte := 42
  const BRACE: Byte := 125
  const PLUS: Byte := 43
  const MINUS: Byte := 45
  const SPACE: Byte := 32

  // -------------------------------------------------------------------------------------------
  // Characters
  // -------------------------------------------------------------------------------------------

  /** c ^ 0x20 */
  function Flip(c: Byte): (r: Byte)
    ensures r != c && (r / 32) % 2 != (c / 32) % 2 && r % 32 == c % 32 && r / 64 == c / 64
  {
    if c / 32 % 2 == 0 then c + 32 else c - 32
  }

  lemma {:induction false} FlipTwice(c: Byte)
    ensures Flip(Flip(c)) == c
  {
  }

  predicate IsHexDigit(c: Byte) {
    48 <= c <= 57 || 65 <= c <= 70 || 97 <= c <= 102
  }

  function FromHex(c: Byte): (r: int)
    ensures 0 <= r < 16
  {
    if 48 <= c <= 57 then c as int - 48
    else if 65 <= c <= 70 then c as int - 55
    else if 97 <= c <= 102 then c as int - 87
    else 0
  }

  function ToHex(v: int): (r: Byte)
    requires 0 <= v < 16
    ensures IsHexDigit(r) && FromHex(r) == v
  {
    if v < 10 then (v + 48) as Byte else (v + 87) as Byte
  }

  /** A char that was stored from a byte, on hosts where char is signed. */
  function Signed(b: Byte): int {
    if b < 128 then b as int else b as int - 256
  }

  function Sum(bs: seq<Byte>): int {
    if bs == [] then 0 else Sum(bs[..|bs| - 1]) + bs[|bs| - 1] as int
  }

  function SignedSum(bs: seq<Byte>): int {
    if bs == [] then 0 else SignedSum(bs[..|bs| - 1]) + Signed(bs[|bs| - 1])
  }

  /** Both sums have the same lowest byte. */
  lemma {:induction false} SumsAgree(bs: seq<Byte>)
    ensures Sum(bs) % 256 == SignedSum(bs) % 256
  {
    if bs != [] { SumsAgree(bs[..|bs| - 1]); }
  }

  lemma {:induction false} SumAppend(a: seq<Byte>, b: seq<Byte>)
    ensures Sum(a + b) == Sum(a) + Sum(b)
  {
    if b == [] {
      assert a + b == a;
    } else {
      assert (a + b)[..|a + b| - 1] == a + b[..|b| - 1];
      SumAppend(a, b[..|b| - 1]);
    }
  }

  // -------------------------------------------------------------------------------------------
  // Building packets
  // -------------------------------------------------------------------------------------------

  predicate Special(c: Byte) {
    c == HASH || c == DOLLAR || c == STAR || c == BRACE
  }

  function EscapeByte(c: Byte): seq<Byte> {
    if Special(c) then [BRACE, Flip(c)] else [c]
  }

  /** memtox */
  function Escape(mem: seq<Byte>): seq<Byte> {
    if mem == [] then [] else Escape(mem[..|mem| - 1]) + EscapeByte(mem[|mem| - 1])
  }

  /** The two hexadecimal digits of a checksum. */
  function Checksum(sum: int): seq<Byte> {
    [ToHex(sum / 16 % 16), ToHex(sum % 16)]
  }

  /** put_packet_binary */
  function Frame(data: seq<Byte>): seq<Byte> {
    [DOLLAR] + data + [HASH] + Checksum(SignedSum(data))
  }

  // -------------------------------------------------------------------------------------------
  // Taking packets apart
  // -------------------------------------------------------------------------------------------

  datatype RsState = Idle | GetLine | GetLineEsc | GetLineRle | Chksum1 | Chksum2

  /** The parser's part of a GDBState; line is line_buf up to line_buf_index. */
  datatype Parser = Parser(state: RsState, line: seq<Byte>, sum: int, csum: int)

  /** What a byte makes the parser do besides changing its state. */
  datatype Event = Nothing | Ack(packet: seq<Byte>) | Nak

  /** The switch of gdb_read_byte */
  function Step(p: Parser, ch: Byte): (Parser, Event) {
    match p.state
    case Idle => (if ch == DOLLAR then p.(state := GetLine, line := [], sum := 0) else p, Nothing)
    case GetLine =>
      var q := p.(sum := p.sum + ch as int);
      (if ch == BRACE then q.(state := GetLineEsc)
       else if ch == STAR then q.(state := GetLineRle)
       else if ch == HASH then p.(state := Chksum1)
       else if |p.line| >= MAX_PACKET_LENGTH - 1 then p.(state := Idle)
       else q.(line := p.line + [ch]), Nothing)
    case GetLineEsc =>
      (if ch == HASH then p.(state := Chksum1)
       else if |p.line| >= MAX_PACKET_LENGTH - 1 then p.(state := Idle)
       else p.(state := GetLine, line := p.line + [Flip(ch)], sum := p.sum + ch as int), Nothing)
    case GetLineRle =>
      if ch < SPACE then (p.(state := GetLine), Nothing) else
      var repeat := ch as int - 32 + 3;
      (if |p.line| + repeat >= MAX_PACKET_LENGTH - 1 then p.(state := Idle)
       else if |p.line| < 1 then p.(state := GetLine)
       else p.(state := GetLine, line := p.line + seq(repeat, _ => p.line[|p.line| - 1]), sum := p.sum + ch as int),
         Nothing)
    case Chksum1 =>
      (if !IsHexDigit(ch) then p.(state := GetLine) else p.(state := Chksum2, csum := FromHex(ch) * 16), Nothing)
    case Chksum2 =>
      if !IsHexDigit(ch) then (p.(state := GetLine), Nothing) else
      var q := p.(state := Idle, csum := p.csum + FromHex(ch));
      if q.csum != p.sum % 256 then (q, Nak) else (q, Ack(p.line))
  }

  /** The parser after many bytes, and the events they have caused. */
  datatype Fed = Fed(p: Parser, events: seq<Event>)

  type Stepper = (Parser, Byte) -> (Parser, Event)

  function FeedWith(f: Stepper, p: Parser, bs: seq<Byte>): Fed {
    if bs == [] then Fed(p, []) else
    var was := FeedWith(f, p, bs[..|bs| - 1]);
    Then(was, f(was.p, bs[|bs| - 1]))
  }

  function Then(was: Fed, now: (Parser, Event)): Fed {
    Fed(now.0, if now.1.Nothing? then was.events else was.events + [now.1])
  }

  function Feed(p: Parser, bs: seq<Byte>): Fed {
    FeedWith(Step, p, bs)
  }

  lemma {:induction false} FeedAppend(f: Stepper, p: Parser, a: seq<Byte>, b: seq<Byte>)
    ensures var mid := FeedWith(f, p, a);
      var end := FeedWith(f, mid.p, b);
      FeedWith(f, p, a + b) == Fed(end.p, mid.events + end.events)
  {
    if b == [] {
      assert a + b == a;
    } else {
      assert (a + b)[..|a + b| - 1] == a + b[..|b| - 1];
      FeedAppend(f, p, a, b[..|b| - 1]);
    }
  }

  lemma {:induction false} FeedOneByte(f: Stepper, p: Parser, c: Byte)
    ensures FeedWith(f, p, [c]) == Then(Fed(p, []), f(p, c))
  {
    assert [c][..0] == [];
    assert FeedWith(f, p, [c][..0]) == Fed(p, []);
  }

  lemma {:induction false} FeedTwoBytes(f: Stepper, p: Parser, c: Byte, d: Byte)
    ensures FeedWith(f, p, [c, d]) == Then(Then(Fed(p, []), f(p, c)), f(f(p, c).0, d))
  {
    assert [c, d][..1] == [c];
    FeedOneByte(f, p, c);
  }

  /** For every stream of bytes, the line buffer never overflows. */
  lemma {:induction false} LineFits(p: Parser, bs: seq<Byte>)
    requires |p.line| <= MAX_PACKET_LENGTH - 1
    ensures |Feed(p, bs).p.line| <= MAX_PACKET_LENGTH - 1
  {
    if bs != [] { LineFits(p, bs[..|bs| - 1]); }
  }

  // -------------------------------------------------------------------------------------------
  // Round trip
  // -------------------------------------------------------------------------------------------

  /** The parser undoes the escaping. */
  lemma {:induction false} FeedEscaped(p: Parser, mem: seq<Byte>)
    requires p.state.GetLine? && |p.line| + |mem| <= MAX_PACKET_LENGTH - 1
    ensures Feed(p, Escape(mem)) == Fed(Got(p, mem), [])
  {
    if mem == [] {
      assert p.line + mem == p.line;
    } else {
      var n := |mem| - 1;
      FeedEscaped(p, mem[..n]);
      FeedEscapedByte(Got(p, mem[..n]), mem[n]);
      FeedThen(p, Got(p, mem[..n]), GotOne(Got(p, mem[..n]), mem[n]), Escape(mem[..n]), EscapeByte(mem[n]), []);
      GotNext(p, mem);
    }
  }

  /** The parser with more characters in its line, which came escaped. */
  function Got(p: Parser, mem: seq<Byte>): Parser {
    p.(line := p.line + mem, sum := p.sum + Sum(Escape(mem)))
  }

  lemma {:induction false} GotNext(p: Parser, mem: seq<Byte>)
    requires mem != []
    ensures GotOne(Got(p, mem[..|mem| - 1]), mem[|mem| - 1]) == Got(p, mem)
    ensures Escape(mem[..|mem| - 1]) + EscapeByte(mem[|mem| - 1]) == Escape(mem)
  {
    var n := |mem| - 1;
    SumAppend(Escape(mem[..n]), EscapeByte(mem[n]));
    assert p.line + mem[..n] + [mem[n]] == p.line + mem;
  }

  /** The parser with one more character in its line, which came escaped if need be. */
  function GotOne(p: Parser, c: Byte): Parser {
    p.(line := p.line + [c], sum := p.sum + Sum(EscapeByte(c)))
  }

  lemma {:induction false} FeedThen(p: Parser, q: Parser, r: Parser, a: seq<Byte>, b: seq<Byte>, es: seq<Event>)
    requires Feed(p, a) == Fed(q, []) && Feed(q, b) == Fed(r, es)
    ensures Feed(p, a + b) == Fed(r, es)
  {
    FeedAppend(Step, p, a, b);
    assert [] + es == es;
  }

  lemma {:induction false} SumTwo(c: Byte, d: Byte)
    ensures Sum([c, d]) == c as int + d as int && Sum([c]) == c as int
  {
    assert [c, d][..1] == [c] && [c][..0] == [];
    assert Sum([c]) == Sum([c][..0]) + c as int;
    assert Sum([c, d]) == Sum([c, d][..1]) + d as int;
  }

  lemma {:induction false} FeedEscapedByte(p: Parser, c: Byte)
    requires p.state.GetLine? && |p.line| < MAX_PACKET_LENGTH - 1
    ensures Feed(p, EscapeByte(c)) == Fed(GotOne(p, c), [])
  {
    if Special(c) {
      FlipTwice(c);
      FeedTwoBytes(Step, p, BRACE, Flip(c));
      SumTwo(BRACE, Flip(c));
    } else {
      FeedOneByte(Step, p, c);
      SumTwo(c, c);
    }
  }

  /** Two digits of a checksum, read back. */
  lemma {:induction false} FeedChecksum(p: Parser, sum: int)
    requires p.state.Chksum1? && p.sum % 256 == sum % 256
    ensures Feed(p, Checksum(sum)) == Fed(p.(state := Idle, csum := sum % 256), [Ack(p.line)])
  {
    FeedTwoBytes(Step, p, ToHex(sum / 16 % 16), ToHex(sum % 16));
    TwoDigits(sum);
  }

  lemma {:induction false} TwoDigits(sum: int)
    ensures sum / 16 % 16 * 16 + sum % 16 == sum % 256
  {
  }

  /**
   Reading what memtox and put_packet_binary have written gives the payload back, and is acknowledged,
   for every payload that fits into the line buffer.
   */
  lemma {:induction false} RoundTrip(p: Parser, mem: seq<Byte>)
    requires p.state.Idle? && |mem| <= MAX_PACKET_LENGTH - 1
    ensures var r := Feed(p, Frame(Escape(mem))); r.p.state.Idle? && r.events == [Ack(mem)]
  {
    var data := Escape(mem);
    var q := Parser(GetLine, mem, Sum(data), p.csum);
    FeedBody(p, mem);
    FeedOneByte(Step, q, HASH);
    FeedThen(p, q, q.(state := Chksum1), [DOLLAR] + data, [HASH], []);
    SumsAgree(data);
    FeedChecksum(q.(state := Chksum1), SignedSum(data));
    FeedThen(p, q.(state := Chksum1), q.(state := Idle, csum := SignedSum(data) % 256), [DOLLAR] + data + [HASH],
      Checksum(SignedSum(data)), [Ack(mem)]);
  }

  lemma {:induction false} FeedBody(p: Parser, mem: seq<Byte>)
    requires p.state.Idle? && |mem| <= MAX_PACKET_LENGTH - 1
    ensures Feed(p, [DOLLAR] + Escape(mem)) == Fed(Parser(GetLine, mem, Sum(Escape(mem)), p.csum), [])
  {
    var q := Parser(GetLine, [], 0, p.csum);
    FeedOneByte(Step, p, DOLLAR);
    FeedEscaped(q, mem);
    assert [] + mem == mem;
    FeedThen(p, q, Parser(GetLine, mem, Sum(Escape(mem)), p.csum), [DOLLAR], Escape(mem), []);
  }

  // -------------------------------------------------------------------------------------------
  // The stub in place
  // -------------------------------------------------------------------------------------------

  class GdbState {
    var state: RsState
    var lineBuf: array<Byte>
    var lineBufIndex: nat
    var lineSum: int
    var lineCsum: int
    var lastPacket: array<Byte>
    var lastPacketLen: nat
    var sent: seq<Byte>              // what put_buffer has written
    var handled: seq<seq<Byte>>      // what gdb_handle_packet has been called with

    ghost predicate Valid()
      reads this
    {
      && lineBuf != lastPacket && lineBuf.Length == MAX_PACKET_LENGTH && lastPacket.Length == MAX_PACKET_LENGTH + 4
      && lineBufIndex <= MAX_PACKET_LENGTH - 1 && lastPacketLen <= lastPacket.Length
    }

    ghost function Abs(): Parser
      reads this, lineBuf
      requires Valid()
    {
      Parser(state, lineBuf[..lineBufIndex], lineSum, lineCsum)
    }

    constructor ()
      ensures Valid() && fresh(lineBuf) && fresh(lastPacket) && state == Idle && lastPacketLen == 0 && sent == []
      ensures handled == []
    {
      state, lineBuf, lineBufIndex, lineSum, lineCsum := Idle, new Byte[MAX_PACKET_LENGTH](_ => 0), 0, 0, 0;
      lastPacket, lastPacketLen := new Byte[MAX_PACKET_LENGTH + 4](_ => 0), 0;
      sent, handled := [], [];
    }

    /** gdb_read_byte; running says whether the virtual machine runs, and then only stop is asked for. */
    method ReadByte(ch: Byte, running: bool) returns (stop: bool)
      requires Valid()
      modifies this, lineBuf
      ensures Valid() && lineBuf == old(lineBuf) && lastPacket == old(lastPacket)
      ensures var waiting := old(lastPacketLen) > 0 && ch != DOLLAR;
        && stop == (!waiting && running)
        && lastPacketLen == (if ch == PLUS || ch == DOLLAR then 0 else old(lastPacketLen))
        && (waiting ==> Abs() == old(Abs()) && handled == old(handled)
                        && sent == old(sent) + if ch == MINUS then old(lastPacket[..lastPacketLen]) else [])
        && (stop ==> Abs() == old(Abs()) && handled == old(handled) && sent == old(sent))
        && (!waiting && !stop ==>
              var (p, e) := Step(old(Abs()), ch);
              Abs() == p && match e
              case Nothing => sent == old(sent) && handled == old(handled)
              case Ack(packet) => sent == old(sent) + [PLUS] && handled == old(handled) + [packet]
              case Nak => sent == old(sent) + [MINUS] && handled == old(handled))
    {
      if lastPacketLen > 0 {
        if ch == MINUS {
          sent := sent + lastPacket[..lastPacketLen];
        }
        if ch == PLUS || ch == DOLLAR {
          lastPacketLen := 0;
        }
        if ch != DOLLAR {
          return false;
        }
      }
      if running {
        return true;
      }
      match state {
      case Idle =>
        if ch == DOLLAR {
          lineBufIndex, lineSum, state := 0, 0, GetLine;
        }
      case GetLine => ReadLine(ch);
      case GetLineEsc =>
        if ch == HASH {
          state := Chksum1;
        } else if lineBufIndex >= lineBuf.Length - 1 {
          state := Idle;
        } else {
          Put(Flip(ch));
          lineSum, state := lineSum + ch as int, GetLine;
        }
      case GetLineRle => ReadRepeat(ch);
      case Chksum1 =>
        if !IsHexDigit(ch) {
          state := GetLine;
        } else {
          lineBuf[lineBufIndex] := 0;
          lineCsum, state := FromHex(ch) * 16, Chksum2;
        }
      case Chksum2 =>
        if !IsHexDigit(ch) {
          state := GetLine;
        } else {
          lineCsum := lineCsum + FromHex(ch);
          state := Idle;
          if lineCsum != lineSum % 256 {
            sent := sent + [MINUS];
          } else {
            sent := sent + [PLUS];
            handled := handled + [lineBuf[..lineBufIndex]];
          }
        }
      }
      return false;
    }

    method Put(c: Byte)
      requires Valid() && lineBufIndex < MAX_PACKET_LENGTH - 1
      modifies this`lineBufIndex, lineBuf
      ensures Valid() && lineBufIndex == old(lineBufIndex) + 1
      ensures lineBuf[..lineBufIndex] == old(lineBuf[..lineBufIndex]) + [c]
    {
      lineBuf[lineBufIndex] := c;
      lineBufIndex := lineBufIndex + 1;
    }

    /** RS_GETLINE */
    method ReadLine(ch: Byte)
      requires Valid() && state == GetLine
      modifies this`state, this`lineBufIndex, this`lineSum, lineBuf
      ensures Valid() && Abs() == Step(old(Abs()), ch).0
    {
      if ch == BRACE {
        state, lineSum := GetLineEsc, lineSum + ch as int;
      } else if ch == STAR {
        state, lineSum := GetLineRle, lineSum + ch as int;
      } else if ch == HASH {
        state := Chksum1;
      } else if lineBufIndex >= lineBuf.Length - 1 {
        state := Idle;
      } else {
        Put(ch);
        lineSum := lineSum + ch as int;
      }
    }

    /** RS_GETLINE_RLE */
    method ReadRepeat(ch: Byte)
      requires Valid() && state == GetLineRle
      modifies this`state, this`lineBufIndex, this`lineSum, lineBuf
      ensures Valid() && Abs() == Step(old(Abs()), ch).0
    {
      if ch < SPACE {
        state := GetLine;
        return;
      }
      var repeat := ch as int - 32 + 3;
      if lineBufIndex + repeat >= lineBuf.Length - 1 {
        state := Idle;
      } else if lineBufIndex < 1 {
        state := GetLine;
      } else {
        var i := 0;
        var c := lineBuf[lineBufIndex - 1];
        ghost var line := lineBuf[..lineBufIndex];
        while i < repeat
          invariant 0 <= i <= repeat
          invariant lineBuf[..lineBufIndex + i] == line + seq(i, _ => c)
          modifies lineBuf
        {
          lineBuf[lineBufIndex + i] := c;
          i := i + 1;
        }
        lineBufIndex, lineSum, state := lineBufIndex + repeat, lineSum + ch as int, GetLine;
      }
    }

    /** The copy and the checksum of put_packet_binary */
    method CopyData(data: seq<Byte>) returns (csum: int)
      requires Valid() && |data| <= MAX_PACKET_LENGTH
      modifies lastPacket
      ensures csum == SignedSum(data) && lastPacket[1..1 + |data|] == data && lastPacket[0] == old(lastPacket[0])
    {
      csum := 0;
      var i := 0;
      while i < |data|
        invariant 0 <= i <= |data| && lastPacket[0] == old(lastPacket[0])
        invariant lastPacket[1..1 + i] == data[..i] && csum == SignedSum(data[..i])
      {
        assert data[..i + 1][..i] == data[..i];
        lastPacket[1 + i] := data[i];
        csum := csum + Signed(data[i]);
        i := i + 1;
      }
      assert data[..i] == data;
    }

    /** put_packet_binary */
    method PutPacketBinary(data: seq<Byte>)
      requires Valid() && |data| <= MAX_PACKET_LENGTH
      modifies this`lastPacketLen, this`sent, lastPacket
      ensures Valid() && lastPacketLen == |data| + 4
      ensures lastPacket[..lastPacketLen] == Frame(data) && sent == old(sent) + Frame(data)
    {
      lastPacket[0] := DOLLAR;
      var csum := CopyData(data);
      var n := |data| + 1;
      lastPacket[n] := HASH;
      lastPacket[n + 1] := ToHex(csum / 16 % 16);
      lastPacket[n + 2] := ToHex(csum % 16);
      lastPacketLen := n + 3;
      FrameIs(lastPacket[..n + 3], data);
      sent := sent + lastPacket[..lastPacketLen];
    }
  }

  lemma {:induction false} FrameIs(packet: seq<Byte>, data: seq<Byte>)
    requires |packet| == |data| + 4 && packet[0] == DOLLAR && packet[1..1 + |data|] == data
    requires packet[|data| + 1] == HASH
    requires packet[|data| + 2] == ToHex(SignedSum(data) / 16 % 16) && packet[|data| + 3] == ToHex(SignedSum(data) % 16)
    ensures packet == Frame(data)
  {
    var f := Frame(data);
    forall i | 0 <= i < |packet| ensures packet[i] == f[i] {
      if 1 <= i <= |data| { assert packet[i] == packet[1..1 + |data|][i - 1]; }
    }
  }

  /** memtox; buf has room for two characters for each byte. */
  method MemToX(buf: array<Byte>, mem: seq<Byte>) returns (n: nat)
    requires 2 * |mem| <= buf.Length
    modifies buf
    ensures n <= buf.Length && buf[..n] == Escape(mem)
  {
    n := 0;
    var i := 0;
    while i < |mem|
      invariant 0 <= i <= |mem| && n <= 2 * i && buf[..n] == Escape(mem[..i])
    {
      assert mem[..i + 1][..i] == mem[..i];
      var c := mem[i];
      if c == HASH || c == DOLLAR || c == STAR || c == BRACE {
        buf[n] := BRACE;
        buf[n + 1] := Flip(c);
        n := n + 2;
      } else {
        buf[n] := c;
        n := n + 1;
      }
      i := i + 1;
    }
    assert mem[..i] == mem;
  }
}
