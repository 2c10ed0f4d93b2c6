/** struct libwebsocket and the three routines of parsers.c that change it: the writer, which builds and masks a frame
    in the caller's buffer, and the two receive machines. */
module WsConnection {
  import opened Bytes
  import opened WsMask
  import opened WsReceive
  import opened WsSend

  const PRE_PADDING := 14

  class Wsi {
    const conn: Conn
    var parse: Parse                      // lws_rx_parse_state
    const frameMaskingNonce: array<byte>
    var allZeroNonce: bool
    var frameMaskIndex: nat
    var opcode: nat
    var fin: bool
    var thisFrameMasked: bool
    var rxPacketLength: nat
    const rxUserBuffer: array<byte>
    var rxUserBufferHead: nat
    var pingsVsPongs: int

    var events: seq<Event>                // callbacks made and answers asked for
    var sent: seq<byte>                   // octets handed to the socket

    ghost predicate Valid()
      reads this, frameMaskingNonce, rxUserBuffer
    {
      && frameMaskingNonce.Length == 4 && rxUserBuffer.Length == MAX_USER_RX_BUFFER
      && frameMaskingNonce != rxUserBuffer
      && rxUserBufferHead < MAX_USER_RX_BUFFER && ValidRx(conn, State())
    }

    ghost function State(): Rx
      requires rxUserBufferHead <= rxUserBuffer.Length
      reads this, frameMaskingNonce, rxUserBuffer
    {
      Rx(parse, frameMaskingNonce[..], allZeroNonce, frameMaskIndex, opcode, fin, thisFrameMasked, rxPacketLength,
         rxUserBuffer[..rxUserBufferHead], pingsVsPongs)
    }

    constructor (conn: Conn)
      requires ValidConn(conn)
      ensures Valid() && this.conn == conn && fresh(frameMaskingNonce) && fresh(rxUserBuffer)
      ensures State().parse == New && State().buffer == [] && events == [] && sent == []
    {
      this.conn := conn;
      frameMaskingNonce, rxUserBuffer := new byte[4](_ => 0), new byte[MAX_USER_RX_BUFFER](_ => 0);
      parse, allZeroNonce, frameMaskIndex, opcode, fin, thisFrameMasked := New, false, 0, 0, false, false;
      rxPacketLength, rxUserBufferHead, pingsVsPongs, events, sent := 0, 0, 0, [], [];
    }

    /** xor_mask_04, xor_mask_05 or xor_no_mask. */
    method XorMask(c: byte) returns (r: byte)
      requires |conn.key04| == 20 && frameMaskingNonce.Length == 4 && ValidIndex(conn.kind, frameMaskIndex)
      modifies this`frameMaskIndex
      ensures r == MaskByte(Keys(conn.kind, frameMaskingNonce[..], conn.key04), old(frameMaskIndex), c)
      ensures frameMaskIndex == NextIndex(conn.kind, old(frameMaskIndex))
    {
      match conn.kind {
        case NoMask =>
          r := c;
        case Mask04 =>
          r := Xor(c, conn.key04[frameMaskIndex]);
          frameMaskIndex := frameMaskIndex + 1;
          if frameMaskIndex == 20 {
            frameMaskIndex := 0;
          }
        case Mask05 =>
          r := Xor(c, frameMaskingNonce[frameMaskIndex % 4]);
          frameMaskIndex := (frameMaskIndex + 1) % 256;
      }
    }

    // ----- writing -----

    /** The masking loops of libwebsocket_write: `count` octets from `from`. */
    method MaskInPlace(buf: array<byte>, from: nat, count: int)
      requires from <= buf.Length && from + count <= buf.Length && buf != frameMaskingNonce
      requires |conn.key04| == 20 && frameMaskingNonce.Length == 4 && frameMaskIndex == 0
      modifies this`frameMaskIndex, buf
      ensures ValidIndex(conn.kind, frameMaskIndex)
      ensures buf[from..] == MaskedFirst(Keys(conn.kind, frameMaskingNonce[..], conn.key04), old(buf[from..]), count)
      ensures buf[..from] == old(buf[..from])
    {
      hide Masked, MaskByte, NextIndex, EndIndex;
      ghost var k, s := Keys(conn.kind, frameMaskingNonce[..], conn.key04), buf[from..];
      var n := 0;
      MaskedNothing(k, s);
      while n < count
        invariant 0 <= n && (n <= count || n == 0)
        invariant ValidIndex(conn.kind, frameMaskIndex) && frameMaskIndex == EndIndex(conn.kind, 0, n)
        invariant buf[..from] == old(buf[..from])
        invariant n <= |s| && buf[from..from + n] == Masked(k, 0, s[..n])
        invariant buf[from + n..] == s[n..]
      {
        MaskedOneMore(k, s, n);
        var c := buf[from + n];
        assert c == buf[from + n..][0] == s[n];
        ghost var before := buf[from..from + n];
        var r := XorMask(c);
        buf[from + n] := r;
        n := n + 1;
        assert buf[from..from + n] == before + [r];
        assert buf[from + n..] == s[n - 1..][1..];
      }
      assert buf[from..] == buf[from..from + n] + buf[from + n..];
    }

    /** libwebsocket_write on an established connection: `len` octets of payload at `at`, with room for the header in
        front of them; `random` is what the random device gave. */
    method Write(buf: array<byte>, at: nat, len: nat, p: Protocol, fin: bool,
                  ignoreMask: bool, random: seq<byte>)
      requires Valid() && PRE_PADDING <= at && at + len == buf.Length && |random| == 4
      requires buf != frameMaskingNonce && buf != rxUserBuffer
      modifies this, frameMaskingNonce, buf
      ensures Valid() && rxUserBuffer[..] == old(rxUserBuffer[..])
      ensures len > 0 ==> sent == old(sent) + FrameBytes(conn, p, fin, ignoreMask, random, old(buf[at..]))
      ensures len == 0 ==> sent == old(sent)
      ensures events == old(events)
      ensures pingsVsPongs == old(pingsVsPongs) + if p == Ping && len > 0 then 1 else 0
    {
      if len == 0 {
        return;
      }
      hide *;
      var revision := conn.revision;
      var masked7 := !conn.server && conn.kind != NoMask;
      var maskBit: byte := 0;
      var dropMask := at;
      if revision >= 7 && masked7 {
        dropMask := at - 4;
        maskBit := 128;
      }
      if p == Ping {
        CountPing();
      }
      ghost var payload := buf[at..];
      assert payload == buf[dropMask..][at - dropMask..];
      var start := PutHeader(buf, dropMask, len, p, fin, maskBit);
      assert buf[at..] == buf[dropMask..][at - dropMask..] == payload;
      WriteBehindHeader(buf, at, start, len, p, fin, ignoreMask, random);
    }

    method CountPing()
      requires Valid()
      modifies this`pingsVsPongs
      ensures Valid() && pingsVsPongs == old(pingsVsPongs) + 1
    {
      pingsVsPongs := pingsVsPongs + 1;
    }

    /** Masks and sends what stands behind `start`: the header, room for a nonce where there is one, and the payload. */
    method WriteBehindHeader(buf: array<byte>, at: nat, start: nat, len: nat, p: Protocol, fin: bool,
                  ignoreMask: bool, random: seq<byte>)
      requires Valid() && PRE_PADDING <= at && at + len == buf.Length && |random| == 4
      requires !conn.server && conn.revision < 7 ==> 4 <= start
      requires buf != frameMaskingNonce && buf != rxUserBuffer
      requires var late := !conn.server && conn.revision >= 7 && conn.kind != NoMask;
               var end, bit := if late then at - 4 else at, if late then 128 else 0;
               start + |Header(conn.revision, p, fin, bit, len)| == end && buf[start..end] == Header(conn.revision, p, fin, bit, len)
      modifies this`frameMaskIndex, this`sent, frameMaskingNonce, buf
      ensures Valid() && rxUserBuffer[..] == old(rxUserBuffer[..])
      ensures sent == old(sent) + FrameBytes(conn, p, fin, ignoreMask, random, old(buf[at..]))
    {
      assert ValidConn(conn);
      hide Header, FrameBytes, ValidRx;
      if !conn.server && conn.revision < 7 {
        WriteClient04(buf, at, start, len, p, fin, ignoreMask, random);
      } else if !conn.server && conn.kind != NoMask {
        WriteClient07(buf, at, start, len, p, fin, ignoreMask, random);
      } else {
        FramePlain(conn, p, fin, ignoreMask, random, buf[at..]);
        assert buf[start..] == buf[start..at] + buf[at..];
        sent := sent + buf[start..];
      }
    }

    /** libwebsocket_0405_frame_mask_generate. */
    method FrameMaskGenerate(random: seq<byte>)
      requires frameMaskingNonce.Length == 4 == |random|
      modifies this`frameMaskIndex, frameMaskingNonce
      ensures frameMaskingNonce[..] == random && frameMaskIndex == 0
    {
      forall i | 0 <= i < 4 {
        frameMaskingNonce[i] := random[i];
      }
      frameMaskIndex := 0;
    }

    /** Client, revisions 4 to 6: the mask goes over header and payload. */
    method MaskAll(buf: array<byte>, start: nat, count: int, random: seq<byte>)
      requires Valid() && start <= buf.Length && start + count <= buf.Length && |random| == 4
      requires buf != frameMaskingNonce && buf != rxUserBuffer
      modifies this`frameMaskIndex, frameMaskingNonce, buf
      ensures Valid() && rxUserBuffer[..] == old(rxUserBuffer[..])
      ensures buf[start..] == MaskedFirst(Keys(conn.kind, random, conn.key04), old(buf[start..]), count)
    {
      hide MaskedFirst, Unmask;
      FrameMaskGenerate(random);
      MaskInPlace(buf, start, count);
    }

    /** Client, revisions 4 to 6: everything behind the nonce is masked. */
    method WriteClient04(buf: array<byte>, at: nat, start: nat, len: nat, p: Protocol, fin: bool,
                  ignoreMask: bool, random: seq<byte>)
      requires Valid() && !conn.server && conn.revision < 7 && at + len == buf.Length && |random| == 4
      requires 4 <= start && buf != frameMaskingNonce && buf != rxUserBuffer
      requires start + |Header(conn.revision, p, fin, 0, len)| == at && buf[start..at] == Header(conn.revision, p, fin, 0, len)
      modifies this`frameMaskIndex, this`sent, frameMaskingNonce, buf
      ensures Valid() && rxUserBuffer[..] == old(rxUserBuffer[..])
      ensures sent == old(sent) + FrameBytes(conn, p, fin, ignoreMask, random, old(buf[at..]))
    {
      assert ValidConn(conn) && |ZERO_NONCE| == 4;
      hide *;
      ghost var payload := buf[at..];
      SliceThen(buf[..], start, at);
      Frame04(conn, p, fin, ignoreMask, random, payload);
      if !ignoreMask && conn.kind != NoMask {
        SendMasked(buf, start, at - start + ToInt(len), random);
      } else {
        SendBehindNonce(buf, start, ZERO_NONCE);
      }
    }

    method SendMasked(buf: array<byte>, start: nat, count: int, random: seq<byte>)
      requires Valid() && 4 <= start <= buf.Length && start + count <= buf.Length && |random| == 4
      requires buf != frameMaskingNonce && buf != rxUserBuffer
      modifies this`frameMaskIndex, this`sent, frameMaskingNonce, buf
      ensures Valid() && rxUserBuffer[..] == old(rxUserBuffer[..])
      ensures sent == old(sent) + (random + MaskedFirst(Keys(conn.kind, random, conn.key04), old(buf[start..]), count))
    {
      hide *;
      MaskAll(buf, start, count, random);
      SendBehindNonce(buf, start, random);
    }

    method SendBehindNonce(buf: array<byte>, start: nat, nonce: seq<byte>)
      requires Valid() && 4 <= start <= buf.Length && |nonce| == 4 && buf != frameMaskingNonce && buf != rxUserBuffer
      modifies this`sent, buf
      ensures Valid() && rxUserBuffer[..] == old(rxUserBuffer[..])
      ensures sent == old(sent) + (nonce + old(buf[start..]))
    {
      hide ValidRx;
      PutOctets(buf, start - 4, nonce);
      assert buf[start - 4..] == buf[start - 4..start] + buf[start..];
      sent := sent + buf[start - 4..];
    }

    /** Client, revisions 7 and later: the nonce stands behind the header, only the payload is masked. */
    method WriteClient07(buf: array<byte>, at: nat, start: nat, len: nat, p: Protocol, fin: bool,
                  ignoreMask: bool, random: seq<byte>)
      requires Valid() && !conn.server && conn.revision >= 7 && conn.kind != NoMask && at + len == buf.Length && |random| == 4
      requires buf != frameMaskingNonce && buf != rxUserBuffer && 4 <= at
      requires start + |Header(conn.revision, p, fin, 128, len)| == at - 4
      requires buf[start..at - 4] == Header(conn.revision, p, fin, 128, len)
      modifies this`frameMaskIndex, this`sent, frameMaskingNonce, buf
      ensures Valid() && rxUserBuffer[..] == old(rxUserBuffer[..])
      ensures sent == old(sent) + FrameBytes(conn, p, fin, ignoreMask, random, old(buf[at..]))
    {
      assert ValidConn(conn) && |ZERO_NONCE| == 4;
      hide *;
      ghost var head, payload := buf[start..at - 4], buf[at..];
      Frame07(conn, p, fin, ignoreMask, random, payload);
      if !ignoreMask {
        MaskPayload(buf, at, start, len, random);
        SendAroundNonce(buf, at, start, random, head, buf[at..]);
      } else {
        SendAroundNonce(buf, at, start, ZERO_NONCE, head, payload);
      }
    }

    method MaskPayload(buf: array<byte>, at: nat, ghost start: nat, len: nat, random: seq<byte>)
      requires Valid() && at + len == buf.Length && |random| == 4 && buf != frameMaskingNonce && buf != rxUserBuffer
      requires start + 4 <= at
      modifies this`frameMaskIndex, frameMaskingNonce, buf
      ensures Valid() && rxUserBuffer[..] == old(rxUserBuffer[..]) && buf[start..at - 4] == old(buf[start..at - 4])
      ensures buf[at..] == MaskedFirst(Keys(conn.kind, random, conn.key04), old(buf[at..]), ToInt(len))
    {
      hide MaskedFirst, Unmask, Masked;
      SliceOfTake(buf[..], at, start, at - 4);
      FrameMaskGenerate(random);
      MaskInPlace(buf, at, ToInt(len));
      SliceOfTake(buf[..], at, start, at - 4);
    }

    method SendAroundNonce(buf: array<byte>, at: nat, start: nat, nonce: seq<byte>, ghost head: seq<byte>, ghost payload: seq<byte>)
      requires Valid() && start + 4 <= at <= buf.Length && |nonce| == 4 && buf != frameMaskingNonce && buf != rxUserBuffer
      requires buf[start..at - 4] == head && buf[at..] == payload
      modifies this`sent, buf
      ensures Valid() && rxUserBuffer[..] == old(rxUserBuffer[..])
      ensures sent == old(sent) + (head + nonce + payload)
    {
      hide ValidRx;
      PutOctets(buf, at - 4, nonce);
      assert buf[start..at - 4] == buf[..at - 4][start..];
      assert buf[start..] == buf[start..at - 4] + buf[at - 4..];
      assert buf[at - 4..] == buf[at - 4..at] + buf[at..];
      Associative(head, nonce, payload);
      sent := sent + buf[start..];
    }

    method PutOctets(buf: array<byte>, at: nat, octets: seq<byte>)
      requires at + |octets| <= buf.Length
      modifies buf
      ensures var end := at + |octets|;
              buf[at..end] == octets && buf[..at] == old(buf[..at]) && buf[end..] == old(buf[end..])
    {
      forall i | 0 <= i < |octets| {
        buf[at + i] := octets[i];
      }
    }

    /** The frame header, ending at `end`. */
    method PutHeader(buf: array<byte>, end: nat, len: nat, p: Protocol, fin: bool, maskBit: byte) returns (start: nat)
      requires 10 <= end <= buf.Length && (maskBit == 0 || maskBit == 128) && buf != frameMaskingNonce && buf != rxUserBuffer
      modifies buf
      ensures start == end - |Header(conn.revision, p, fin, maskBit, len)| && end <= start + 10
      ensures buf[start..end] == Header(conn.revision, p, fin, maskBit, len)
      ensures buf[..start] == old(buf[..start]) && buf[end..] == old(buf[end..])
    {
      hide BigEndian, WireOpcode, ValidRx;
      var first := WireOpcode(conn.revision, p) + if fin then 128 else 0;
      var octets: seq<byte> := [];
      var l := len;
      if len < 126 {
        start := end - 2;
      } else if len < 65536 {
        start := end - 4;
        l, octets := 126, BigEndian(2, len);
      } else {
        start := end - 10;
        l, octets := 127, BigEndian(8, len % 0x8000_0000_0000_0000);
      }
      PutOctets(buf, start, [first] + ([l + maskBit] + octets));
    }

    // ----- receiving -----

    /** The object has done what the machine's step `o` says. */
    ghost predicate Did(ok: bool, o: Out, before: seq<Event>)
      reads this, frameMaskingNonce, rxUserBuffer
    {
      && ok == o.Next? && events == before + o.events
      && (o.Next? ==> Valid() && State() == o.rx)
    }

    /** libwebsocket_rx_sm on a server connection, libwebsocket_client_rx_sm on a client connection; false closes it. */
    method RxSm(c: byte) returns (ok: bool)
      requires Valid()
      modifies this, frameMaskingNonce, rxUserBuffer
      ensures Did(ok, Step(conn, old(State()), c), old(events)) && sent == old(sent)
    {
      hide ValidRx, NewFrame, NonceOctet, FirstOctet, LengthOctet, LengthMore, KeyOctet, PayloadOctet;
      match parse {
        case New => ok := RxNew(c);
        case Nonce(i) => ok := RxNonce(c, i);
        case Hdr1 => ok := RxFirst(c);
        case HdrLen => ok := RxLength(c);
        case Len(left, width) => ok := RxLengthMore(c, left, width);
        case Key(i) => ok := RxKey(c, i);
        case Payload => ok := RxPayload(c);
      }
    }

    method RxNew(c: byte) returns (ok: bool)
      requires Valid()
      modifies this, frameMaskingNonce
      ensures Did(ok, NewFrame(conn, old(State()), c), old(events)) && sent == old(sent)
    {
      hide FirstOctet;
      if conn.server && conn.revision < 7 {
        allZeroNonce := true;
        frameMaskingNonce[0] := c;
        if c != 0 {
          allZeroNonce := false;
        }
        parse := Nonce(1);
        assert frameMaskingNonce[..] == old(frameMaskingNonce[..])[0 := c];
        return true;
      }
      if conn.server {
        allZeroNonce := true;
      }
      ok := RxFirst(c);
    }

    method RxNonce(c: byte, i: nat) returns (ok: bool)
      requires Valid() && parse == Nonce(i)
      modifies this, frameMaskingNonce
      ensures Did(ok, NonceOctet(conn, old(State()), c), old(events)) && sent == old(sent)
    {
      frameMaskingNonce[i] := c;
      assert frameMaskingNonce[..] == old(frameMaskingNonce[..])[i := c];
      if c != 0 {
        allZeroNonce := false;
      }
      if i < 3 {
        parse := Nonce(i + 1);
        return true;
      }
      // revision 4 computes frame_mask_04 here, which no mask function reads
      if !conn.defeatMask {
        frameMaskIndex := 0;
      }
      parse := Hdr1;
      return true;
    }

    /** The octet as the header parser sees it. */
    method Clear(c: byte) returns (d: byte)
      requires Valid()
      modifies this`frameMaskIndex
      ensures Valid() && (d, State()) == Unmask(conn, old(State()), HeaderKeys(conn, old(State())), c)
    {
      d := c;
      if conn.server && conn.revision < 7 {
        d := XorMask(c);
      }
    }

    method RxFirst(c: byte) returns (ok: bool)
      requires Valid() && (conn.server && conn.revision < 7 ==> parse == Hdr1)
      modifies this
      ensures Did(ok, FirstOctet(conn, old(State()), c), old(events)) && sent == old(sent)
    {
      hide FromOpcode04, Unmask;
      var d := Clear(c);
      if conn.revision < 7 {
        var op := FromOpcode04(d % 16);
        if op.None? {
          return false;
        }
        opcode := op.value;
      } else {
        opcode := d % 16;
      }
      fin := d >= 128;
      parse := HdrLen;
      return true;
    }

    method RxLength(c: byte) returns (ok: bool)
      requires Valid() && parse == HdrLen
      modifies this
      ensures Did(ok, LengthOctet(conn, old(State()), c), old(events)) && sent == old(sent)
    {
      hide AfterLength, Unmask;
      var d := Clear(c);
      if d >= 128 && conn.revision < 7 {
        return false;
      }
      thisFrameMasked := d >= 128;
      if d % 128 == 126 {
        if IsControl(opcode) {
          return false;
        }
        parse := Len(2, 2);
        return true;
      }
      if d % 128 == 127 {
        if IsControl(opcode) {
          return false;
        }
        parse := Len(8, 8);
        return true;
      }
      rxPacketLength := if conn.server then d % 128 else d;
      ok := RxAfterLength();
    }

    method RxLengthMore(c: byte, left: nat, width: nat) returns (ok: bool)
      requires Valid() && parse == Len(left, width)
      modifies this
      ensures Did(ok, LengthMore(conn, old(State()), c), old(events)) && sent == old(sent)
    {
      hide AfterLength, Unmask, Shifted;
      var d := Clear(c);
      if left == 8 && d >= 128 {
        return false;
      }
      if left == width {
        rxPacketLength := Shifted(d, left - 1);
      } else {
        rxPacketLength := rxPacketLength + Shifted(d, left - 1);
      }
      if left > 1 {
        parse := Len(left - 1, width);
        return true;
      }
      ok := RxAfterLength();
    }

    method RxAfterLength() returns (ok: bool)
      requires Valid()
      modifies this
      ensures Did(ok, AfterLength(conn, old(State())), old(events)) && sent == old(sent)
    {
      hide Spill;
      if thisFrameMasked {
        parse := Key(1);
        return true;
      }
      ok := RxAfterHeader();
    }

    method RxAfterHeader() returns (ok: bool)
      requires Valid()
      modifies this
      ensures Did(ok, AfterHeader(conn, old(State())), old(events)) && sent == old(sent)
    {
      hide Spill;
      if conn.server || rxPacketLength != 0 {
        parse := Payload;
        return true;
      }
      parse := New;
      ok := RxSpill();
    }

    method RxKey(c: byte, i: nat) returns (ok: bool)
      requires Valid() && parse == Key(i)
      modifies this, frameMaskingNonce
      ensures Did(ok, KeyOctet(conn, old(State()), c), old(events)) && sent == old(sent)
    {
      hide AfterHeader;
      frameMaskingNonce[i - 1] := c;
      assert frameMaskingNonce[..] == old(frameMaskingNonce[..])[i - 1 := c];
      if c != 0 {
        allZeroNonce := false;
      }
      if i < 4 {
        parse := Key(i + 1);
        return true;
      }
      if conn.server {
        parse := Payload;
        frameMaskIndex := 0;
        return true;
      }
      ok := RxAfterHeader();
    }

    /** The octet as the user sees it. */
    method Unmasked(c: byte) returns (d: byte)
      requires Valid()
      modifies this`frameMaskIndex
      ensures Valid() && (d, State()) == Unmask(conn, old(State()), PayloadKeys(conn, old(State())), c)
    {
      var raw := if conn.server then allZeroNonce && conn.revision >= 5 else !thisFrameMasked || allZeroNonce;
      d := c;
      if !raw {
        d := XorMask(c);
      }
    }

    method RxPayload(c: byte) returns (ok: bool)
      requires Valid() && parse == Payload
      modifies this, rxUserBuffer
      ensures Did(ok, PayloadOctet(conn, old(State()), c), old(events)) && sent == old(sent)
    {
      hide Spill, Unmask, PayloadKeys;
      var d := Unmasked(c);
      rxUserBuffer[rxUserBufferHead] := d;
      rxUserBufferHead := rxUserBufferHead + 1;
      assert rxUserBuffer[..rxUserBufferHead] == old(rxUserBuffer[..rxUserBufferHead]) + [d];
      rxPacketLength := Decremented(rxPacketLength);
      if rxPacketLength == 0 {
        parse := New;
        ok := RxSpill();
      } else if rxUserBufferHead == MAX_USER_RX_BUFFER {
        ok := RxSpill();
      } else {
        ok := true;
      }
    }

    /** The switch at the label spill. */
    method Serve(chunk: seq<byte>) returns (ok: bool, made: seq<Event>)
      modifies this`pingsVsPongs
      ensures forall s: Rx | s.opcode == opcode && s.buffer == chunk && s.pings == old(pingsVsPongs) ::
                var o := Spill(conn, s);
                ok == o.Next? && made == o.events && (ok ==> o.rx == s.(buffer := [], pings := pingsVsPongs))
    {
      made := [];
      match opcode {
        case 8 =>
          return false, [Answered(OPCODE_CLOSE, chunk)];
        case 9 =>
          if chunk != [] {    // an empty pong is not written
            made := [Answered(OPCODE_PONG, chunk)];
          }
        case 10 =>
          pingsVsPongs := pingsVsPongs - 1;
          if !conn.server {
            made := [ReceivedPong(chunk)];
          }
        case 0 =>
          if !conn.server {
            made := [Received(opcode, chunk)];
          }
        case _ =>
          if opcode == OPCODE_TEXT || opcode == OPCODE_BINARY {
            made := [Received(opcode, chunk)];
          }
      }
      return true, made;
    }

    method RxSpill() returns (ok: bool)
      requires frameMaskingNonce.Length == 4 && rxUserBuffer.Length == MAX_USER_RX_BUFFER && frameMaskingNonce != rxUserBuffer
      requires rxUserBufferHead <= MAX_USER_RX_BUFFER && ValidRx(conn, State().(buffer := []))
      modifies this`rxUserBufferHead, this`pingsVsPongs, this`events
      ensures Did(ok, Spill(conn, old(State())), old(events))
    {
      hide Spill;
      ghost var s := State();
      var chunk := rxUserBuffer[..rxUserBufferHead];
      var made: seq<Event>;
      ok, made := Serve(chunk);
      events := events + made;
      if ok {
        rxUserBufferHead := 0;
        assert State() == s.(buffer := [], pings := pingsVsPongs);
      }
    }

    /** libwebsocket_interpret_incoming_packet. */
    method InterpretIncomingPacket(bytes: seq<byte>) returns (ok: bool)
      requires Valid()
      modifies this, frameMaskingNonce, rxUserBuffer
      ensures Did(ok, Run(conn, old(State()), bytes), old(events)) && sent == old(sent)
    {
      hide Step, ValidRx;
      var n := 0;
      ghost var goal := Run(conn, State(), bytes);
      BeforeBefore([], [], goal);
      assert bytes[0..] == bytes;
      ok := true;
      while n < |bytes|
        invariant 0 <= n <= |bytes| && ok && Valid() && sent == old(sent)
        invariant old(events) <= events
        invariant goal == Before(events[|old(events)|..], Run(conn, State(), bytes[n..]))
      {
        assert bytes[n..][0] == bytes[n] && bytes[n..][1..] == bytes[n + 1..];
        ghost var so, o := events, Step(conn, State(), bytes[n]);
        ok := RxSm(bytes[n]);
        assert events[|old(events)|..] == so[|old(events)|..] + o.events;
        n := n + 1;
        if !ok {
          return;
        }
        BeforeBefore(so[|old(events)|..], o.events, Run(conn, State(), bytes[n..]));
      }
      assert events[|old(events)|..] + [] == events[|old(events)|..];
    }
  }

  lemma FramePlain(c: Conn, p: Protocol, fin: bool, ignoreMask: bool, random: seq<byte>, payload: seq<byte>)
    requires ValidConn(c) && |random| == 4
    ensures c.server || (c.revision >= 7 && c.kind == NoMask) ==>
              FrameBytes(c, p, fin, ignoreMask, random, payload) == Header(c.revision, p, fin, 0, |payload|) + payload
  {
    hide Header;
  }

  lemma Frame07(c: Conn, p: Protocol, fin: bool, ignoreMask: bool, random: seq<byte>, payload: seq<byte>)
    requires ValidConn(c) && !c.server && c.revision >= 7 && c.kind != NoMask && |random| == 4
    ensures var h := Header(c.revision, p, fin, 128, |payload|);
            FrameBytes(c, p, fin, ignoreMask, random, payload)
            == if ignoreMask then h + ZERO_NONCE + payload
               else h + random + MaskedFirst(Keys(c.kind, random, c.key04), payload, ToInt(|payload|))
  {
    hide Header;
  }

  lemma Frame04(c: Conn, p: Protocol, fin: bool, ignoreMask: bool, random: seq<byte>, payload: seq<byte>)
    requires ValidConn(c) && !c.server && c.revision < 7 && |random| == 4
    ensures var h := Header(c.revision, p, fin, 0, |payload|);
            FrameBytes(c, p, fin, ignoreMask, random, payload)
            == if c.kind != NoMask && !ignoreMask
               then random + MaskedFirst(Keys(c.kind, random, c.key04), h + payload, |h| + ToInt(|payload|))
               else ZERO_NONCE + (h + payload)
  {
    hide Header;
  }

  lemma MaskedNothing(k: Keys, s: seq<byte>)
    requires ValidKeys(k)
    ensures Masked(k, 0, s[..0]) == [] && EndIndex(k.kind, 0, 0) == 0
  {
  }

  lemma MaskedOneMore(k: Keys, s: seq<byte>, n: nat)
    requires ValidKeys(k) && n < |s|
    ensures ValidIndex(k.kind, EndIndex(k.kind, 0, n))
    ensures Masked(k, 0, s[..n + 1]) == Masked(k, 0, s[..n]) + [MaskByte(k, EndIndex(k.kind, 0, n), s[n])]
    ensures EndIndex(k.kind, 0, n + 1) == NextIndex(k.kind, EndIndex(k.kind, 0, n))
  {
    assert s[..n + 1] == s[..n] + [s[n]];
    MaskedAppend(k, 0, s[..n], [s[n]]);
    EndIndexNext(k.kind, 0, n);
  }

  lemma {:induction false} EndIndexNext(k: Kind, index: nat, n: nat)
    requires ValidIndex(k, index)
    ensures EndIndex(k, index, n + 1) == NextIndex(k, EndIndex(k, index, n))
    decreases n
  {
    if n > 0 {
      EndIndexNext(k, NextIndex(k, index), n - 1);
    }
  }
}
