/** libwebsocket_write of parsers.c: one message as one frame. */
module WsSend {
  import opened Bytes
  import opened WsMask
  import opened WsReceive

  datatype Protocol = Text | Binary | Continuation | Ping | Pong

  /** The opcode as the receive machines report it, and as it is numbered before revision 7. */
  function Opcode(p: Protocol): nat {
    match p
    case Text => OPCODE_TEXT
    case Binary => OPCODE_BINARY
    case Continuation => OPCODE_CONTINUATION
    case Ping => OPCODE_PING
    case Pong => OPCODE_PONG
  }

  function WireOpcode(revision: nat, p: Protocol): (op: byte)
    ensures op < 16
    ensures revision < 7 ==> FromOpcode04(op) == Some(Opcode(p))
    ensures revision >= 7 ==> op == Opcode(p)
  {
    if revision >= 7 then Opcode(p)
    else
      match p
      case Text => 4
      case Binary => 5
      case Continuation => 0
      case Ping => 2
      case Pong => 3
  }

  function LengthField(len: nat, maskBit: byte): (f: seq<byte>)
    requires maskBit == 0 || maskBit == 128
    ensures 0 < |f| <= 9
  {
    if len < 126 then [len + maskBit]
    else if len < 65536 then [126 + maskBit] + BigEndian(2, len)
    else [127 + maskBit] + BigEndian(8, len % 0x8000_0000_0000_0000)
  }

  function Header(revision: nat, p: Protocol, fin: bool, maskBit: byte, len: nat): (h: seq<byte>)
    requires maskBit == 0 || maskBit == 128
    ensures 2 <= |h| <= 10
  {
    [WireOpcode(revision, p) + if fin then 128 else 0] + LengthField(len, maskBit)
  }

  /** The C conversion of a size_t to int, which bounds the masking loops. */
  function ToInt(len: nat): (n: int)
    ensures n <= len
  {
    var low := len % 0x1_0000_0000;
    if low < 0x8000_0000 then low else low - 0x1_0000_0000
  }

  /** Only the first n octets go through the mask. */
  function MaskedFirst(k: Keys, s: seq<byte>, n: int): (r: seq<byte>)
    requires ValidKeys(k)
    ensures |r| == |s|
  {
    var n := if n < 0 then 0 else if n > |s| then |s| else n;
    Masked(k, 0, s[..n]) + s[n..]
  }

  /** The frame put on the wire; `nonce` is the client's random frame nonce, `ignoreMask` is
      LWS_WRITE_CLIENT_IGNORE_XOR_MASK. */
  function FrameBytes(c: Conn, p: Protocol, fin: bool, ignoreMask: bool, nonce: seq<byte>, payload: seq<byte>): seq<byte>
    requires ValidConn(c) && |nonce| == 4
  {
    var masks := c.kind != NoMask && !ignoreMask;
    var k := Keys(c.kind, nonce, c.key04);
    if c.server then Header(c.revision, p, fin, 0, |payload|) + payload
    else if c.revision < 7 then
      var plain := Header(c.revision, p, fin, 0, |payload|) + payload;
      if masks then nonce + MaskedFirst(k, plain, |plain| - |payload| + ToInt(|payload|)) else ZERO_NONCE + plain
    else if c.kind == NoMask then Header(c.revision, p, fin, 0, |payload|) + payload
    else
      Header(c.revision, p, fin, 128, |payload|)
      + (if masks then nonce else ZERO_NONCE)
      + (if masks then MaskedFirst(k, payload, ToInt(|payload|)) else payload)
  }
}
