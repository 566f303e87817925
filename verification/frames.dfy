/**
 How a delta is put into a client's output queue: as it is for a TCP client,
 or as one WebSocket text frame without its line end. A frame is queued whole
 or not at all.
 */
module Frames {
  import opened JsonText
  import opened DeltaFrame

  datatype Kind = Tcp | WebSocket

  /** The largest text `write_text` takes. */
  const CHUNK_SIZE: nat := 512

  /** The length without line ends and NULs at the end. */
  function TextLength(delta: string): (n: nat)
    ensures n <= |delta|
  {
    if delta != "" && delta[|delta| - 1] in "\r\n\0" then TextLength(delta[..|delta| - 1]) else |delta|
  }

  /** The header of an unmasked text frame, section 5.2 of RFC 6455; longer texts are never written. */
  function FrameHeader(text: nat): string {
    if text < 126 then [0x81 as char, text as char]
    else [0x81 as char, 126 as char, (text / 256 % 256) as char, (text % 256) as char]
  }

  function Framed(kind: Kind, delta: string): string {
    match kind
    case Tcp => delta
    case WebSocket => FrameHeader(TextLength(delta)) + delta[..TextLength(delta)]
  }

  datatype Frame = Frame(fin: bool, reserved: int, opcode: int, masked: bool, payload: string)

  /** Reads an unmasked frame with a 7-bit or 16-bit length, section 5.2 of RFC 6455. */
  function ReadFrame(bytes: string): Option<Frame> {
    if |bytes| < 2 then None
    else
      var b0, b1 := bytes[0] as int, bytes[1] as int;
      var short := b1 % 128;
      if short == 127 || (short == 126 && |bytes| < 4) then None
      else
        var start := if short == 126 then 4 else 2;
        var length := if short == 126 then bytes[2] as int * 256 + bytes[3] as int else short;
        if |bytes| != start + length then None
        else Some(Frame(b0 / 128 % 2 == 1, b0 / 16 % 8, b0 % 16, b1 / 128 % 2 == 1, bytes[start..]))
  }

  /** What a WebSocket client reads is one final, unmasked text frame with the delta's text. */
  lemma FrameRoundTrip(delta: string)
    requires TextLength(delta) < 65536
    ensures ReadFrame(Framed(WebSocket, delta)) == Some(Frame(true, 0, 1, false, delta[..TextLength(delta)]))
  {
    hide TextLength;
    var n := TextLength(delta);
    var header := FrameHeader(n);
    var bytes := header + delta[..n];
    assert bytes[..|header|] == header && bytes[|header|..] == delta[..n];
    assert bytes[0] == header[0] && bytes[1] == header[1];
    if n >= 126 { assert bytes[2] == header[2] && bytes[3] == header[3] && n == n / 256 % 256 * 256 + n % 256; }
  }

  /** The bytes of several deltas, one frame after the other. */
  function Wire(kind: Kind, deltas: seq<string>): string {
    if deltas == [] then ""
    else Wire(kind, deltas[..|deltas| - 1]) + Framed(kind, deltas[|deltas| - 1])
  }

  /** A client with `room` bytes left in its queue takes the delta. */
  predicate Takes(kind: Kind, room: nat, delta: string) {
    match kind
    case Tcp => 0 < |delta| <= room
    case WebSocket => 0 < TextLength(delta) <= CHUNK_SIZE && |Framed(kind, delta)| <= room
  }

  /** It takes every delta of up to `size` bytes. */
  predicate TakesUpTo(kind: Kind, room: nat, size: nat) {
    match kind
    case Tcp => size <= room
    case WebSocket => size <= CHUNK_SIZE + 2 && size + (if size < 128 then 0 else 2) <= room
  }

  lemma DeltaEnd(header: string, entries: seq<string>)
    ensures var delta := DeltaText(header, entries); |delta| >= TRAILER_LEN && TextLength(delta) == |delta| - 2
  {
    hide Join;
    var delta := DeltaText(header, entries);
    var n := |delta|;
    assert delta == (header + Join(entries)) + Trailer;
    assert delta[n - 1] == '\n' && delta[n - 2] == '\r' && delta[n - 3] == '}';
    assert delta[..n - 1][n - 2] == '\r' && delta[..n - 1][..n - 2] == delta[..n - 2];
    assert TextLength(delta[..n - 2]) == n - 2;
    assert TextLength(delta[..n - 1]) == n - 2;
  }

  /** A client that takes frames of a size takes every delta of at most that size. */
  lemma TakesDelta(kind: Kind, room: nat, size: nat, header: string, entries: seq<string>)
    requires TakesUpTo(kind, room, size) && |DeltaText(header, entries)| <= size
    ensures Takes(kind, room, DeltaText(header, entries))
  {
    hide TextLength, DeltaText;
    DeltaEnd(header, entries);
  }
}
