/** RTP packets in the `rtpsize` layout (rtp.py, and the transport half of reader.py):
    sections 5.1 and 5.3.1 of RFC 3550. */
module Rtp {
  import opened Bytes
  import opened Options

  const HEADER_OCTETS: nat := 12
  const NONCE_OCTETS: nat := 4
  const EXT_MAGIC: Bytes := [0xBE, 0xDE]

  function U16(s: Bytes, i: nat): (n: nat)
    requires i + 2 <= |s|
    ensures n < 0x1_0000
  {
    var high: int := s[i];
    256 * high + s[i + 1]
  }

  function U32(s: Bytes, i: nat): (n: nat)
    requires i + 4 <= |s|
    ensures n < 0x1_0000_0000
  {
    0x1_0000 * U16(s, i) + U16(s, i + 2)
  }

  /** `_ext_header`: profile, number of words kept, and their values. */
  datatype Extension = Extension(profile: Bytes, length: nat, values: seq<nat>)

  /** What an `RTPPacket` holds; `header` and `data` move as the packet is unwrapped. */
  datatype Fields = Fields(
    version: nat, padding: bool, extended: bool, cc: nat, marker: bool, payload: nat,
    sequence: nat, timestamp: nat, ssrc: nat,
    csrcs: seq<nat>,
    header: Bytes, data: Bytes, nonce: Bytes, rtpsize: bool,
    extension: Option<Extension>, elements: map<nat, Bytes>)

  /** `n` 32-bit words from `offset` on. */
  function Words(s: Bytes, offset: nat, n: nat): (r: seq<nat>)
    requires offset + 4 * n <= |s|
    ensures |r| == n
    decreases n
  {
    if n == 0 then [] else [U32(s, offset)] + Words(s, offset + 4, n - 1)
  }

  /** `is_rtcp`; `decode` makes no `RTPPacket` of these. */
  predicate IsRtcp(data: Bytes)
    requires |data| >= 2
  {
    200 <= data[1] <= 204
  }

  /** `decode` and `RTPPacket.__init__`; `None` where they raise or the packet is of another class. */
  function Header(data: Bytes): Option<Fields> {
    if |data| < HEADER_OCTETS || data[0] / 64 != 2 || IsRtcp(data) then None else
      var cc := data[0] % 16;
      if |data| < HEADER_OCTETS + 4 * cc then None else
        Some(Fields(data[0] / 64, data[0] / 32 % 2 == 1, data[0] / 16 % 2 == 1, cc,
                    data[1] / 128 == 1, data[1] % 128,
                    U16(data, 2), U32(data, 4), U32(data, 8),
                    Words(data, HEADER_OCTETS, cc),
                    data[..HEADER_OCTETS], data[HEADER_OCTETS + 4 * cc..], [], false,
                    None, map[]))
  }

  /** `adjust_rtpsize`. */
  function Adjusted(f: Fields): Fields {
    var g := f.(rtpsize := true, nonce := LastN(f.data, NONCE_OCTETS));
    if !f.extended then g.(data := DropLastN(f.data, NONCE_OCTETS))
    else g.(header := f.header + UpTo(f.data, 4), data := DropLastN(From(f.data, 4), NONCE_OCTETS))
  }

  /** The element loop of `_parse_bede_header`: it counts elements, skips zero octets and
      stops at the first element that does not fit. */
  function Elements(data: Bytes, offset: nat, n: nat, length: nat, found: map<nat, Bytes>): (r: map<nat, Bytes>)
    ensures forall id | id in r :: (id in found && r[id] == found[id]) || (id < 16 && 1 <= |r[id]| <= 16)
    decreases |data| - offset
  {
    if n >= length || offset >= |data| then found
    else if data[offset] == 0 then Elements(data, offset + 1, n, length, found)
    else
      var end := offset + 2 + data[offset] % 16;
      if end > |data| then found
      else Elements(data, end, n + 1, length, found[data[offset] / 16 := data[offset + 1..end]])
  }

  function Min(a: nat, b: nat): nat {
    if a < b then a else b
  }

  /** `update_ext_headers`: the packet afterwards, and the offset of the payload. */
  function WithExtension(f: Fields, payload: Bytes): (r: (Fields, nat))
    ensures r.1 <= |payload|
  {
    if !f.extended then (f, 0) else
      var data := if f.rtpsize then LastN(f.header, 4) + payload else payload;
      if |data| < 4 then (f.(extension := Some(Extension([], 0, []))), 0) else
        var profile, length := data[..2], U16(data, 2);
        var elements := if profile == EXT_MAGIC then Elements(data, 4, 0, length, f.elements) else f.elements;
        var safe := Min(length, (|data| - 4) / 4);
        (f.(elements := elements, extension := Some(Extension(profile, safe, Words(data, 4, safe)))),
         if f.rtpsize then 4 * safe else 4 + 4 * safe)
  }

  /** `strip_padding`. */
  function Stripped(padding: bool, payload: Bytes): (r: Bytes)
    ensures r <= payload
  {
    if !padding || payload == [] then payload else
      var n := payload[|payload| - 1];
      if 0 < n <= |payload| then payload[..|payload| - n] else payload
  }

  /** An AEAD box: ciphertext, associated data and nonce to plaintext, or `CryptoError`. */
  type Opener = (Bytes, Bytes, Bytes) -> Option<Bytes>

  const NONCE_TAIL: Bytes := [0, 0, 0, 0, 0, 0, 0, 0, 0, 0, 0, 0, 0, 0, 0, 0, 0, 0, 0, 0]

  /** `Control` packets take the other branch of the callback. */
  datatype Unwrapped = Audio(payload: Bytes, packet: Fields) | Control | BadHeader | CryptoError

  /** `_decrypt_rtp_transport_aead_xchacha20_poly1305_rtpsize` on freshly received octets. */
  function Unwrap(wire: Bytes, box: Opener): Unwrapped {
    if |wire| >= 2 && IsRtcp(wire) then Control
    else
      match Header(wire)
      case None => BadHeader
      case Some(f) =>
        var g := Adjusted(f);
        match box(g.data, g.header, g.nonce + NONCE_TAIL)
        case None => CryptoError
        case Some(plain) =>
          var (h, offset) := WithExtension(g, plain);
          Audio(Stripped(h.padding, plain[offset..]), h)
  }

  // ----- The packet object -----

  class RTPPacket {
    const version: nat
    const padding: bool
    const extended: bool
    const cc: nat
    const marker: bool
    const payload: nat
    const sequence: nat
    const timestamp: nat
    const ssrc: nat
    const csrcs: seq<nat>
    var header: Bytes
    var data: Bytes
    var nonce: Bytes
    var rtpsize: bool
    var extension: Option<Extension>
    var elements: map<nat, Bytes>

    ghost function View(): Fields
      reads this
    {
      Fields(version, padding, extended, cc, marker, payload, sequence, timestamp, ssrc, csrcs,
             header, data, nonce, rtpsize, extension, elements)
    }

    constructor (octets: Bytes)
      requires Header(octets).Some?
      ensures View() == Header(octets).value
    {
      var n := octets[0] % 16;
      version := octets[0] / 64;
      padding := octets[0] / 32 % 2 == 1;
      extended := octets[0] / 16 % 2 == 1;
      cc := n;
      marker := octets[1] / 128 == 1;
      payload := octets[1] % 128;
      sequence := U16(octets, 2);
      timestamp := U32(octets, 4);
      ssrc := U32(octets, 8);
      csrcs := Words(octets, HEADER_OCTETS, n);
      extension := None;
      elements := map[];
      header := octets[..HEADER_OCTETS];
      data := octets[HEADER_OCTETS + 4 * n..];
      nonce := [];
      rtpsize := false;
    }

    method AdjustRtpsize()
      modifies this
      ensures View() == Adjusted(old(View()))
    {
      rtpsize := true;
      nonce := LastN(data, NONCE_OCTETS);
      if !extended {
        data := DropLastN(data, NONCE_OCTETS);
        return;
      }
      header := header + UpTo(data, 4);
      data := DropLastN(From(data, 4), NONCE_OCTETS);
    }

    method UpdateExtHeaders(payload: Bytes) returns (offset: nat)
      modifies this`extension, this`elements
      ensures (View(), offset) == WithExtension(old(View()), payload)
    {
      hide Elements, Words, U16, LastN;
      if !extended {
        return 0;
      }
      var octets := if rtpsize then LastN(header, 4) + payload else payload;
      if |octets| < 4 {
        extension := Some(Extension([], 0, []));
        return 0;
      }
      var profile, length := octets[..2], U16(octets, 2);
      if profile == EXT_MAGIC {
        ParseBedeHeader(octets, length);
      }
      var maxWords := (|octets| - 4) / 4;
      var safe := if length < maxWords then length else maxWords;
      extension := Some(Extension(profile, safe, Words(octets, 4, safe)));
      offset := 4 + 4 * safe;
      if rtpsize {
        offset := offset - 4;
      }
    }

    /** Terminates, and never reads past the end of `octets`, whatever they hold. */
    method ParseBedeHeader(octets: Bytes, length: nat)
      modifies this`elements
      ensures elements == Elements(octets, 4, 0, length, old(elements))
    {
      var offset, n := 4, 0;
      while n < length
        invariant 4 <= offset
        invariant Elements(octets, offset, n, length, elements) == Elements(octets, 4, 0, length, old(elements))
        decreases |octets| - offset
      {
        if offset >= |octets| {
          break;
        }
        var head: int := octets[offset];
        if head == 0 {
          offset := offset + 1;
          continue;
        }
        var end: int := offset + 1 + 1 + head % 16;
        if end > |octets| {
          break;
        }
        elements := elements[head / 16 := octets[offset + 1..end]];
        offset := end;
        n := n + 1;
      }
    }

    method StripPadding(payload: Bytes) returns (r: Bytes)
      ensures r == Stripped(padding, payload)
    {
      if !padding || payload == [] {
        return payload;
      }
      var n: int := payload[|payload| - 1];
      if 0 < n <= |payload| {
        return payload[..|payload| - n];
      }
      r := payload;
    }
  }

  /** Receiving one datagram, method by method as the reader does. */
  method Receive(wire: Bytes, box: Opener) returns (r: Unwrapped)
    ensures r == Unwrap(wire, box)
  {
    if |wire| >= 2 && IsRtcp(wire) {
      return Control;
    }
    if Header(wire).None? {
      return BadHeader;
    }
    var packet := new RTPPacket(wire);
    packet.AdjustRtpsize();
    var result := box(packet.data, packet.header, packet.nonce + NONCE_TAIL);
    if result.None? {
      return CryptoError;
    }
    var payload := result.value;
    if packet.extended {
      var offset := packet.UpdateExtHeaders(payload);
      payload := payload[offset..];
    } else {
      assert payload[0..] == payload;
    }
    payload := packet.StripPadding(payload);
    r := Audio(payload, Fields(packet.version, packet.padding, packet.extended, packet.cc, packet.marker,
                               packet.payload, packet.sequence, packet.timestamp, packet.ssrc, packet.csrcs,
                               packet.header, packet.data, packet.nonce, packet.rtpsize, packet.extension,
                               packet.elements));
  }

  // ----- Round trip -----

  /** What a sender puts in an audio packet without contributing sources. */
  datatype Sent = Sent(
    marker: bool, payloadType: nat, sequence: nat, timestamp: nat, ssrc: nat,
    profile: Option<Bytes>,
    words: Bytes,        // body of the header extension
    audio: Bytes,
    fill: Bytes,         // padding before its last octet
    padded: bool,
    nonce: Bytes)

  ghost predicate WellFormed(s: Sent) {
    && s.payloadType < 128 && s.sequence < 0x1_0000 && s.timestamp < 0x1_0000_0000 && s.ssrc < 0x1_0000_0000
    && |s.nonce| == 4
    && (s.profile.Some? ==> |s.profile.value| == 2 && |s.words| % 4 == 0 && |s.words| / 4 < 0x1_0000)
    && (s.profile.None? ==> s.words == [])
    && |s.fill| < 255 && (!s.padded ==> s.fill == [])
  }

  function BigEndian(v: nat, n: nat): (s: Bytes)
    ensures |s| == n
  {
    if n == 0 then [] else BigEndian(v / 256, n - 1) + [v % 256]
  }

  lemma BigEndian2(v: nat)
    requires v < 0x1_0000
    ensures U16(BigEndian(v, 2), 0) == v
  {
    assert BigEndian(v / 256, 1) == [v / 256];
  }

  lemma BigEndian4(v: nat)
    requires v < 0x1_0000_0000
    ensures U32(BigEndian(v, 4), 0) == v
  {
    var hi, lo := v / 0x1_0000, v % 0x1_0000;
    assert v / 256 / 256 == hi && v / 256 % 256 == lo / 256 && v % 256 == lo % 256;
    assert BigEndian(v, 4) == BigEndian(hi, 2) + [lo / 256, lo % 256];
    BigEndian2(hi);
  }

  /** The twelve octets of the fixed header. */
  function Fixed(s: Sent): (r: Bytes)
    requires WellFormed(s)
    ensures |r| == HEADER_OCTETS
  {
    var first: Byte := 128 + (if s.padded then 32 else 0) + (if s.profile.Some? then 16 else 0);
    var second: Byte := (if s.marker then 128 else 0) + s.payloadType;
    [first, second] + (BigEndian(s.sequence, 2) + BigEndian(s.timestamp, 4) + BigEndian(s.ssrc, 4))
  }

  /** Profile and number of words, if there is an extension. */
  function ExtensionHead(s: Sent): (r: Bytes)
    requires WellFormed(s)
    ensures |r| == if s.profile.Some? then 4 else 0
  {
    if s.profile.None? then [] else
      var k := |s.words| / 4;
      var count: Bytes := [k / 256, k % 256];
      s.profile.value + count
  }

  /** The part of the packet that is authenticated but not encrypted. */
  function Clear(s: Sent): Bytes
    requires WellFormed(s)
  {
    Fixed(s) + ExtensionHead(s)
  }

  function Padding(s: Sent): Bytes
    requires WellFormed(s)
  {
    if !s.padded then [] else
      var last: Byte := |s.fill| + 1;
      s.fill + [last]
  }

  function Secret(s: Sent): Bytes
    requires WellFormed(s)
  {
    s.words + (s.audio + Padding(s))
  }

  function Wire(s: Sent, sealed: Bytes): Bytes
    requires WellFormed(s)
  {
    Clear(s) + (sealed + s.nonce)
  }

  /** Cutting a concatenation where its pieces meet. */
  lemma Cut(a: Bytes, b: Bytes)
    ensures (a + b)[..|a|] == a && (a + b)[|a|..] == b
    ensures LastN(a + b, |b|) == b && DropLastN(a + b, |b|) == a
  {
    var s := a + b;
    assert s[..|a|] == a && s[|a|..] == b;
  }

  /** A receiver takes these for control packets: with the marker set, payload types 72 to 76. */
  predicate TakenForControl(s: Sent) {
    s.marker && 72 <= s.payloadType <= 76
  }

  /** A number is read where its octets are, whatever stands around them. */
  lemma ReadInside(before: Bytes, number: Bytes, after: Bytes)
    ensures |number| == 2 ==> U16(before + number + after, |before|) == U16(number, 0)
    ensures |number| == 4 ==> U32(before + number + after, |before|) == U32(number, 0)
  {
    var s := before + number + after;
    assert forall k | 0 <= k < |number| :: s[|before| + k] == number[k];
  }

  /** The numbers of the fixed header are read back. */
  lemma NumbersReadBack(s: Sent, tail: Bytes)
    requires WellFormed(s)
    ensures var wire := Fixed(s) + tail;
            U16(wire, 2) == s.sequence && U32(wire, 4) == s.timestamp && U32(wire, 8) == s.ssrc
  {
    hide BigEndian, U16, U32;
    var a, b, c := BigEndian(s.sequence, 2), BigEndian(s.timestamp, 4), BigEndian(s.ssrc, 4);
    var wire, front := Fixed(s) + tail, Fixed(s)[..2];
    BigEndian2(s.sequence);
    BigEndian4(s.timestamp);
    BigEndian4(s.ssrc);
    ReadInside(front, a, b + c + tail);
    assert wire == front + a + (b + c + tail);
    ReadInside(front + a, b, c + tail);
    assert wire == (front + a) + b + (c + tail);
    ReadInside(front + a + b, c, tail);
    assert wire == (front + a + b) + c + tail;
  }

  /** Its flags are read back. */
  lemma FlagsReadBack(s: Sent, tail: Bytes)
    requires WellFormed(s)
    ensures var wire := Fixed(s) + tail;
            && wire[0] / 64 == 2 && wire[0] % 16 == 0
            && (wire[0] / 32 % 2 == 1) == s.padded && (wire[0] / 16 % 2 == 1) == s.profile.Some?
            && (wire[1] / 128 == 1) == s.marker && wire[1] % 128 == s.payloadType
            && (IsRtcp(wire) <==> TakenForControl(s))
  {
    hide BigEndian;
    var wire := Fixed(s) + tail;
    assert wire[0] == Fixed(s)[0] && wire[1] == Fixed(s)[1];
  }

  /** Whatever follows the fixed header, it is read back. */
  lemma HeaderReadsBack(s: Sent, tail: Bytes)
    requires WellFormed(s)
    ensures IsRtcp(Fixed(s) + tail) <==> TakenForControl(s)
    ensures Header(Fixed(s) + tail).Some? <==> !TakenForControl(s)
    ensures var h := Header(Fixed(s) + tail);
            h.Some? ==>
              && h.value.header == Fixed(s) && h.value.data == tail
              && h.value.padding == s.padded && h.value.extended == s.profile.Some?
              && h.value.cc == 0 && h.value.csrcs == [] && SameIdentity(s, h.value)
              && h.value.elements == map[]
  {
    hide Fixed, U16, U32, IsRtcp, TakenForControl;
    Cut(Fixed(s), tail);
    NumbersReadBack(s, tail);
    FlagsReadBack(s, tail);
  }

  /** Marker, payload type, sequence number, timestamp and SSRC are those sent. */
  predicate SameIdentity(s: Sent, f: Fields) {
    && f.version == 2 && f.marker == s.marker && f.payload == s.payloadType
    && f.sequence == s.sequence && f.timestamp == s.timestamp && f.ssrc == s.ssrc
  }

  /** Adjusting puts the extension header with the header and takes the nonce off the end. */
  lemma AdjustCuts(f: Fields, ext: Bytes, sealed: Bytes, nonce: Bytes)
    requires |nonce| == NONCE_OCTETS && |ext| == if f.extended then 4 else 0
    requires f.data == ext + (sealed + nonce)
    ensures Adjusted(f) == f.(rtpsize := true, nonce := nonce, header := f.header + ext, data := sealed)
  {
    Cut(ext, sealed + nonce);
    Cut(sealed, nonce);
    Cut(ext + sealed, nonce);
    assert ext + (sealed + nonce) == (ext + sealed) + nonce;
    if !f.extended {
      assert ext + (sealed + nonce) == sealed + nonce;
    }
  }

  /** Splitting the wire octets gives back the three things the cipher needs. */
  lemma AdjustSplits(s: Sent, sealed: Bytes)
    requires WellFormed(s)
    ensures |Wire(s, sealed)| >= 2 && (IsRtcp(Wire(s, sealed)) <==> TakenForControl(s))
    ensures !TakenForControl(s) ==> Header(Wire(s, sealed)).Some?
    ensures !TakenForControl(s) ==>
              var f := Adjusted(Header(Wire(s, sealed)).value);
              && f.header == Clear(s) && f.data == sealed && f.nonce == s.nonce && f.rtpsize
              && f.padding == s.padded && f.extended == s.profile.Some? && SameIdentity(s, f)
              && f.elements == map[]
  {
    hide Header, Adjusted, Fixed, ExtensionHead;
    var tail := ExtensionHead(s) + (sealed + s.nonce);
    assert Wire(s, sealed) == Fixed(s) + tail;
    HeaderReadsBack(s, tail);
    if !TakenForControl(s) {
      AdjustCuts(Header(Fixed(s) + tail).value, ExtensionHead(s), sealed, s.nonce);
    }
  }

  lemma PaddingIsStripped(s: Sent)
    requires WellFormed(s)
    ensures Stripped(s.padded, s.audio + Padding(s)) == s.audio
  {
    var payload := s.audio + Padding(s);
    if s.padded {
      assert payload[|payload| - 1] == |s.fill| + 1;
      assert payload[..|payload| - (|s.fill| + 1)] == s.audio;
    }
  }

  lemma ExtensionIsSkipped(s: Sent, f: Fields)
    requires WellFormed(s) && s.profile.Some?
    requires f.extended && f.rtpsize && f.header == Clear(s)
    ensures var (g, offset) := WithExtension(f, Secret(s));
            var k := |s.words| / 4;
            && offset == |s.words|
            && g.extension == Some(Extension(s.profile.value, k, Words(s.words, 0, k)))
            && g.elements == if s.profile.value == [0xBE, 0xDE]
                             then Elements(ExtensionHead(s) + Secret(s), 4, 0, k, f.elements) else f.elements
  {
    hide Fixed, Elements;
    Cut(Fixed(s), ExtensionHead(s));
    var ext := LastN(f.header, 4);
    var k := |s.words| / 4;
    assert ext == s.profile.value + [k / 256, k % 256];
    var data := ext + Secret(s);
    assert data[2] == k / 256 && data[3] == k % 256;
    assert U16(data, 2) == k;
    assert (|data| - 4) / 4 >= k;
    assert data[..2] == s.profile.value;
    assert data == ext + s.words + (s.audio + Padding(s));
    WordsInside(ext, s.words, s.audio + Padding(s), 0, k);
  }

  /** Words are read where their octets are, whatever stands around them. */
  lemma {:induction false} WordsInside(before: Bytes, words: Bytes, after: Bytes, offset: nat, n: nat)
    requires offset + 4 * n <= |words|
    ensures Words(before + words + after, |before| + offset, n) == Words(words, offset, n)
    decreases n
  {
    hide U32;
    if n > 0 {
      var s, word := before + words + after, words[offset..offset + 4];
      ReadInside(before + words[..offset], word, words[offset + 4..] + after);
      assert s == before + words[..offset] + word + (words[offset + 4..] + after);
      ReadInside(words[..offset], word, words[offset + 4..]);
      assert words == words[..offset] + word + words[offset + 4..];
      WordsInside(before, words, after, offset + 4, n - 1);
    }
  }

  lemma ExtensionKeepsTheRest(f: Fields, payload: Bytes)
    ensures var g := WithExtension(f, payload).0;
            g == f.(extension := g.extension, elements := g.elements)
    ensures !f.extended ==> WithExtension(f, payload).1 == 0
  {
  }

  /** Whatever the cipher, if the box opens what was sealed: the packet is unwrapped as audio exactly if it is not
      taken for a control packet, and then the audio and all numbers are exactly those sent. */
  lemma RoundTrip(s: Sent, sealed: Bytes, box: Opener)
    requires WellFormed(s)
    requires box(sealed, Clear(s), s.nonce + seq(20, _ => 0)) == Some(Secret(s))
    ensures var r := Unwrap(Wire(s, sealed), box);
            && (r.Audio? <==> !TakenForControl(s))
            && (r.Audio? ==> r.payload == s.audio && SameIdentity(s, r.packet))
            && (r.Audio? && s.profile.Some? ==>
                  var k := |s.words| / 4;
                  && r.packet.extension == Some(Extension(s.profile.value, k, Words(s.words, 0, k)))
                  && r.packet.elements == if s.profile.value == [0xBE, 0xDE]
                                          then Elements(ExtensionHead(s) + Secret(s), 4, 0, k, map[]) else map[])
  {
    hide Elements, Words, Header, Adjusted, WithExtension, Stripped, Clear, Padding, IsRtcp;
    AdjustSplits(s, sealed);
    assert s.nonce + seq(20, _ => 0) == s.nonce + NONCE_TAIL;
    if !TakenForControl(s) {
      PaddingIsStripped(s);
      var f := Adjusted(Header(Wire(s, sealed)).value);
      var plain := Secret(s);
      ExtensionKeepsTheRest(f, plain);
      if s.profile.Some? {
        ExtensionIsSkipped(s, f);
        assert plain[|s.words|..] == s.audio + Padding(s);
      } else {
        assert plain[0..] == s.audio + Padding(s);
      }
    }
  }

  // ----- Contributing sources -----

  /** The header of a packet with sources, four octets each, as its sender authenticates it. */
  function HeadWith(s: Sent, sources: Bytes): Bytes
    requires WellFormed(s) && |sources| % 4 == 0 && |sources| / 4 < 16
  {
    var first: Byte := Fixed(s)[0] + |sources| / 4;
    [first] + Fixed(s)[1..] + (sources + ExtensionHead(s))
  }

  lemma HeadCounts(s: Sent, k: nat)
    requires WellFormed(s) && k < 16
    ensures var first := Fixed(s)[0] + k;
            first < 256 && first / 64 == 2 && first % 16 == k && (first / 16 % 2 == 1) == s.profile.Some?
    ensures 200 <= Fixed(s)[1] <= 204 <==> TakenForControl(s)
  {
    hide BigEndian;
  }

  /** Where the pieces of such a packet are. */
  lemma HeadLayout(s: Sent, sources: Bytes, rest: Bytes)
    requires WellFormed(s) && |sources| % 4 == 0 && |sources| / 4 < 16
    ensures var wire := HeadWith(s, sources) + rest;
            && |wire| == 12 + |sources| + |ExtensionHead(s)| + |rest|
            && wire[0] == Fixed(s)[0] + |sources| / 4 && wire[1] == Fixed(s)[1]
            && wire[12 + |sources|..] == ExtensionHead(s) + rest
  {
    hide Fixed;
    HeadCounts(s, |sources| / 4);
    var wire := HeadWith(s, sources) + rest;
    var front := [wire[0]] + Fixed(s)[1..] + sources;
    assert wire == front + (ExtensionHead(s) + rest);
  }

  /** A packet with sources is read, but the header that is kept lacks them. */
  lemma SourcesAreLeftOut(s: Sent, sources: Bytes, sealed: Bytes)
    requires WellFormed(s) && |sources| % 4 == 0 && |sources| / 4 < 16 && !TakenForControl(s)
    ensures var wire := HeadWith(s, sources) + (sealed + s.nonce);
            && |wire| >= 2 && !IsRtcp(wire) && Header(wire).Some?
            && Adjusted(Header(wire).value).header == wire[..12] + ExtensionHead(s)
  {
    hide Fixed, Words, U16, U32, HeadWith, ExtensionHead, TakenForControl, Adjusted;
    HeadCounts(s, |sources| / 4);
    HeadLayout(s, sources, sealed + s.nonce);
    var wire := HeadWith(s, sources) + (sealed + s.nonce);
    assert (wire[0] as int) % 16 == |sources| / 4;
    AdjustCuts(Header(wire).value, ExtensionHead(s), sealed, s.nonce);
  }

  /** If a box opens nothing but what was sealed with the whole header, a packet is unwrapped exactly if it has no
      sources: the header given to the box lacks them. */
  lemma UnwrapsExactlyWithoutSources(s: Sent, sources: Bytes, sealed: Bytes, box: Opener)
    requires WellFormed(s) && |sources| % 4 == 0 && |sources| / 4 < 16 && !TakenForControl(s)
    requires box(sealed, HeadWith(s, sources), s.nonce + seq(20, _ => 0)) == Some(Secret(s))
    requires forall c, a, n :: box(c, a, n).Some? ==> a == HeadWith(s, sources)
    ensures var r := Unwrap(HeadWith(s, sources) + (sealed + s.nonce), box);
            if sources == [] then r.Audio? && r.payload == s.audio else r == CryptoError
  {
    hide Fixed, Header, Adjusted, WithExtension, Stripped, TakenForControl, Elements, Words;
    if sources == [] {
      assert [Fixed(s)[0]] + Fixed(s)[1..] == Fixed(s) && [] + ExtensionHead(s) == ExtensionHead(s);
      assert HeadWith(s, sources) == Clear(s);
      RoundTrip(s, sealed, box);
    } else {
      SourcesAreLeftOut(s, sources, sealed);
      var wire := HeadWith(s, sources) + (sealed + s.nonce);
      assert |wire[..12] + ExtensionHead(s)| < |HeadWith(s, sources)|;
    }
  }

  // ----- What is no audio packet, and odd padding -----

  /** Exactly these octets are taken for an audio packet: version 2, no control packet, and room for all sources. */
  lemma HeaderExactly(data: Bytes)
    ensures Header(data).Some?
       <==> && |data| >= 12 && 128 <= data[0] < 192 && !(200 <= data[1] <= 204)
            && |data| >= 12 + 4 * (data[0] % 16)
  {
  }

  /** The sources follow the fixed header, four octets each, and the rest of the packet follows them. */
  lemma SourcesReadBack(data: Bytes, i: nat)
    requires Header(data).Some? && i < Header(data).value.cc
    ensures var f := Header(data).value;
            && f.cc == |f.csrcs| == data[0] % 16 && f.data == data[12 + 4 * f.cc..]
            && f.csrcs[i] == 0x100_0000 * (data[12 + 4 * i] as int) + 0x1_0000 * (data[13 + 4 * i] as int)
                             + 0x100 * (data[14 + 4 * i] as int) + data[15 + 4 * i]
  {
    WordRead(data, HEADER_OCTETS, Header(data).value.cc, i);
  }

  lemma {:induction false} WordRead(s: Bytes, offset: nat, n: nat, i: nat)
    requires offset + 4 * n <= |s| && i < n
    ensures var k := offset + 4 * i;
            Words(s, offset, n)[i]
            == 0x100_0000 * (s[k] as int) + 0x1_0000 * (s[k + 1] as int) + 0x100 * (s[k + 2] as int) + s[k + 3]
    decreases n
  {
    if i > 0 {
      WordRead(s, offset + 4, n - 1, i - 1);
    }
  }

  /** Padding is taken off if the packet says so and its last octet counts octets that are there; else it stays. */
  lemma StrippedExactly(padding: bool, payload: Bytes)
    ensures var n: int := if padding && payload != [] then payload[|payload| - 1] else 0;
            Stripped(padding, payload) == if n <= |payload| then payload[..|payload| - n] else payload
  {
  }

  // ----- The elements of a header extension -----

  /** An element with the zero octets before it. */
  datatype Element = Element(zeros: nat, id: nat, body: Bytes) {
    predicate Valid() {
      1 <= id <= 15 && 1 <= |body| <= 16
    }
  }

  function Zeros(n: nat): (s: Bytes)
    ensures |s| == n
  {
    seq(n, _ => 0)
  }

  /** Section 4.2 of RFC 5285. */
  function PrintElement(e: Element): (s: Bytes)
    requires e.Valid()
    ensures |s| == e.zeros + 1 + |e.body|
  {
    var head: Byte := 16 * e.id + |e.body| - 1;
    Zeros(e.zeros) + ([head] + e.body)
  }

  ghost predicate AllValid(es: seq<Element>) {
    forall e | e in es :: e.Valid()
  }

  function PrintElements(es: seq<Element>): Bytes
    requires AllValid(es)
  {
    if es == [] then [] else PrintElement(es[0]) + PrintElements(es[1..])
  }

  /** Later elements replace earlier ones of the same number. */
  function With(found: map<nat, Bytes>, es: seq<Element>): map<nat, Bytes>
    decreases |es|
  {
    if es == [] then found else With(found[es[0].id := es[0].body], es[1..])
  }

  lemma {:induction false} ZerosAreSkipped(data: Bytes, offset: nat, zeros: nat, n: nat, length: nat,
                                           found: map<nat, Bytes>)
    requires n < length && offset + zeros <= |data| && forall k | offset <= k < offset + zeros :: data[k] == 0
    ensures Elements(data, offset, n, length, found) == Elements(data, offset + zeros, n, length, found)
    decreases zeros
  {
    if zeros > 0 {
      ZerosAreSkipped(data, offset + 1, zeros - 1, n, length, found);
    }
  }

  lemma ElementIsRead(before: Bytes, e: Element, after: Bytes, n: nat, length: nat, found: map<nat, Bytes>)
    requires e.Valid() && n < length
    ensures var data := before + PrintElement(e) + after;
            Elements(data, |before|, n, length, found)
            == Elements(data, |before + PrintElement(e)|, n + 1, length, found[e.id := e.body])
  {
    hide Elements;
    var data := before + PrintElement(e) + after;
    var at := |before| + e.zeros;
    assert forall k | 0 <= k < |PrintElement(e)| :: data[|before| + k] == PrintElement(e)[k];
    assert forall k | |before| <= k < at :: data[k] == PrintElement(e)[k - |before|] == 0;
    ZerosAreSkipped(data, |before|, e.zeros, n, length, found);
    assert data[at] == PrintElement(e)[e.zeros] == 16 * e.id + |e.body| - 1;
    assert data[at + 1..at + 1 + |e.body|] == e.body;
    OneElement(data, at, n, length, found, e);
  }

  lemma OneElement(data: Bytes, at: nat, n: nat, length: nat, found: map<nat, Bytes>, e: Element)
    requires e.Valid() && n < length && at + 1 + |e.body| <= |data|
    requires data[at] == 16 * e.id + |e.body| - 1 && data[at + 1..at + 1 + |e.body|] == e.body
    ensures Elements(data, at, n, length, found)
         == Elements(data, at + 1 + |e.body|, n + 1, length, found[e.id := e.body])
  {
    var head: int := data[at];
    assert head % 16 == |e.body| - 1 && head / 16 == e.id;
  }

  /** Printed elements are read back one by one, as long as they are no more than the words of the extension. */
  lemma {:induction false} ElementsAreRead(before: Bytes, es: seq<Element>, after: Bytes, n: nat, length: nat,
                                           found: map<nat, Bytes>)
    requires AllValid(es) && n + |es| <= length
    ensures var data := before + PrintElements(es) + after;
            Elements(data, |before|, n, length, found)
            == Elements(data, |before + PrintElements(es)|, n + |es|, length, With(found, es))
    decreases |es|
  {
    hide Elements, PrintElement;
    if es == [] {
      assert before + PrintElements(es) == before;
    } else {
      var e, rest := es[0], es[1..];
      var data := before + PrintElements(es) + after;
      var mid := before + PrintElement(e);
      assert data == mid + (PrintElements(rest) + after);
      assert data == mid + PrintElements(rest) + after;
      assert before + PrintElements(es) == mid + PrintElements(rest);
      ElementIsRead(before, e, PrintElements(rest) + after, n, length, found);
      ElementsAreRead(mid, rest, after, n + 1, length, found[e.id := e.body]);
    }
  }

  /** What the loop reads: as many elements as the extension has words, and no more. With more elements than words the
      rest are lost; with fewer, it goes on reading in what follows, which is the audio. */
  lemma ElementsExactly(head: Bytes, es: seq<Element>, after: Bytes, length: nat)
    requires |head| == 4 && AllValid(es)
    ensures var data := head + PrintElements(es) + after;
            Elements(data, 4, 0, length, map[])
            == if |es| >= length then With(map[], es[..length])
               else Elements(data, 4 + |PrintElements(es)|, |es|, length, With(map[], es))
  {
    hide PrintElements, Elements, With;
    if |es| >= length {
      var fit, rest := es[..length], es[length..];
      assert es == fit + rest;
      PrintBoth(fit, rest);
      var data := head + PrintElements(fit) + (PrintElements(rest) + after);
      assert head + PrintElements(es) + after == data;
      ElementsAreRead(head, fit, PrintElements(rest) + after, 0, length, map[]);
      EnoughRead(data, |head + PrintElements(fit)|, length, With(map[], fit));
    } else {
      ElementsAreRead(head, es, after, 0, length, map[]);
    }
  }

  lemma EnoughRead(data: Bytes, offset: nat, length: nat, found: map<nat, Bytes>)
    ensures Elements(data, offset, length, length, found) == found
  {
  }

  lemma {:induction false} PrintBoth(es: seq<Element>, fs: seq<Element>)
    requires AllValid(es) && AllValid(fs)
    ensures PrintElements(es + fs) == PrintElements(es) + PrintElements(fs)
  {
    hide PrintElement;
    if es == [] {
      assert es + fs == fs;
    } else {
      PrintBoth(es[1..], fs);
      assert (es + fs)[0] == es[0] && (es + fs)[1..] == es[1..] + fs;
    }
  }

  /** One element of seven octets fills two words, so the loop takes two octets of the audio for a second element. */
  lemma AudioIsTakenForAnElement(head: Bytes, body: Bytes)
    requires |head| == 4 && |body| == 7
    ensures Elements(head + PrintElements([Element(0, 1, body)]) + [0x20, 9], 4, 0, 2, map[])
         == map[1 := body, 2 := [9]]
  {
    hide Elements;
    var one, two := Element(0, 1, body), Element(0, 2, [9]);
    assert PrintElement(two) == [0x20, 9];
    PrintBoth([one], [two]);
    assert [two][1..] == [] && [one] + [two] == [one, two];
    assert head + PrintElements([one]) + [0x20, 9] == head + PrintElements([one, two]) + [];
    ElementsExactly(head, [one, two], [], 2);
    assert [one, two][..2] == [one, two] && [one, two][1..] == [two];
    assert With(map[1 := body], [two]) == With(map[1 := body, 2 := [9]], []);
  }

  /** A sender that puts as many elements as words in an extension gets them all across. */
  lemma ElementsRoundTrip(s: Sent, es: seq<Element>, sealed: Bytes, box: Opener)
    requires WellFormed(s) && s.profile == Some([0xBE, 0xDE]) && !TakenForControl(s)
    requires AllValid(es) && s.words == PrintElements(es) && |es| == |s.words| / 4
    requires box(sealed, Clear(s), s.nonce + seq(20, _ => 0)) == Some(Secret(s))
    ensures var r := Unwrap(Wire(s, sealed), box);
            r.Audio? && r.packet.elements == With(map[], es)
  {
    hide Unwrap, Clear, Elements, PrintElements, TakenForControl;
    RoundTrip(s, sealed, box);
    var rest := s.audio + Padding(s);
    ElementsExactly(ExtensionHead(s), es, rest, |es|);
    assert ExtensionHead(s) + Secret(s) == ExtensionHead(s) + PrintElements(es) + rest;
    assert es[..|es|] == es;
  }
}
