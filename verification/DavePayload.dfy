/** The trailer of a DAVE audio payload (dave.py):
    ciphertext, 8-octet tag, nonce, (offset, size) pairs, trailer size, marker. */
module DavePayload {
  import opened Bytes
  import opened Options
  import opened Uleb128

  type Range = (nat, nat)

  datatype Supplemental = Supplemental(
    supplementalSize: nat,
    supplementalStart: nat,
    nonce: nat,
    ranges: seq<Range>,
    ciphertextLen: nat)

  const TAG_OCTETS: nat := 8
  const SIZE_AND_MARKER: nat := 3
  const MIN_TRAILER: nat := 10

  /** `s` read as `(offset, size)` pairs that fill it completely. */
  function Ranges(s: Bytes): (r: Option<seq<Range>>) {
    if s == [] then Some([]) else
      match Next(s)
      case None => None
      case Some((offset, s1)) =>
        match Next(s1)
        case None => None
        case Some((size, s2)) =>
          match Ranges(s2)
          case None => None
          case Some(rest) => Some([(offset, size)] + rest)
  }

  /** The octets between the tag and the trailer size, for a trailer of `size` octets. */
  function Body(payload: Bytes, size: nat): Bytes
    requires MIN_TRAILER < size <= |payload|
  {
    payload[|payload| - size + TAG_OCTETS..|payload| - SIZE_AND_MARKER]
  }

  /** `parse_dave_payload`. */
  function Parse(payload: Bytes): (r: Option<Supplemental>)
    ensures r.Some? ==> EndsWithMarker(payload)
    ensures r.Some? ==> r.value.supplementalStart + r.value.supplementalSize == |payload|
                        && r.value.ciphertextLen == r.value.supplementalStart > 0
  {
    if !EndsWithMarker(payload) || |payload| <= MIN_TRAILER then None else
      var size := payload[|payload| - SIZE_AND_MARKER];
      if size > |payload| || size <= MIN_TRAILER then None else
        var start := |payload| - size;
        match Next(Body(payload, size))
        case None => None
        case Some((nonce, rest)) =>
          match Ranges(rest)
          case None => None
          case Some(ranges) =>
            if start == 0 then None else Some(Supplemental(size, start, nonce, ranges, start))
  }

  /** The loop over the pairs, with its early exits and its growing list. */
  method ParseRanges(payload: Bytes, start: nat, end: nat) returns (r: Option<seq<Range>>)
    requires start <= end <= |payload|
    ensures r == Ranges(payload[start..end])
  {
    hide ReadAt, Next;
    var cursor := start;
    var ranges: seq<Range> := [];
    ghost var whole := Ranges(payload[start..end]);
    assert whole.Some? ==> [] + whole.value == whole.value;
    while cursor < end
      invariant cursor <= end
      invariant whole == match Ranges(payload[cursor..end])
                         case None => None
                         case Some(rest) => Some(ranges + rest)
      decreases end - cursor
    {
      ReadIsNext(payload, cursor, end);
      var offset := ReadUleb128(payload, cursor, end);
      if offset.Invalid? {
        return None;
      }
      ReadIsNext(payload, offset.next, end);
      var size := ReadUleb128(payload, offset.next, end);
      if size.Invalid? {
        return None;
      }
      ghost var rest := Ranges(payload[size.next..end]);
      if rest.Some? {
        assert ranges + ([(offset.value, size.value)] + rest.value)
            == (ranges + [(offset.value, size.value)]) + rest.value;
      }
      cursor := size.next;
      ranges := ranges + [(offset.value, size.value)];
    }
    assert ranges + [] == ranges;
    r := Some(ranges);
  }

  /** The parser as the source writes it. */
  method ParseDavePayload(payload: Bytes) returns (r: Option<Supplemental>)
    ensures r == Parse(payload)
  {
    hide ReadAt, Next, Ranges;
    if LastN(payload, 2) != MARKER {
      return None;
    }
    if |payload| <= MIN_TRAILER {
      return None;
    }
    var size: nat := payload[|payload| - SIZE_AND_MARKER];
    if size > |payload| || size <= MIN_TRAILER {
      return None;
    }
    var start := |payload| - size;
    var nonceStart := start + TAG_OCTETS;
    var end := |payload| - SIZE_AND_MARKER;
    if nonceStart > end {
      return None;
    }
    ReadIsNext(payload, nonceStart, end);
    var nonce := ReadUleb128(payload, nonceStart, end);
    if nonce.Invalid? {
      return None;
    }
    var ranges := ParseRanges(payload, nonce.next, end);
    if ranges.None? {
      return None;
    }
    var ciphertextLen := |payload| - size;
    if ciphertextLen <= 0 {
      return None;
    }
    r := Some(Supplemental(size, start, nonce.value, ranges.value, ciphertextLen));
  }

  // ----- What is accepted -----

  ghost predicate AllTokens(ts: seq<Bytes>) {
    ts == [] || (IsToken(ts[0]) && AllTokens(ts[1..]))
  }

  function Concat(ts: seq<Bytes>): Bytes {
    if ts == [] then [] else ts[0] + Concat(ts[1..])
  }

  /** A run of octets splits into tokens in at most one way. */
  lemma {:induction false} SplitIsUnique(ts: seq<Bytes>, us: seq<Bytes>)
    requires AllTokens(ts) && AllTokens(us)
    requires Concat(ts) == Concat(us)
    ensures ts == us
  {
    if ts != [] && us != [] {
      NextOfToken(ts[0], Concat(ts[1..]));
      NextOfToken(us[0], Concat(us[1..]));
      SplitIsUnique(ts[1..], us[1..]);
      var tail := Concat(ts[1..]);
      assert |ts[0]| == |us[0]|;
      assert ts[0] == (ts[0] + tail)[..|ts[0]|] == (us[0] + tail)[..|us[0]|] == us[0];
      assert ts == [ts[0]] + ts[1..] && us == [us[0]] + us[1..];
    }
  }

  /** Consecutive tokens read as pairs. */
  function Pairs(ts: seq<Bytes>): (ps: seq<Range>)
    requires |ts| % 2 == 0
  {
    if ts == [] then [] else [(Value(ts[0]), Value(ts[1]))] + Pairs(ts[2..])
  }

  lemma {:induction false} RangesOfTokens(ts: seq<Bytes>)
    requires AllTokens(ts)
    ensures Ranges(Concat(ts)) == if |ts| % 2 == 0 then Some(Pairs(ts)) else None
  {
    hide Value, IsToken, Next;
    if ts != [] {
      NextOfToken(ts[0], Concat(ts[1..]));
      if |ts| == 1 {
        assert ts[1..] == [];
        assert Next([]).None?;
      } else {
        assert ts[1..][0] == ts[1] && ts[1..][1..] == ts[2..];
        NextOfToken(ts[1], Concat(ts[2..]));
        RangesOfTokens(ts[2..]);
      }
    }
  }

  lemma {:induction false} TokensOfRanges(s: Bytes) returns (ts: seq<Bytes>)
    requires Ranges(s).Some?
    ensures AllTokens(ts) && |ts| % 2 == 0 && Concat(ts) == s
    decreases |s|
  {
    hide Value, Next;
    if s == [] {
      ts := [];
    } else {
      var a := TokenOfNext(s);
      var s1 := Next(s).value.1;
      var b := TokenOfNext(s1);
      var rest := TokensOfRanges(Next(s1).value.1);
      var bs := [b] + rest;
      assert bs[1..] == rest;
      ts := [a] + bs;
      assert ts[1..] == bs;
    }
  }

  /** `ts` is a way to read `payload` as a well-formed DAVE payload with a trailer of `size` octets. */
  ghost predicate WellFormed(payload: Bytes, size: nat, ts: seq<Bytes>) {
    && 10 < size < |payload|
    && payload[|payload| - 3..] == [size, 0xFA, 0xFA]
    && AllTokens(ts) && |ts| % 2 == 1
    && Concat(ts) == payload[|payload| - size + 8..|payload| - 3]
  }

  ghost predicate Wrapped(payload: Bytes) {
    exists size: nat, ts: seq<Bytes> :: WellFormed(payload, size, ts)
  }

  lemma WellFormedEnds(payload: Bytes, size: nat)
    requires 10 < size < |payload|
    ensures EndsWithMarker(payload) && payload[|payload| - 3] == size
       <==> payload[|payload| - 3..] == [size, 0xFA, 0xFA]
  {
    var last := payload[|payload| - 3..];
    assert payload[|payload| - 2..] == last[1..];
    if last[0] == size && last[1..] == MARKER {
      assert last == [last[0]] + last[1..];
    }
  }

  /** Every well-formed payload is accepted, with the values of its tokens. */
  lemma WellFormedIsAccepted(payload: Bytes, size: nat, ts: seq<Bytes>)
    requires WellFormed(payload, size, ts)
    ensures Parse(payload)
         == Some(Supplemental(size, |payload| - size, Value(ts[0]), Pairs(ts[1..]), |payload| - size))
  {
    hide Value, IsToken, Next, Ranges, Pairs;
    WellFormedEnds(payload, size);
    NextOfToken(ts[0], Concat(ts[1..]));
    RangesOfTokens(ts[1..]);
  }

  /** The parser accepts exactly the well-formed payloads: an odd number of tokens between tag and size. */
  lemma AcceptsExactlyWellFormed(payload: Bytes)
    ensures Parse(payload).Some? <==> Wrapped(payload)
  {
    hide Value, IsToken, Next, Ranges;
    if size: nat, ts: seq<Bytes> :| WellFormed(payload, size, ts) {
      WellFormedIsAccepted(payload, size, ts);
    }
    if Parse(payload).Some? {
      var size := payload[|payload| - SIZE_AND_MARKER];
      var body := Body(payload, size);
      var nonce := TokenOfNext(body);
      var rest := TokensOfRanges(Next(body).value.1);
      var ts := [nonce] + rest;
      assert ts[1..] == rest;
      WellFormedEnds(payload, size);
      assert WellFormed(payload, size, ts);
    }
  }

  // ----- Round trip with the printer of tests/test_dave.py -----

  function EncodeRanges(ranges: seq<Range>): Bytes {
    if ranges == [] then [] else Encode(ranges[0].0) + (Encode(ranges[0].1) + EncodeRanges(ranges[1..]))
  }

  function Trailer(tag: Bytes, nonce: nat, ranges: seq<Range>): Bytes {
    tag + (Encode(nonce) + EncodeRanges(ranges))
  }

  /** `dave_payload`; the size octet has to fit, the printer raises otherwise. */
  function Print(ciphertext: Bytes, tag: Bytes, nonce: nat, ranges: seq<Range>): Bytes
    requires |Trailer(tag, nonce, ranges)| + SIZE_AND_MARKER <= 255
  {
    var t := Trailer(tag, nonce, ranges);
    var size: Byte := |t| + SIZE_AND_MARKER;
    ciphertext + t + [size] + MARKER
  }

  predicate Fits(v: nat) {
    v < 0x40_0000_0000_0000_0000
  }

  predicate AllFit(ranges: seq<Range>) {
    ranges == [] || (Fits(ranges[0].0) && Fits(ranges[0].1) && AllFit(ranges[1..]))
  }

  lemma {:induction false} RangesReadBack(ranges: seq<Range>)
    requires AllFit(ranges)
    ensures Ranges(EncodeRanges(ranges)) == Some(ranges)
  {
    hide Encode, Next;
    if ranges != [] {
      var rest := EncodeRanges(ranges[1..]);
      RangesReadBack(ranges[1..]);
      EncodedReadsBack(ranges[0].1, rest);
      EncodedReadsBack(ranges[0].0, Encode(ranges[0].1) + rest);
      assert ranges == [ranges[0]] + ranges[1..];
    }
  }

  lemma EncodedReadsBack(v: nat, rest: Bytes)
    requires Fits(v)
    ensures Next(Encode(v) + rest) == Some((v, rest))
  {
    EncodeIsToken(v);
    EncodeShape(v);
    NextOfToken(Encode(v), rest);
  }

  /** Where the pieces of a printed payload are. */
  lemma PrintLayout(ciphertext: Bytes, tag: Bytes, nonce: nat, ranges: seq<Range>)
    requires |tag| == TAG_OCTETS
    requires |Trailer(tag, nonce, ranges)| + SIZE_AND_MARKER <= 255
    ensures var payload := Print(ciphertext, tag, nonce, ranges);
            var size := |Trailer(tag, nonce, ranges)| + SIZE_AND_MARKER;
            && EndsWithMarker(payload) && |payload| == |ciphertext| + size
            && payload[|payload| - SIZE_AND_MARKER] == size > MIN_TRAILER
            && payload[..|ciphertext|] == ciphertext
            && Body(payload, size) == Encode(nonce) + EncodeRanges(ranges)
  {
    var payload := Print(ciphertext, tag, nonce, ranges);
    var t := Trailer(tag, nonce, ranges);
    assert payload[|payload| - 2..] == MARKER;
    assert payload[|ciphertext|..|payload| - SIZE_AND_MARKER] == t;
    assert t[TAG_OCTETS..] == Encode(nonce) + EncodeRanges(ranges);
  }

  /** Parsing a printed payload gives back nonce, ranges and the place where the ciphertext ends. */
  lemma ParsePrint(ciphertext: Bytes, tag: Bytes, nonce: nat, ranges: seq<Range>)
    requires ciphertext != [] && |tag| == TAG_OCTETS
    requires Fits(nonce) && AllFit(ranges)
    requires |Trailer(tag, nonce, ranges)| + SIZE_AND_MARKER <= 255
    ensures var payload := Print(ciphertext, tag, nonce, ranges);
            var size := |payload| - |ciphertext|;
            && Parse(payload) == Some(Supplemental(size, |ciphertext|, nonce, ranges, |ciphertext|))
            && payload[..|ciphertext|] == ciphertext
  {
    hide Encode, Next, Ranges, Trailer, Print;
    PrintLayout(ciphertext, tag, nonce, ranges);
    RangesReadBack(ranges);
    EncodedReadsBack(nonce, EncodeRanges(ranges));
  }

  /** A number of 2^70 or more takes over ten octets, and cannot be read back. */
  lemma TooLargeIsNotRead(v: nat, rest: Bytes)
    requires !Fits(v)
    ensures Next(Encode(v) + rest) == None
  {
    var t := Encode(v);
    var s := t + rest;
    EncodeShape(v);
    EncodeIsToken(v);
    assert forall i | 0 <= i < MAX_OCTETS :: s[i] == t[i];
    ScanSkips(s, MAX_OCTETS, MAX_OCTETS);
  }

  lemma {:induction false} TooLargeRanges(ranges: seq<Range>)
    requires !AllFit(ranges)
    ensures Ranges(EncodeRanges(ranges)) == None
  {
    hide Encode, Next;
    var (offset, size) := ranges[0];
    var rest := EncodeRanges(ranges[1..]);
    if !Fits(offset) {
      TooLargeIsNotRead(offset, Encode(size) + rest);
    } else {
      EncodedReadsBack(offset, Encode(size) + rest);
      if !Fits(size) {
        TooLargeIsNotRead(size, rest);
      } else {
        EncodedReadsBack(size, rest);
        TooLargeRanges(ranges[1..]);
      }
    }
    NeverEmpty(ranges);
  }

  lemma NeverEmpty(ranges: seq<Range>)
    requires ranges != []
    ensures EncodeRanges(ranges) != []
  {
    assert Encode(ranges[0].0) != [];
  }

  /** The round trip succeeds exactly if there is a ciphertext and every number is below 2^70. */
  lemma RoundTripExactlyIfFits(ciphertext: Bytes, tag: Bytes, nonce: nat, ranges: seq<Range>)
    requires |tag| == TAG_OCTETS && |Trailer(tag, nonce, ranges)| + SIZE_AND_MARKER <= 255
    ensures var payload := Print(ciphertext, tag, nonce, ranges);
            var size := |payload| - |ciphertext|;
            (ciphertext != [] && Fits(nonce) && AllFit(ranges)) <==>
            Parse(payload) == Some(Supplemental(size, |ciphertext|, nonce, ranges, |ciphertext|))
  {
    hide Encode, Next, Ranges, Trailer, Print, EncodeRanges, AllFit;
    if ciphertext != [] && Fits(nonce) && AllFit(ranges) {
      ParsePrint(ciphertext, tag, nonce, ranges);
    } else {
      PrintLayout(ciphertext, tag, nonce, ranges);
      if !Fits(nonce) {
        TooLargeIsNotRead(nonce, EncodeRanges(ranges));
      } else if !AllFit(ranges) {
        EncodedReadsBack(nonce, EncodeRanges(ranges));
        TooLargeRanges(ranges);
      }
    }
  }
}
