/** ULEB128 numbers (section 7.6 of DWARF Version 5), as read by dave.py. */
module Uleb128 {
  import opened Bytes
  import opened Options

  /** `shift <= 63` admits the shifts 0, 7, ..., 63: ten octets. */
  const MAX_OCTETS: nat := 10

  datatype ReadResult = Read(value: nat, next: nat) | Invalid

  /** One encoded number: continuation octets, then one octet below 128. */
  ghost predicate IsToken(t: Bytes) {
    && 1 <= |t| <= 10
    && t[|t| - 1] < 128
    && forall i | 0 <= i < |t| - 1 :: t[i] >= 128
  }

  /** Little-endian base 128 value of a run of octets. */
  function Value(t: Bytes): nat {
    if t == [] then 0 else t[0] % 128 + 128 * Value(t[1..])
  }

  /** Length of the number `s` starts with, allowing at most `budget` octets. */
  function Scan(s: Bytes, budget: nat): (n: Option<nat>)
    ensures n.Some? ==> 1 <= n.value <= |s| && n.value <= budget
  {
    if s == [] || budget == 0 then None
    else if s[0] < 128 then Some(1)
    else match Scan(s[1..], budget - 1)
      case None => None
      case Some(n) => Some(n + 1)
  }

  lemma {:induction false} ScanFindsToken(s: Bytes, budget: nat)
    requires Scan(s, budget).Some?
    ensures var n := Scan(s, budget).value;
            s[n - 1] < 128 && forall i | 0 <= i < n - 1 :: s[i] >= 128
  {
    if s[0] >= 128 {
      ScanFindsToken(s[1..], budget - 1);
    }
  }

  lemma {:induction false} TokenIsScanned(s: Bytes, n: nat, budget: nat)
    requires 1 <= n <= |s| && n <= budget
    requires s[n - 1] < 128 && forall i | 0 <= i < n - 1 :: s[i] >= 128
    ensures Scan(s, budget) == Some(n)
  {
    if n > 1 {
      TokenIsScanned(s[1..], n - 1, budget - 1);
    }
  }

  /** `Scan` decides whether `s` starts with a token, and finds the only one. */
  lemma ScanIsToken(s: Bytes, n: nat)
    requires n <= |s|
    ensures Scan(s, MAX_OCTETS) == Some(n) <==> IsToken(s[..n])
  {
    if Scan(s, MAX_OCTETS) == Some(n) {
      ScanFindsToken(s, MAX_OCTETS);
    }
    if IsToken(s[..n]) {
      assert s[n - 1] == s[..n][n - 1];
      assert forall i | 0 <= i < n - 1 :: s[i] == s[..n][i];
      TokenIsScanned(s, n, MAX_OCTETS);
    }
  }

  /** No token is a proper prefix of another one. */
  lemma TokensArePrefixFree(t: Bytes, rest: Bytes)
    requires IsToken(t) && IsToken(t + rest)
    ensures rest == []
  {
    ScanIsToken(t + rest, |t|);
    ScanIsToken(t + rest, |t + rest|);
    assert (t + rest)[..|t|] == t;
    assert (t + rest)[..|t + rest|] == t + rest;
  }

  function Pow128(n: nat): (p: nat)
    ensures p >= 1
  {
    if n == 0 then 1 else 128 * Pow128(n - 1)
  }

  /** Reading one more octet on top adds it with its weight. */
  lemma {:induction false} ValueSnoc(t: Bytes, b: Byte)
    ensures Value(t + [b]) == Value(t) + (b % 128) * Pow128(|t|)
  {
    if t == [] {
      assert [b][1..] == [];
    } else {
      assert (t + [b])[1..] == t[1..] + [b];
      ValueSnoc(t[1..], b);
      var x, p := b % 128, Pow128(|t| - 1);
      assert 128 * (x * p) == x * (128 * p);
    }
  }

  /** Scanning resumes after octets that all continue. */
  lemma {:induction false} ScanSkips(s: Bytes, k: nat, budget: nat)
    requires k <= |s| && k <= budget
    requires forall i | 0 <= i < k :: s[i] >= 128
    ensures Scan(s, budget) == match Scan(s[k..], budget - k)
                               case None => None
                               case Some(n) => Some(k + n)
  {
    if k > 0 {
      ScanSkips(s[1..], k - 1, budget - 1);
      assert s[1..][k - 1..] == s[k..];
    } else {
      assert s[0..] == s;
    }
  }

  /** The number at the front of `s`, and what follows it. */
  function Next(s: Bytes): (r: Option<(nat, Bytes)>)
    ensures r.Some? ==> |r.value.1| < |s|
  {
    match Scan(s, MAX_OCTETS)
    case None => None
    case Some(n) => Some((Value(s[..n]), s[n..]))
  }

  lemma NextOfToken(t: Bytes, rest: Bytes)
    requires IsToken(t)
    ensures Next(t + rest) == Some((Value(t), rest))
  {
    var s := t + rest;
    assert s[..|t|] == t && s[|t|..] == rest;
    ScanIsToken(s, |t|);
  }

  lemma TokenOfNext(s: Bytes) returns (t: Bytes)
    requires Next(s).Some?
    ensures IsToken(t) && t != [] && s == t + Next(s).value.1 && Value(t) == Next(s).value.0
  {
    var n := Scan(s, MAX_OCTETS).value;
    ScanIsToken(s, n);
    t := s[..n];
  }

  /** What reading at `start` in `buf`, not going past `end`, must give. */
  function ReadAt(buf: Bytes, start: nat, end: nat): (r: ReadResult)
    requires start <= end <= |buf|
    ensures r.Read? ==> start < r.next <= end
  {
    match Scan(buf[start..end], MAX_OCTETS)
    case None => Invalid
    case Some(n) => Read(Value(buf[start..start + n]), start + n)
  }

  /** What one more octet does to the running value and to the scan. */
  lemma ScanStep(s: Bytes, k: nat)
    requires k < |s| && k < MAX_OCTETS
    requires forall i | 0 <= i < k :: s[i] >= 128
    ensures Value(s[..k + 1]) == Value(s[..k]) + (s[k] % 128) * Pow128(k)
    ensures s[k] < 128 ==> Scan(s, MAX_OCTETS) == Some(k + 1)
  {
    ValueSnoc(s[..k], s[k]);
    assert s[..k] + [s[k]] == s[..k + 1];
    if s[k] < 128 {
      TokenIsScanned(s, k + 1, MAX_OCTETS);
    }
  }

  lemma NoValue()
    ensures Value([]) == 0
  {
  }

  /** The loop of `_read_uleb128`. `value` and the shifted octet have no bit in common, so `|=` adds;
      `weight` is `1 << shift`. */
  method ReadUleb128(buf: Bytes, start: nat, end: nat) returns (r: ReadResult)
    requires start <= end <= |buf|
    ensures r == ReadAt(buf, start, end)
  {
    hide Value, Scan;
    ghost var s := buf[start..end];
    assert s[..0] == [] && Value([]) == 0 by { NoValue(); }
    var shift: nat, weight: nat := 0, 1;
    var value: nat := 0;
    var index := start;
    while index < end && shift <= 63
      invariant start <= index <= end
      invariant shift == 7 * (index - start) <= 7 * MAX_OCTETS
      invariant weight == Pow128(index - start)
      invariant value == Value(s[..index - start])
      invariant forall i | 0 <= i < index - start :: s[i] >= 128
    {
      var byte := buf[index];
      ScanStep(s, index - start);
      index := index + 1;
      value := value + (byte % 128) * weight;
      if byte < 128 {
        assert s[..index - start] == buf[start..index];
        return Read(value, index);
      }
      shift, weight := shift + 7, 128 * weight;
    }
    ScanSkips(s, index - start, MAX_OCTETS);
    r := Invalid;
  }

  /** What is read is one token, from `start` up to the index handed back. */
  lemma ReadIsToken(buf: Bytes, start: nat, end: nat, n: nat)
    requires start <= end <= |buf| && start + n <= end
    requires Scan(buf[start..end], MAX_OCTETS) == Some(n)
    ensures IsToken(buf[start..start + n])
  {
    ScanIsToken(buf[start..end], n);
    assert buf[start..end][..n] == buf[start..start + n];
  }

  /** Reading fails exactly on an unterminated or over-long number. */
  lemma ReadFails(buf: Bytes, start: nat, end: nat)
    requires start <= end <= |buf|
    ensures ReadAt(buf, start, end).Invalid? <==> forall k | start <= k <= end :: !IsToken(buf[start..k])
  {
    forall k | start <= k <= end
      ensures IsToken(buf[start..k]) <==> Scan(buf[start..end], MAX_OCTETS) == Some(k - start)
    {
      ScanIsToken(buf[start..end], k - start);
      assert buf[start..end][..k - start] == buf[start..k];
    }
    if Scan(buf[start..end], MAX_OCTETS).Some? {
      var n := Scan(buf[start..end], MAX_OCTETS).value;
      assert IsToken(buf[start..start + n]);
    }
  }

  /** Reading inside a buffer is reading at the front of what is left of it. */
  lemma ReadIsNext(buf: Bytes, start: nat, end: nat)
    requires start <= end <= |buf|
    ensures var r := ReadAt(buf, start, end);
            Next(buf[start..end]) == if r.Read? then Some((r.value, buf[r.next..end])) else None
  {
    var s := buf[start..end];
    if Scan(s, MAX_OCTETS).Some? {
      var n := Scan(s, MAX_OCTETS).value;
      assert s[..n] == buf[start..start + n] && s[n..] == buf[start + n..end];
    }
  }

  /** The printer of tests/test_dave.py. */
  function Encode(v: nat): (t: Bytes)
    ensures |t| >= 1
  {
    if v < 128 then [v] else [v % 128 + 128] + Encode(v / 128)
  }

  lemma OneMoreContinues(low: Byte, rest: Bytes)
    requires low >= 128 && rest != []
    requires rest[|rest| - 1] < 128 && forall i | 0 <= i < |rest| - 1 :: rest[i] >= 128
    ensures var t := [low] + rest;
            t[|t| - 1] < 128 && forall i | 0 <= i < |t| - 1 :: t[i] >= 128
  {
  }

  lemma {:induction false} EncodeShape(v: nat)
    ensures Value(Encode(v)) == v
    ensures var t := Encode(v); t[|t| - 1] < 128 && forall i | 0 <= i < |t| - 1 :: t[i] >= 128
  {
    if v < 128 {
      assert Encode(v)[1..] == [];
    } else {
      EncodeShape(v / 128);
      var low: Byte := v % 128 + 128;
      assert low % 128 == v % 128;
      var t, rest := Encode(v), Encode(v / 128);
      assert t == [low] + rest && t[1..] == rest;
      OneMoreContinues(low, rest);
    }
  }

  lemma {:induction false} EncodeLength(v: nat, k: nat)
    requires k >= 1
    ensures |Encode(v)| <= k <==> v < Pow128(k)
  {
    if v >= 128 && k > 1 {
      EncodeLength(v / 128, k - 1);
      var p := Pow128(k - 1);
      assert v / 128 < p <==> v < 128 * p;
    } else if v < 128 {
      assert Pow128(k - 1) >= 1;
    }
  }

  /** The canonical encoding is accepted exactly for the values that ten octets can carry. */
  lemma EncodeIsToken(v: nat)
    ensures IsToken(Encode(v)) <==> v < 0x40_0000_0000_0000_0000
  {
    assert Pow128(MAX_OCTETS) == 0x40_0000_0000_0000_0000 by {
      assert Pow128(2) == 16384;
      assert Pow128(4) == 268435456;
      assert Pow128(6) == 4398046511104;
      assert Pow128(8) == 72057594037927936;
    }
    EncodeLength(v, MAX_OCTETS);
    EncodeShape(v);
  }

  /** Reading an encoded value inside any surroundings gives it back, and the index just past it. */
  lemma ReadBack(before: Bytes, v: nat, inside: Bytes, after: Bytes)
    requires v < 0x40_0000_0000_0000_0000
    ensures var t := Encode(v);
            ReadAt(before + t + inside + after, |before|, |before + t + inside|) == Read(v, |before + t|)
  {
    var t := Encode(v);
    var buf := before + t + inside + after;
    EncodeIsToken(v);
    EncodeShape(v);
    assert buf[|before|..|before + t + inside|] == t + inside;
    assert (t + inside)[..|t|] == t;
    ScanIsToken(t + inside, |t|);
    assert buf[|before|..|before + t|] == t;
  }
}
