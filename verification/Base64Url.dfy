/** Bytes. */
module Octets {
  type Byte = b: int | 0 <= b < 256
  type Bytes = seq<Byte>
}

/** Unpadded base64url (section 5 of RFC 4648), with the lenient decoder the packet models use. */
module Base64Url {
  import opened Options
  import opened Octets

  type Sextet = v: int | 0 <= v < 64

  function Symbol(v: Sextet): char {
    if v < 26 then ('A' as int + v) as char
    else if v < 52 then ('a' as int + v - 26) as char
    else if v < 62 then ('0' as int + v - 52) as char
    else if v == 62 then '-' else '_'
  }

  /** The value of a symbol.  The standard alphabet's `+` and `/` are understood as well. */
  function ValueOf(ch: char): Option<Sextet> {
    if 'A' <= ch <= 'Z' then Some(ch as int - 'A' as int)
    else if 'a' <= ch <= 'z' then Some(ch as int - 'a' as int + 26)
    else if '0' <= ch <= '9' then Some(ch as int - '0' as int + 52)
    else if ch == '-' || ch == '+' then Some(62)
    else if ch == '_' || ch == '/' then Some(63)
    else None
  }

  /** The padded encoding, three bytes to four symbols. */
  function Padded(raw: Bytes): string {
    if raw == [] then ""
    else if |raw| == 1 then
      [Symbol(raw[0] / 4), Symbol(raw[0] % 4 * 16), '=', '=']
    else if |raw| == 2 then
      [Symbol(raw[0] / 4), Symbol(raw[0] % 4 * 16 + raw[1] / 16), Symbol(raw[1] % 16 * 4), '=']
    else
      [Symbol(raw[0] / 4), Symbol(raw[0] % 4 * 16 + raw[1] / 16),
       Symbol(raw[1] % 16 * 4 + raw[2] / 64), Symbol(raw[2] % 64)] + Padded(raw[3..])
  }

  function StripPadding(text: string): string {
    if text != "" && text[|text| - 1] == '=' then StripPadding(text[..|text| - 1]) else text
  }

  function Encode(raw: Bytes): string {
    StripPadding(Padded(raw))
  }

  function Padding(n: nat): string {
    if n == 0 then "" else ['='] + Padding(n - 1)
  }

  /**
    The lenient scanner: `quad` is the position in the group of four, `left` the bits carried over.
    Characters outside the alphabet are skipped, and a full pad sequence ends the input.
  */
  function Scan(text: string, quad: nat, pads: nat, left: nat): Option<seq<int>>
    decreases |text|
  {
    if text == "" then (if quad == 0 then Some([]) else None)
    else if text[0] == '=' then
      if quad >= 2 && quad + pads + 1 >= 4 then Some([])
      else Scan(text[1..], quad, if quad >= 2 then pads + 1 else pads, left)
    else match ValueOf(text[0])
      case None => Scan(text[1..], quad, pads, left)
      case Some(v) =>
        if quad == 0 then Scan(text[1..], 1, 0, v)
        else if quad == 1 then Prepend(left * 4 + v / 16, Scan(text[1..], 2, 0, v % 16))
        else if quad == 2 then Prepend(left * 16 + v / 4, Scan(text[1..], 3, 0, v % 4))
        else Prepend(left * 64 + v, Scan(text[1..], 0, 0, 0))
  }

  function Prepend(b: int, rest: Option<seq<int>>): Option<seq<int>> {
    match rest
    case None => None
    case Some(tail) => Some([b] + tail)
  }

  /** What is carried over always fits, so the scanner yields bytes. */
  lemma {:induction false} ScanYieldsBytes(text: string, quad: nat, pads: nat, left: nat)
    requires (quad == 0 && left == 0) || (quad == 1 && left < 64) || (quad == 2 && left < 16) || (quad == 3 && left < 4)
    ensures Scan(text, quad, pads, left).Some? ==>
      forall i :: 0 <= i < |Scan(text, quad, pads, left).value| ==> 0 <= Scan(text, quad, pads, left).value[i] < 256
    decreases |text|
  {
    if text != "" {
      if text[0] == '=' {
        ScanYieldsBytes(text[1..], quad, if quad >= 2 then pads + 1 else pads, left);
      } else {
        match ValueOf(text[0])
        case None => ScanYieldsBytes(text[1..], quad, pads, left);
        case Some(v) =>
          if quad == 0 { ScanYieldsBytes(text[1..], 1, 0, v); }
          else if quad == 1 { ScanYieldsBytes(text[1..], 2, 0, v % 16); }
          else if quad == 2 { ScanYieldsBytes(text[1..], 3, 0, v % 4); }
          else { ScanYieldsBytes(text[1..], 0, 0, 0); }
      }
    }
  }

  predicate IsAscii(text: string) {
    forall i :: 0 <= i < |text| ==> text[i] as int < 128
  }

  /** Decoding restores the stripped padding, `(-len) mod 4` characters of it. */
  function Decode(text: string): Option<Bytes> {
    if !IsAscii(text) then None
    else
      ScanYieldsBytes(text + Padding((-|text|) % 4), 0, 0, 0);
      Scan(text + Padding((-|text|) % 4), 0, 0, 0)
  }

  // --- The round trip ---

  /** The encoding without its padding, spelled out. */
  function Unpadded(raw: Bytes): string {
    if raw == [] then ""
    else if |raw| == 1 then [Symbol(raw[0] / 4), Symbol(raw[0] % 4 * 16)]
    else if |raw| == 2 then
      [Symbol(raw[0] / 4), Symbol(raw[0] % 4 * 16 + raw[1] / 16), Symbol(raw[1] % 16 * 4)]
    else
      [Symbol(raw[0] / 4), Symbol(raw[0] % 4 * 16 + raw[1] / 16),
       Symbol(raw[1] % 16 * 4 + raw[2] / 64), Symbol(raw[2] % 64)] + Unpadded(raw[3..])
  }

  lemma {:induction false} SymbolValue(v: Sextet)
    ensures ValueOf(Symbol(v)) == Some(v) && Symbol(v) != '=' && Symbol(v) as int < 128
  {
  }

  lemma {:induction false} UnpaddedSymbols(raw: Bytes)
    ensures forall i :: 0 <= i < |Unpadded(raw)| ==> Unpadded(raw)[i] != '=' && Unpadded(raw)[i] as int < 128
  {
    if |raw| > 2 {
      UnpaddedSymbols(raw[3..]);
    }
  }

  lemma {:induction false} LengthStep(n: int)
    requires 0 <= n
    ensures (4 * (n + 3) + 2) / 3 == 4 + (4 * n + 2) / 3
    ensures (-(n + 4)) % 4 == (-n) % 4 && (n + 4) % 4 == n % 4
  {
  }

  lemma {:induction false} UnpaddedStep(raw: Bytes)
    requires |raw| > 2
    ensures |Unpadded(raw)| == 4 + |Unpadded(raw[3..])|
  {
    hide Symbol;
  }

  lemma {:induction false} UnpaddedLength(raw: Bytes)
    ensures |Unpadded(raw)| == (4 * |raw| + 2) / 3 && |Unpadded(raw)| % 4 != 1
  {
    if |raw| > 2 {
      UnpaddedStep(raw);
      UnpaddedLength(raw[3..]);
      LengthStep(|raw[3..]|);
      LengthStep(|Unpadded(raw[3..])|);
      hide *;
    }
  }

  lemma {:induction false} ShortPadding(raw: Bytes)
    requires |raw| == 1 || |raw| == 2
    ensures Padded(raw) == Unpadded(raw) + Padding((-|Unpadded(raw)|) % 4)
  {
    hide Symbol;
    if |raw| == 1 {
      assert Padding(2) == ['='] + Padding(1) && Padding(1) == ['='] + Padding(0);
    } else {
      assert Padding(1) == ['='] + Padding(0);
    }
  }

  lemma {:induction false} PaddedStep(raw: Bytes, pad: string)
    requires |raw| > 2 && Padded(raw[3..]) == Unpadded(raw[3..]) + pad
    ensures Padded(raw) == Unpadded(raw) + pad
  {
    hide Symbol;
  }

  lemma {:induction false} PaddedIsUnpadded(raw: Bytes)
    ensures Padded(raw) == Unpadded(raw) + Padding((-|Unpadded(raw)|) % 4)
  {
    if |raw| == 1 || |raw| == 2 {
      ShortPadding(raw);
    } else if raw != [] {
      PaddedIsUnpadded(raw[3..]);
      UnpaddedStep(raw);
      LengthStep(|Unpadded(raw[3..])|);
      PaddedStep(raw, Padding((-|Unpadded(raw)|) % 4));
      hide *;
    }
  }

  lemma {:induction false} StripRemovesPadding(text: string, n: nat)
    requires text != "" ==> text[|text| - 1] != '='
    ensures StripPadding(text + Padding(n)) == text
  {
    if n > 0 {
      PaddingSnoc(n - 1);
      assert (text + Padding(n))[..|text + Padding(n)| - 1] == text + Padding(n - 1);
      StripRemovesPadding(text, n - 1);
    } else {
      assert text + Padding(0) == text;
    }
  }

  lemma {:induction false} PaddingSnoc(n: nat)
    ensures Padding(n + 1) == Padding(n) + ['='] && |Padding(n)| == n
  {
    if n > 0 {
      PaddingSnoc(n - 1);
    }
  }

  lemma {:induction false} EncodeIsUnpadded(raw: Bytes)
    ensures Encode(raw) == Unpadded(raw)
  {
    UnpaddedSymbols(raw);
    PaddedIsUnpadded(raw);
    StripRemovesPadding(Unpadded(raw), (-|Unpadded(raw)|) % 4);
  }

  /** One symbol of the scan. */
  lemma {:induction false} ScanSymbol(v: Sextet, rest: string, quad: nat, pads: nat, left: nat)
    requires quad < 4
    ensures Scan([Symbol(v)] + rest, quad, pads, left) ==
      if quad == 0 then Scan(rest, 1, 0, v)
      else if quad == 1 then Prepend(left * 4 + v / 16, Scan(rest, 2, 0, v % 16))
      else if quad == 2 then Prepend(left * 16 + v / 4, Scan(rest, 3, 0, v % 4))
      else Prepend(left * 64 + v, Scan(rest, 0, 0, 0))
  {
    SymbolValue(v);
    assert ([Symbol(v)] + rest)[1..] == rest;
  }

  /** Three bytes survive the regrouping into four sextets. */
  lemma {:induction false} Regroup(b: Byte, d: Byte, e: Byte)
    ensures var s1, s2 := b % 4 * 16 + d / 16, d % 16 * 4 + e / 64;
      && b / 4 * 4 + s1 / 16 == b && s1 % 16 * 16 + s2 / 4 == d && s2 % 4 * 64 + e % 64 == e
      && s1 < 64 && s2 < 64
  {
  }

  lemma {:induction false} ScanQuad(s0: Sextet, s1: Sextet, s2: Sextet, s3: Sextet, rest: string)
    ensures Scan([Symbol(s0), Symbol(s1), Symbol(s2), Symbol(s3)] + rest, 0, 0, 0)
      == Prepend(s0 * 4 + s1 / 16,
           Prepend(s1 % 16 * 16 + s2 / 4, Prepend(s2 % 4 * 64 + s3, Scan(rest, 0, 0, 0))))
  {
    var t3 := [Symbol(s3)] + rest;
    var t2 := [Symbol(s2)] + t3;
    var t1 := [Symbol(s1)] + t2;
    assert [Symbol(s0), Symbol(s1), Symbol(s2), Symbol(s3)] + rest == [Symbol(s0)] + t1;
    hide *;
    ScanSymbol(s0, t1, 0, 0, 0);
    ScanSymbol(s1, t2, 1, 0, s0);
    ScanSymbol(s2, t3, 2, 0, s1 % 16);
    ScanSymbol(s3, rest, 3, 0, s2 % 4);
  }

  /** The pad characters end the input. */
  lemma {:induction false} ScanPads(left: nat)
    ensures Scan(['=', '='], 2, 0, left) == Some([]) && Scan(['='], 3, 0, left) == Some([])
  {
    assert ['=', '='][1..] == ['='];
  }

  lemma {:induction false} PrependLast(b: int, d: int)
    ensures Prepend(b, Some([])) == Some([b]) && Prepend(b, Prepend(d, Some([]))) == Some([b, d])
  {
    assert [b] + ([d] + []) == [b, d];
    assert [b] + [] == [b];
  }

  /** The last group, padded. */
  lemma {:induction false} ScanLast(s0: Sextet, s1: Sextet, s2: Sextet)
    ensures Scan([Symbol(s0), Symbol(s1), '=', '='], 0, 0, 0) == Some([s0 * 4 + s1 / 16])
    ensures Scan([Symbol(s0), Symbol(s1), Symbol(s2), '='], 0, 0, 0)
      == Some([s0 * 4 + s1 / 16, s1 % 16 * 16 + s2 / 4])
  {
    ScanPads(s1 % 16);
    ScanPads(s2 % 4);
    var two := [Symbol(s1)] + ['=', '='];
    var t2 := [Symbol(s2)] + ['='];
    var t1 := [Symbol(s1)] + t2;
    assert [Symbol(s0), Symbol(s1), '=', '='] == [Symbol(s0)] + two;
    assert [Symbol(s0), Symbol(s1), Symbol(s2), '='] == [Symbol(s0)] + t1;
    PrependLast(s0 * 4 + s1 / 16, s1 % 16 * 16 + s2 / 4);
    hide *;
    ScanSymbol(s0, two, 0, 0, 0);
    ScanSymbol(s1, ['=', '='], 1, 0, s0);
    ScanSymbol(s0, t1, 0, 0, 0);
    ScanSymbol(s1, t2, 1, 0, s0);
    ScanSymbol(s2, ['='], 2, 0, s1 % 16);
  }

  lemma {:induction false} ScanOne(b: Byte)
    ensures Scan(Padded([b]), 0, 0, 0) == Some([b])
  {
    ScanLast(b / 4, b % 4 * 16, 0);
  }

  lemma {:induction false} ScanTwo(b: Byte, d: Byte)
    ensures Scan(Padded([b, d]), 0, 0, 0) == Some([b, d])
  {
    var s0, s1, s2 := b / 4, b % 4 * 16 + d / 16, d % 16 * 4;
    Regroup(b, d, 0);
    assert Padded([b, d]) == [Symbol(s0), Symbol(s1), Symbol(s2), '='];
    assert s0 * 4 + s1 / 16 == b && s1 % 16 * 16 + s2 / 4 == d;
    hide *;
    ScanLast(s0, s1, s2);
  }

  lemma {:induction false} ScanMore(b: Byte, d: Byte, e: Byte, rest: Bytes)
    requires Scan(Padded(rest), 0, 0, 0) == Some(rest)
    ensures Scan(Padded([b, d, e] + rest), 0, 0, 0) == Some([b, d, e] + rest)
  {
    var raw := [b, d, e] + rest;
    var s0, s1, s2, s3 := b / 4, b % 4 * 16 + d / 16, d % 16 * 4 + e / 64, e % 64;
    Regroup(b, d, e);
    assert raw[3..] == rest;
    assert Padded(raw) == [Symbol(s0), Symbol(s1), Symbol(s2), Symbol(s3)] + Padded(rest);
    assert s0 * 4 + s1 / 16 == b && s1 % 16 * 16 + s2 / 4 == d && s2 % 4 * 64 + s3 == e;
    assert Prepend(b, Prepend(d, Prepend(e, Some(rest)))) == Some(raw) by {
      assert [b] + ([d] + ([e] + rest)) == raw;
    }
    hide *;
    ScanQuad(s0, s1, s2, s3, Padded(rest));
  }

  lemma {:induction false} ScanPadded(raw: Bytes)
    ensures Scan(Padded(raw), 0, 0, 0) == Some(raw)
  {
    if |raw| == 1 {
      assert raw == [raw[0]];
      ScanOne(raw[0]);
    } else if |raw| == 2 {
      assert raw == [raw[0], raw[1]];
      ScanTwo(raw[0], raw[1]);
    } else if raw != [] {
      ScanPadded(raw[3..]);
      ScanMore(raw[0], raw[1], raw[2], raw[3..]);
      assert raw == [raw[0], raw[1], raw[2]] + raw[3..];
    }
  }

  /** Decoding inverts encoding for every byte sequence. */
  lemma {:induction false} RoundTrip(raw: Bytes)
    ensures Decode(Encode(raw)) == Some(raw)
  {
    EncodeIsUnpadded(raw);
    UnpaddedSymbols(raw);
    PaddedIsUnpadded(raw);
    ScanPadded(raw);
  }

  lemma {:induction false} EncodeInjective(a: Bytes, b: Bytes)
    requires Encode(a) == Encode(b)
    ensures a == b
  {
    RoundTrip(a);
    RoundTrip(b);
  }

  /** The encoded length is ceil(4n/3), never one more than a multiple of four. */
  lemma {:induction false} EncodedLength(raw: Bytes)
    ensures |Encode(raw)| == (4 * |raw| + 2) / 3 && |Encode(raw)| % 4 != 1
  {
    EncodeIsUnpadded(raw);
    UnpaddedLength(raw);
  }
}
