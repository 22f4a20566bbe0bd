/**
  The decoder of Base64Url is lenient: which texts it refuses, exactly, and which of the texts it accepts
  are encodings, exactly.
*/
module Base64Exact {
  import opened Options
  import opened Octets
  import opened Base64Url

  // --- The texts that are encodings ---

  predicate UrlSafe(ch: char) {
    ValueOf(ch).Some? && ch != '+' && ch != '/'
  }

  /** URL-safe symbols only, not one more than a multiple of four, the unused low bits of the last one zero. */
  predicate IsEncoding(t: string) {
    && (forall i :: 0 <= i < |t| ==> UrlSafe(t[i]))
    && |t| % 4 != 1
    && (|t| % 4 == 2 ==> ValueOf(t[|t| - 1]).value % 16 == 0)
    && (|t| % 4 == 3 ==> ValueOf(t[|t| - 1]).value % 4 == 0)
  }

  lemma {:induction false} SymbolOfValue(ch: char)
    requires UrlSafe(ch)
    ensures Symbol(ValueOf(ch).value) == ch
  {
  }

  lemma {:induction false} SymbolIsSafe(v: Sextet)
    ensures UrlSafe(Symbol(v)) && ValueOf(Symbol(v)) == Some(v)
  {
  }

  /** Four sextets survive the regrouping into three bytes. */
  lemma {:induction false} Ungroup(v: Sextet, w: Sextet, x: Sextet, y: Sextet)
    ensures var b, d, e := v * 4 + w / 16, w % 16 * 16 + x / 4, x % 4 * 64 + y;
      && b < 256 && d < 256 && e < 256
      && b / 4 == v && b % 4 * 16 + d / 16 == w && d % 16 * 4 + e / 64 == x && e % 64 == y
  {
  }

  lemma {:induction false} TwoSymbols(v: Sextet, w: Sextet) returns (raw: Bytes)
    requires w % 16 == 0
    ensures Unpadded(raw) == [Symbol(v), Symbol(w)]
  {
    Ungroup(v, w, 0, 0);
    raw := [v * 4 + w / 16];
    hide Symbol;
  }

  lemma {:induction false} ThreeSymbols(v: Sextet, w: Sextet, x: Sextet) returns (raw: Bytes)
    requires x % 4 == 0
    ensures Unpadded(raw) == [Symbol(v), Symbol(w), Symbol(x)]
  {
    Ungroup(v, w, x, 0);
    raw := [v * 4 + w / 16, w % 16 * 16 + x / 4];
    hide Symbol;
  }

  lemma {:induction false} UnpaddedQuad(b: Byte, d: Byte, e: Byte, rest: Bytes)
    ensures Unpadded([b, d, e] + rest)
      == [Symbol(b / 4), Symbol(b % 4 * 16 + d / 16), Symbol(d % 16 * 4 + e / 64), Symbol(e % 64)] + Unpadded(rest)
  {
    hide Symbol;
    assert ([b, d, e] + rest)[3..] == rest;
  }

  lemma {:induction false} FourSymbols(v: Sextet, w: Sextet, x: Sextet, y: Sextet, rest: Bytes) returns (raw: Bytes)
    ensures Unpadded(raw) == [Symbol(v), Symbol(w), Symbol(x), Symbol(y)] + Unpadded(rest)
  {
    Ungroup(v, w, x, y);
    var b, d, e := v * 4 + w / 16, w % 16 * 16 + x / 4, x % 4 * 64 + y;
    hide *;
    UnpaddedQuad(b, d, e, rest);
    raw := [b, d, e] + rest;
  }

  lemma {:induction false} SextetAt(t: string, i: nat) returns (v: Sextet)
    requires i < |t| && UrlSafe(t[i])
    ensures ValueOf(t[i]) == Some(v) && Symbol(v) == t[i]
  {
    SymbolOfValue(t[i]);
    v := ValueOf(t[i]).value;
  }

  lemma {:induction false} LastBytes(t: string) returns (raw: Bytes)
    requires IsEncoding(t) && (|t| == 2 || |t| == 3)
    ensures Unpadded(raw) == t
  {
    hide ValueOf, Symbol, Unpadded;
    var v := SextetAt(t, 0);
    var w := SextetAt(t, 1);
    if |t| == 2 {
      raw := TwoSymbols(v, w);
      assert t == [t[0], t[1]];
    } else {
      var x := SextetAt(t, 2);
      raw := ThreeSymbols(v, w, x);
      assert t == [t[0], t[1], t[2]];
    }
  }

  lemma {:induction false} FirstBytes(t: string, rest: Bytes) returns (raw: Bytes)
    requires IsEncoding(t) && |t| >= 4 && Unpadded(rest) == t[4..]
    ensures Unpadded(raw) == t
  {
    hide ValueOf, Symbol, Unpadded;
    var v := SextetAt(t, 0);
    var w := SextetAt(t, 1);
    var x := SextetAt(t, 2);
    var y := SextetAt(t, 3);
    raw := FourSymbols(v, w, x, y, rest);
    assert t == [t[0], t[1], t[2], t[3]] + t[4..];
  }

  lemma {:induction false} TailIsEncoding(t: string)
    requires IsEncoding(t) && |t| >= 4
    ensures IsEncoding(t[4..])
  {
    hide ValueOf;
  }

  /** The bytes such a text encodes. */
  lemma {:induction false} EncodedBytes(t: string) returns (raw: Bytes)
    requires IsEncoding(t)
    ensures Unpadded(raw) == t
    decreases |t|
  {
    if t == "" {
      raw := [];
    } else if |t| < 4 {
      raw := LastBytes(t);
    } else {
      TailIsEncoding(t);
      var rest := EncodedBytes(t[4..]);
      raw := FirstBytes(t, rest);
    }
  }

  lemma {:induction false} ShortIsEncoding(raw: Bytes)
    requires |raw| < 3
    ensures IsEncoding(Unpadded(raw))
  {
    if |raw| == 1 {
      SymbolIsSafe(raw[0] / 4);
      SymbolIsSafe(raw[0] % 4 * 16);
    } else if |raw| == 2 {
      SymbolIsSafe(raw[0] / 4);
      SymbolIsSafe(raw[0] % 4 * 16 + raw[1] / 16);
      SymbolIsSafe(raw[1] % 16 * 4);
    }
    hide Symbol, ValueOf;
  }

  lemma {:induction false} UnpaddedIsEncoding(raw: Bytes)
    ensures IsEncoding(Unpadded(raw))
  {
    if |raw| < 3 {
      ShortIsEncoding(raw);
    } else {
      var b, d, e, rest := raw[0], raw[1], raw[2], raw[3..];
      var s1, s2 := b % 4 * 16 + d / 16, d % 16 * 4 + e / 64;
      assert raw == [b, d, e] + rest;
      UnpaddedIsEncoding(rest);
      UnpaddedQuad(b, d, e, rest);
      hide *;
      SymbolIsSafe(b / 4);
      SymbolIsSafe(s1);
      SymbolIsSafe(s2);
      SymbolIsSafe(e % 64);
      QuadThen([Symbol(b / 4), Symbol(s1), Symbol(s2), Symbol(e % 64)], Unpadded(rest));
    }
  }

  lemma {:induction false} QuadThen(quad: string, rest: string)
    requires |quad| == 4 && (forall i :: 0 <= i < 4 ==> UrlSafe(quad[i])) && IsEncoding(rest)
    ensures IsEncoding(quad + rest)
  {
    hide ValueOf;
    assert rest != "" ==> (quad + rest)[|quad + rest| - 1] == rest[|rest| - 1];
  }

  /** A text is the encoding of some bytes exactly when it has the form above. */
  lemma {:induction false} EncodingsExactly(t: string)
    ensures (exists raw :: Encode(raw) == t) <==> IsEncoding(t)
  {
    if IsEncoding(t) {
      var raw := EncodedBytes(t);
      EncodeIsUnpadded(raw);
    }
    if raw :| Encode(raw) == t {
      EncodeIsUnpadded(raw);
      UnpaddedIsEncoding(raw);
    }
  }

  /** Of the texts that decode, exactly these are encoded back to themselves. */
  lemma {:induction false} ReEncodesExactly(t: string)
    requires Decode(t).Some?
    ensures Encode(Decode(t).value) == t <==> IsEncoding(t)
  {
    EncodingsExactly(t);
    if raw :| Encode(raw) == t {
      RoundTrip(raw);
    }
  }

  // --- The texts that are refused ---

  /** The symbols of either alphabet in a text. */
  function Symbols(t: string): nat {
    if t == "" then 0
    else Symbols(t[..|t| - 1]) + if ValueOf(t[|t| - 1]).Some? then 1 else 0
  }

  /** The pad characters since the last symbol. */
  function Pads(t: string): nat {
    if t == "" || ValueOf(t[|t| - 1]).Some? then 0
    else Pads(t[..|t| - 1]) + if t[|t| - 1] == '=' then 1 else 0
  }

  /** An incomplete group of two or three symbols, filled up by pad characters. */
  predicate Closes(t: string) {
    Symbols(t) % 4 >= 2 && Symbols(t) % 4 + Pads(t) >= 4
  }

  /** The groups are complete, or the input ends early at a padded one. */
  ghost predicate Readable(t: string) {
    Symbols(t) % 4 == 0 || exists n :: 0 <= n <= |t| && Closes(t[..n])
  }

  lemma {:induction false} OneMore(t: string, i: nat)
    requires i < |t|
    ensures Symbols(t[..i + 1]) == Symbols(t[..i]) + if ValueOf(t[i]).Some? then 1 else 0
    ensures Pads(t[..i + 1]) ==
      if ValueOf(t[i]).Some? then 0 else Pads(t[..i]) + if t[i] == '=' then 1 else 0
  {
    assert t[..i + 1][..i] == t[..i];
  }

  /** What is left of a group after one more symbol. */
  function Carried(quad: nat, v: Sextet): nat {
    if quad == 0 then v else if quad == 1 then v % 16 else if quad == 2 then v % 4 else 0
  }

  /** The pad count the scanner keeps after one more character. */
  function Counted(quad: nat, ch: char, pads: nat): nat {
    if ValueOf(ch).Some? then 0 else if ch == '=' && quad >= 2 then pads + 1 else pads
  }

  /** One more character ends the input, or is read. */
  predicate Stops(quad: nat, ch: char, pads: nat) {
    ch == '=' && quad >= 2 && quad + pads + 1 >= 4
  }

  lemma {:induction false} ScanOneMore(ch: char, rest: string, quad: nat, pads: nat, left: nat) returns (next: nat)
    requires quad < 4
    ensures Stops(quad, ch, pads) ==> Scan([ch] + rest, quad, pads, left).Some?
    ensures !Stops(quad, ch, pads) ==> (
      Scan([ch] + rest, quad, pads, left).Some?
      == Scan(rest, if ValueOf(ch).Some? then (quad + 1) % 4 else quad, Counted(quad, ch, pads), next).Some?)
  {
    assert ([ch] + rest)[1..] == rest;
    next := if ValueOf(ch).Some? then Carried(quad, ValueOf(ch).value) else left;
  }

  /** After `i` characters the scanner has not stopped and counts pads as `Pads` does. */
  predicate Tracks(t: string, i: nat, pads: nat)
    requires i <= |t|
  {
    (Symbols(t[..i]) % 4 >= 2 ==> pads == Pads(t[..i])) && !Closes(t[..i])
  }

  lemma {:induction false} TrackOneMore(t: string, i: nat, pads: nat)
    requires i < |t| && Tracks(t, i, pads)
    ensures var quad := Symbols(t[..i]) % 4;
      && (Stops(quad, t[i], pads) <==> Closes(t[..i + 1]))
      && (!Closes(t[..i + 1]) ==> Tracks(t, i + 1, Counted(quad, t[i], pads)))
      && Symbols(t[..i + 1]) % 4 == if ValueOf(t[i]).Some? then (quad + 1) % 4 else quad
  {
    OneMore(t, i);
    assert ValueOf('=').None?;
    hide Symbols, Pads, ValueOf;
  }

  ghost predicate ClosesLater(t: string, i: nat) {
    exists n :: i < n <= |t| && Closes(t[..n])
  }

  lemma {:induction false} LaterOrNow(t: string, i: nat)
    requires i < |t|
    ensures ClosesLater(t, i) <==> Closes(t[..i + 1]) || ClosesLater(t, i + 1)
  {
    hide Closes;
    if n :| i < n <= |t| && Closes(t[..n]) {
      assert n == i + 1 || i + 1 < n;
    }
    if n :| i + 1 < n <= |t| && Closes(t[..n]) {
      assert i < n;
    }
  }

  /** The scanner, having read a prefix without stopping, accepts exactly the readable continuations. */
  lemma {:induction false} ScanAccepts(t: string, i: nat, pads: nat, left: nat)
    requires i <= |t| && Tracks(t, i, pads)
    ensures Scan(t[i..], Symbols(t[..i]) % 4, pads, left).Some? <==> (Symbols(t) % 4 == 0 || ClosesLater(t, i))
    decreases |t| - i
  {
    if i == |t| {
      assert t[..i] == t;
    } else {
      var quad := Symbols(t[..i]) % 4;
      assert t[i..] == [t[i]] + t[i + 1..];
      TrackOneMore(t, i, pads);
      LaterOrNow(t, i);
      hide *;
      var next := ScanOneMore(t[i], t[i + 1..], quad, pads, left);
      if !Closes(t[..i + 1]) {
        ScanAccepts(t, i + 1, Counted(quad, t[i], pads), next);
      }
    }
  }

  /** The decoder refuses exactly what is not ASCII and what is unreadable once its padding is restored. */
  lemma {:induction false} RefusedExactly(t: string)
    ensures Decode(t).None? <==> !IsAscii(t) || !Readable(t + Padding((-|t|) % 4))
  {
    var padded := t + Padding((-|t|) % 4);
    assert padded[0..] == padded && padded[..0] == "";
    ScanAccepts(padded, 0, 0, 0);
    assert ClosesLater(padded, 0) ==> exists n :: 0 <= n <= |padded| && Closes(padded[..n]);
    if n :| 0 <= n <= |padded| && Closes(padded[..n]) {
      assert n != 0;
    }
  }

  /** A text of symbols only is refused exactly when its length is one more than a multiple of four. */
  lemma {:induction false} PlainTextRefusedExactly(t: string)
    requires forall i :: 0 <= i < |t| ==> ValueOf(t[i]).Some?
    ensures Decode(t).None? <==> |t| % 4 == 1
  {
    RefusedExactly(t);
    PlainPrefix(t, (-|t|) % 4);
  }

  lemma {:induction false} PlainSymbols(t: string)
    requires forall i :: 0 <= i < |t| ==> ValueOf(t[i]).Some?
    ensures Symbols(t) == |t| && Pads(t) == 0
  {
    if t != "" {
      PlainSymbols(t[..|t| - 1]);
    }
  }

  lemma {:induction false} PaddedCounts(t: string, n: nat)
    requires forall i :: 0 <= i < |t| ==> ValueOf(t[i]).Some?
    ensures Symbols(t + Padding(n)) == |t| && Pads(t + Padding(n)) == n && |Padding(n)| == n
  {
    if n == 0 {
      PlainSymbols(t);
      assert t + Padding(0) == t;
    } else {
      PaddedCounts(t, n - 1);
      PaddingSnoc(n - 1);
      assert t + Padding(n) == (t + Padding(n - 1)) + ['='];
      hide *;
      PadAtEnd(t + Padding(n - 1));
    }
  }

  lemma {:induction false} PadAtEnd(t: string)
    ensures Symbols(t + ['=']) == Symbols(t) && Pads(t + ['=']) == Pads(t) + 1
  {
    var u := t + ['='];
    assert u[..|u| - 1] == t && u[|u| - 1] == '=';
  }

  lemma {:induction false} PlainPrefix(t: string, n: nat)
    requires forall i :: 0 <= i < |t| ==> ValueOf(t[i]).Some?
    requires n == (-|t|) % 4
    ensures Readable(t + Padding(n)) <==> |t| % 4 != 1
  {
    var u := t + Padding(n);
    PaddedCounts(t, n);
    assert u[..|u|] == u;
    if |t| % 4 == 1 {
      forall m | 0 <= m <= |u| ensures !Closes(u[..m]) {
        if m <= |t| {
          assert u[..m] == t[..m];
          PlainSymbols(t[..m]);
        } else {
          PaddingPrefix(n, m - |t|);
          assert u[..m] == t + Padding(m - |t|);
          PaddedCounts(t, m - |t|);
        }
      }
    } else {
      assert |t| % 4 == 0 || Closes(u);
    }
  }

  lemma {:induction false} PaddingPrefix(n: nat, m: nat)
    requires m <= n
    ensures |Padding(n)| == n && Padding(n)[..m] == Padding(m)
  {
    if n > 0 {
      PaddingPrefix(n - 1, if m == 0 then 0 else m - 1);
      if m > 0 {
        assert Padding(n)[..m] == ['='] + Padding(n - 1)[..m - 1];
      }
    }
  }

  /** Padding, a character outside the alphabet, and whatever follows the padding make no difference. */
  lemma {:induction false} TwoSymbolTexts(a: char, b: char, v: Sextet, w: Sextet)
    requires ValueOf(a) == Some(v) && ValueOf(b) == Some(w)
    ensures Decode([a, b]) == Some([v * 4 + w / 16])
    ensures Decode([a, b, '=', '=']) == Some([v * 4 + w / 16])
    ensures Decode(['!', a, b, '=', '=', 'x', 'y', 'z']) == Some([v * 4 + w / 16])
  {
    var padded, more := [a, b, '=', '='], [a, b, '=', '=', 'x', 'y', 'z'];
    assert Padding(0) == "" && Padding(1) == ['='] && Padding(2) == ['='] + Padding(1);
    assert [a, b] + Padding(2) == padded && padded + Padding(0) == padded;
    assert (['!'] + more) + Padding(0) == ['!'] + more && (['!'] + more)[1..] == more;
    assert ['!', a, b, '=', '=', 'x', 'y', 'z'] == ['!'] + more;
    assert Scan(['!'] + more, 0, 0, 0) == Scan(more, 0, 0, 0);
    ScanText(padded, v, w);
    ScanText(more, v, w);
    hide Scan;
  }

  lemma {:induction false} ScanText(t: string, v: Sextet, w: Sextet)
    requires |t| >= 4 && ValueOf(t[0]) == Some(v) && ValueOf(t[1]) == Some(w) && t[2] == '=' && t[3] == '='
    ensures Scan(t, 0, 0, 0) == Some([v * 4 + w / 16])
  {
    var t1, t2, t3 := t[1..], t[2..], t[3..];
    assert t1[1..] == t2 && t2[1..] == t3 && t1[0] == t[1] && t2[0] == '=' && t3[0] == '=';
    assert Scan(t3, 2, 1, w % 16) == Some([]);
    assert Scan(t2, 2, 0, w % 16) == Some([]);
    PrependLast(v * 4 + w / 16, 0);
  }

  lemma {:induction false} NotEncodings()
    ensures !IsEncoding("+A") && !IsEncoding("QQ==") && !IsEncoding("!QQ==xyz") && !IsEncoding("QR")
  {
    assert !UrlSafe("+A"[0]) && !UrlSafe("QQ=="[2]) && !UrlSafe("!QQ==xyz"[0]);
    assert ValueOf("QR"[1]) == Some(17);
  }

  /** Some texts that the decoder accepts although they are not encodings. */
  lemma {:induction false} LenientInputs()
    ensures Decode("+A") == Decode("-A") == Some([248]) && !IsEncoding("+A")
    ensures Decode("QQ==") == Decode("QQ") == Some([65]) && !IsEncoding("QQ==")
    ensures Decode("!QQ==xyz") == Decode("QQ") && !IsEncoding("!QQ==xyz")
    ensures Decode("QR") == Decode("QQ") && !IsEncoding("QR")
  {
    NotEncodings();
    assert ValueOf('Q') == Some(16) && ValueOf('R') == Some(17) && ValueOf('+') == ValueOf('-') == Some(62);
    assert ValueOf('A') == Some(0);
    hide *;
    TwoSymbolTexts('+', 'A', 62, 0);
    TwoSymbolTexts('-', 'A', 62, 0);
    TwoSymbolTexts('Q', 'Q', 16, 16);
    TwoSymbolTexts('Q', 'R', 16, 17);
  }
}
