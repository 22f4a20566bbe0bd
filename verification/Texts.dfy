/**
  What the encodings look like, letter by letter: characters, numbers, escapes, base64url symbols, the
  order of keys, and the texts that are sealed, signed and sent.
*/
module Texts {
  import opened Options
  import opened Octets
  import opened Domain
  import opened Json
  import opened Canonical
  import opened Packets
  import opened Wire
  import Base64Url
  import Utf8

  // --- UTF-8 ---

  predicate IsTail(b: Byte) {
    0x80 <= b < 0xC0
  }

  function Six(b: Byte): int {
    b as int - 0x80
  }

  /** The bytes of one character: leading byte, continuation bytes, and the number they spell. */
  lemma {:induction false} CharBytesExactly(ch: char)
    ensures var v, b := ch as int, Utf8.EncodeChar(ch);
      && (v < 0x80 ==> b == [v])
      && (0x80 <= v < 0x800 ==>
            |b| == 2 && 0xC2 <= b[0] < 0xE0 && IsTail(b[1]) && v == (b[0] as int - 0xC0) * 64 + Six(b[1]))
      && (0x800 <= v < 0x10000 ==>
            |b| == 3 && 0xE0 <= b[0] < 0xF0 && IsTail(b[1]) && IsTail(b[2])
            && v == (b[0] as int - 0xE0) * 4096 + Six(b[1]) * 64 + Six(b[2]))
      && (0x10000 <= v ==>
            |b| == 4 && 0xF0 <= b[0] < 0xF5 && IsTail(b[1]) && IsTail(b[2]) && IsTail(b[3])
            && v == (b[0] as int - 0xF0) * 262144 + Six(b[1]) * 4096 + Six(b[2]) * 64 + Six(b[3]))
  {
    Utf8.Recombine(ch as int);
  }

  /** The bytes of a text are those of its characters, one after the other. */
  lemma {:induction false} TextBytes(a: string, b: string)
    ensures Utf8.Encode(a + b) == Utf8.Encode(a) + Utf8.Encode(b)
    ensures |a| == 1 ==> Utf8.Encode(a) == Utf8.EncodeChar(a[0])
  {
    if a == "" {
      assert a + b == b;
    } else {
      assert (a + b)[0] == a[0] && (a + b)[1..] == a[1..] + b;
      TextBytes(a[1..], b);
    }
  }

  /** What stands in front is the shortest encoding of its code point. */
  lemma {:induction false} FrontIsEncoded(raw: Bytes)
    requires raw != [] && Utf8.Front(raw).Some? && Utf8.IsScalar(Utf8.Front(raw).value.0)
    ensures var (v, n) := Utf8.Front(raw).value; 0 < n <= |raw| && raw[..n] == Utf8.EncodeChar(v as char)
  {
    var (v, n) := Utf8.Front(raw).value;
    if n == 1 {
      assert raw[..1] == [raw[0]];
    } else if n == 2 {
      assert raw[..2] == [raw[0], raw[1]];
      TwoDigits(raw[0] as int - 0xC0, Six(raw[1]));
    } else if n == 3 {
      assert raw[..3] == [raw[0], raw[1], raw[2]];
      ThreeDigits(raw[0] as int - 0xE0, Six(raw[1]), Six(raw[2]));
    } else {
      assert raw[..4] == [raw[0], raw[1], raw[2], raw[3]];
      FourDigits(raw[0] as int - 0xF0, Six(raw[1]), Six(raw[2]), Six(raw[3]));
    }
  }

  lemma {:induction false} TwoDigits(a: int, b: int)
    requires 0 <= a && 0 <= b < 64
    ensures var v := a * 64 + b; v / 64 == a && v % 64 == b
  {
  }

  lemma {:induction false} ThreeDigits(a: int, b: int, c: int)
    requires 0 <= a && 0 <= b < 64 && 0 <= c < 64
    ensures var v := a * 4096 + b * 64 + c; v / 4096 == a && v / 64 % 64 == b && v % 64 == c
  {
  }

  lemma {:induction false} FourDigits(a: int, b: int, c: int, d: int)
    requires 0 <= a && 0 <= b < 64 && 0 <= c < 64 && 0 <= d < 64
    ensures var v := a * 262144 + b * 4096 + c * 64 + d;
      v / 262144 == a && v / 4096 % 64 == b && v / 64 % 64 == c && v % 64 == d
  {
    var w := a * 4096 + b * 64 + c;
    var v := w * 64 + d;
    ThreeDigits(a, b, c);
    TwoDigits(w, d);
    assert v / 4096 == w / 64 && v / 262144 == w / 4096;
    assert w / 64 == a * 64 + b;
  }

  /** The decoder accepts exactly the encodings: no overlong forms, no surrogates, nothing cut short. */
  lemma {:induction false} DecodesExactly(raw: Bytes, text: string)
    ensures Utf8.Decode(raw) == Some(text) <==> Utf8.Encode(text) == raw
    decreases |raw|
  {
    if Utf8.Encode(text) == raw {
      Utf8.RoundTrip(text);
    }
    if Utf8.Decode(raw) == Some(text) && raw != [] {
      var (v, n) := Utf8.Front(raw).value;
      FrontIsEncoded(raw);
      DecodesExactly(raw[n..], text[1..]);
      assert raw == raw[..n] + raw[n..] && text[0] == v as char;
    }
  }

  // --- Strings and numbers in JSON ---

  predicate IsPlain(text: string) {
    forall i :: 0 <= i < |text| ==> text[i] as int >= 0x20 && text[i] != '"' && text[i] != '\\'
  }

  /** A text without control characters, quotes and backslashes stands for itself between quotes. */
  lemma {:induction false} PlainQuote(text: string)
    requires IsPlain(text)
    ensures Quote(text) == "\"" + text + "\""
  {
    PlainStands(text);
    assert ['"'] + (text + ['"']) == "\"" + text + "\"";
  }

  lemma {:induction false} PlainStands(text: string)
    requires IsPlain(text)
    ensures EscapeAll(text) == text
  {
    if text != "" {
      PlainStands(text[1..]);
      assert Escape(text[0]) == [text[0]];
      assert text == [text[0]] + text[1..];
    }
  }

  /** Every other character, by its code point. */
  lemma {:induction false} EscapesExactly()
    ensures Escape('"') == "\\\"" && Escape('\\') == "\\\\" && Escape('\n') == "\\n" && Escape('\r') == "\\r"
    ensures Escape('\t') == "\\t" && Escape(8 as char) == "\\b" && Escape(12 as char) == "\\f"
    ensures forall v: int :: 0 <= v < 0x20 && v != 8 && v != 9 && v != 10 && v != 12 && v != 13 ==>
      Escape(v as char) == "\\u00" + ["0123456789abcdef"[v / 16], "0123456789abcdef"[v % 16]]
  {
    forall v: int | 0 <= v < 0x20 && v != 8 && v != 9 && v != 10 && v != 12 && v != 13
      ensures Escape(v as char) == "\\u00" + ["0123456789abcdef"[v / 16], "0123456789abcdef"[v % 16]]
    {
      HexDigitExactly(v / 16);
      HexDigitExactly(v % 16);
    }
  }

  lemma {:induction false} HexDigitExactly(v: int)
    requires 0 <= v < 16
    ensures HexDigit(v) == "0123456789abcdef"[v]
  {
  }

  function Power(n: nat): (r: nat)
    ensures r > 0
  {
    if n == 0 then 1 else 10 * Power(n - 1)
  }

  /** Decimal notation has no more digits than it needs. */
  lemma {:induction false} LengthExactly(n: nat)
    ensures NatText(n) != "" && n < Power(|NatText(n)|) && (n >= 10 ==> Power(|NatText(n)| - 1) <= n)
    decreases n
  {
    if n < 10 {
      assert Power(1) == 10 * Power(0) && Power(0) == 1;
    } else {
      LengthExactly(n / 10);
      assert |NatText(n)| == |NatText(n / 10)| + 1;
      LengthBounds(n, |NatText(n / 10)|);
    }
  }

  /** The digit `i` places from the end is that of the i-th power of ten. */
  lemma {:induction false} DigitsExactly(n: nat, i: nat)
    requires i < |NatText(n)|
    ensures NatText(n)[|NatText(n)| - 1 - i] == "0123456789"[n / Power(i) % 10]
    decreases n
  {
    DigitExactly(n % 10);
    if i == 0 {
      assert Power(0) == 1;
    } else {
      assert NatText(n) == NatText(n / 10) + [('0' as int + n % 10) as char];
      DigitsExactly(n / 10, i - 1);
      assert Power(i) == 10 * Power(i - 1);
      DivideTwice(n, Power(i - 1));
      hide *;
    }
  }

  lemma {:induction false} DigitExactly(d: nat)
    requires d < 10
    ensures ('0' as int + d) as char == "0123456789"[d]
  {
  }

  lemma {:induction false} DivideTwice(n: nat, p: nat)
    requires p > 0
    ensures n / 10 / p == n / (10 * p)
  {
    var q := n / 10 / p;
    Quotient(n / 10, p);
    assert q * (10 * p) == 10 * (q * p) && (q + 1) * (10 * p) == 10 * ((q + 1) * p);
    hide *;
    QuotientIs(n, 10 * p, q);
  }

  lemma {:induction false} Quotient(n: nat, p: nat)
    requires p > 0
    ensures n / p * p <= n < (n / p + 1) * p
  {
    assert n == n / p * p + n % p;
  }

  lemma {:induction false} Ordered(x: int, y: int, p: nat)
    requires x <= y
    ensures x * p <= y * p
  {
  }

  lemma {:induction false} QuotientIs(n: nat, p: nat, q: nat)
    requires p > 0 && q * p <= n < (q + 1) * p
    ensures n / p == q
  {
    Quotient(n, p);
    if n / p < q {
      Ordered(n / p + 1, q, p);
    } else if q < n / p {
      Ordered(q + 1, n / p, p);
    }
  }

  lemma {:induction false} LengthBounds(n: nat, l: nat)
    requires n >= 10 && l > 0 && n / 10 < Power(l) && (n / 10 >= 10 ==> Power(l - 1) <= n / 10)
    requires n / 10 < 10 ==> l == 1
    ensures n < Power(l + 1) && Power(l) <= n
  {
    assert Power(l) == 10 * Power(l - 1);
  }

  lemma {:induction false} SignsExactly(n: int)
    ensures IntText(n) == if n < 0 then "-" + NatText(-n) else NatText(n)
  {
  }

  /** A string reader also takes an escaped slash, and hexadecimal digits of either case. */
  lemma {:induction false} OtherEscapes(rest: string)
    ensures ReadChar("\\/" + rest) == Some(('/', rest))
    ensures HexValue('0') == Some(0) && HexValue('9') == Some(9) && HexValue('a') == HexValue('A') == Some(10)
    ensures HexValue('f') == HexValue('F') == Some(15)
  {
    assert ("\\/" + rest)[2..] == rest;
  }

  /** A four-digit escape is the character of that number; surrogates are refused. */
  lemma {:induction false} HexEscapes(a: char, b: char, c: char, d: char, w: int, x: int, y: int, z: int)
    requires HexValue(a) == Some(w) && HexValue(b) == Some(x) && HexValue(c) == Some(y) && HexValue(d) == Some(z)
    ensures 0 <= w * 4096 + x * 256 + y * 16 + z < 0x10000
    ensures var v := w * 4096 + x * 256 + y * 16 + z;
      UnicodeEscape(a, b, c, d) == if 0xD800 <= v < 0xE000 then None else Some(v as char)
    ensures ReadChar(['\\', 'u', a, b, c, d]).None? <==> UnicodeEscape(a, b, c, d).None?
    ensures UnicodeEscape(a, b, c, d).Some? ==>
      ReadChar(['\\', 'u', a, b, c, d]) == Some((UnicodeEscape(a, b, c, d).value, ""))
  {
    HexRange(a);
    HexRange(b);
    HexRange(c);
    HexRange(d);
    assert ['\\', 'u', a, b, c, d][6..] == "";
    hide HexValue;
  }

  lemma {:induction false} HexRange(ch: char)
    ensures HexValue(ch).Some? ==> 0 <= HexValue(ch).value < 16
  {
  }

  /** A number is read only in the form it is written in: no leading zeros, no plus sign, no digit left over. */
  lemma {:induction false} NumbersExactly(t: string, n: nat, rest: string)
    ensures ReadNat(t) == Some((n, rest)) <==> t == NatText(n) + rest && !StartsWithDigit(rest)
  {
    if t == NatText(n) + rest && !StartsWithDigit(rest) {
      ReadNatWhole(n, rest);
    }
    if ReadNat(t) == Some((n, rest)) {
      DigitsRead(t, 0);
      assert t == t[..|t| - |rest|] + t[|t| - |rest|..];
    }
  }

  lemma {:induction false} DigitsRead(t: string, acc: nat)
    ensures var (n, rest) := ReadDigits(t, acc);
      |rest| <= |t| && t[|t| - |rest|..] == rest && !StartsWithDigit(rest)
    decreases |t|
  {
    if StartsWithDigit(t) {
      DigitsRead(t[1..], acc * 10 + (t[0] as int - '0' as int));
    }
  }

  // --- The order of keys ---

  /** `a` comes before `b`: a proper prefix, or a smaller code point where they first differ. */
  lemma {:induction false} BeforeExactly(a: string, b: string)
    ensures Before(a, b) <==>
      || (|a| < |b| && b[..|a|] == a)
      || exists i :: 0 <= i < |a| && i < |b| && a[..i] == b[..i] && a[i] < b[i]
    decreases |b|
  {
    if a != "" && b != "" {
      var at, bt := a[1..], b[1..];
      BeforeExactly(at, bt);
      assert a == [a[0]] + at && b == [b[0]] + bt;
      if a[0] == b[0] {
        assert |a| < |b| ==> b[..|a|] == [b[0]] + bt[..|at|];
        if i :| 0 <= i < |at| && i < |bt| && at[..i] == bt[..i] && at[i] < bt[i] {
          assert a[..i + 1] == [a[0]] + at[..i] && b[..i + 1] == [b[0]] + bt[..i];
          assert a[i + 1] < b[i + 1];
        }
        if i :| 0 <= i < |a| && i < |b| && a[..i] == b[..i] && a[i] < b[i] {
          assert i > 0;
          assert at[..i - 1] == a[..i][1..] && bt[..i - 1] == b[..i][1..];
          assert at[i - 1] < bt[i - 1];
        }
      } else {
        assert |a| < |b| ==> b[..|a|][0] == b[0];
        if a[0] < b[0] {
          assert a[..0] == b[..0];
        }
        forall i | 0 < i < |a| && i < |b| ensures a[..i] != b[..i] {
          assert a[..i][0] != b[..i][0];
        }
      }
    } else if b != "" {
      assert b[..|a|] == a;
    }
  }

  /** A mapping written with its keys already in order is written as it stands. */
  lemma {:induction false} AscendingStays(ms: seq<Member>)
    requires Ascending(ms)
    ensures DistinctKeys(ms) && Sort(ms) == ms
  {
    forall i, j | 0 <= i < j < |ms| ensures ms[i].key != ms[j].key {
      BeforeIsTotal(ms[i].key, ms[j].key);
    }
    SortSorts(ms);
    AscendingIsUnique(Sort(ms), ms);
  }

  /** The same members in ascending order are what sorting yields. */
  lemma {:induction false} SortedIs(ms: seq<Member>, sorted: seq<Member>)
    requires DistinctKeys(ms) && Ascending(sorted) && Items(ms) == Items(sorted)
    ensures Sort(ms) == sorted
  {
    SortSorts(ms);
    AscendingIsUnique(Sort(ms), sorted);
  }

  lemma {:induction false} ChainAscends(first: Member, rest: seq<Member>)
    requires Ascending(rest) && (rest != [] ==> Before(first.key, rest[0].key))
    ensures Ascending([first] + rest)
  {
    forall x | x in Items(rest) ensures Before(first.key, x.key) {
      BeforeAll(first.key, rest, x);
    }
    AscendingCons(first, rest);
  }

  /** Two lists with each other's members. */
  lemma {:induction false} SameItems(a: seq<Member>, b: seq<Member>, to: seq<nat>, fro: seq<nat>)
    requires |a| == |b| == |to| == |fro|
    requires forall i :: 0 <= i < |a| ==> to[i] < |b| && a[i] == b[to[i]]
    requires forall i :: 0 <= i < |b| ==> fro[i] < |a| && b[i] == a[fro[i]]
    ensures Items(a) == Items(b)
  {
    forall i | 0 <= i < |a| ensures a[i] in Items(b) {
      assert b[to[i]] == a[i];
    }
    forall i | 0 <= i < |b| ensures b[i] in Items(a) {
      assert a[fro[i]] == b[i];
    }
  }

  // --- Objects, member by member ---

  lemma {:induction false} FirstMember(m: Member, rest: seq<Member>, name: string)
    requires IsPlain(m.key) && name == "\"" + m.key + "\":"
    ensures Render(Obj([m] + rest)) == "{" + name + Render(m.value) + RenderMembers(rest)
  {
    var all := [m] + rest;
    PlainQuote(m.key);
    assert all[0] == m && all[1..] == rest;
    assert Render(Obj(all)) == ['{'] + (RenderMember(m) + RenderMembers(rest));
    assert RenderMember(m) == Quote(m.key) + ([':'] + Render(m.value));
    hide *;
    Nested("{", Quote(m.key), ":", Render(m.value), RenderMembers(rest));
    Assoc("{", Quote(m.key), ":");
    assert Quote(m.key) + ":" == name;
  }

  lemma {:induction false} Nested(a: string, b: string, c: string, d: string, e: string)
    ensures a + ((b + (c + d)) + e) == ((a + b) + c) + d + e
  {
    assert a + ((b + (c + d)) + e) == a + (b + (c + (d + e)));
    assert ((a + b) + c) + d + e == a + (b + (c + (d + e)));
  }

  lemma {:induction false} NextMember(sofar: string, m: Member, rest: seq<Member>, name: string)
    requires IsPlain(m.key) && name == ",\"" + m.key + "\":"
    ensures sofar + RenderMembers([m] + rest) == sofar + name + Render(m.value) + RenderMembers(rest)
  {
    var all := [m] + rest;
    PlainQuote(m.key);
    assert all[0] == m && all[1..] == rest;
    assert RenderMembers(all) == [','] + (RenderMember(m) + RenderMembers(rest));
    assert RenderMember(m) == Quote(m.key) + ([':'] + Render(m.value));
    hide *;
    Nested(",", Quote(m.key), ":", Render(m.value), RenderMembers(rest));
    assert (("," + Quote(m.key)) + ":") == name;
    Assoc(sofar, name + Render(m.value), RenderMembers(rest));
    Assoc(sofar, name, Render(m.value));
  }

  lemma {:induction false} LastMember(sofar: string)
    ensures sofar + RenderMembers([]) == sofar + "}"
  {
  }

  /** A name as it stands in an object, first or later. */
  predicate Names(name: string, key: string, first: bool) {
    IsPlain(key) && name == (if first then "\"" else ",\"") + key + "\":"
  }

  lemma {:induction false} FourMembers(
    m0: Member, m1: Member, m2: Member, m3: Member,
    n0: string, n1: string, n2: string, n3: string)
    requires Names(n0, m0.key, true) && Names(n1, m1.key, false) && Names(n2, m2.key, false)
    requires Names(n3, m3.key, false)
    ensures Render(Obj([m0] + ([m1] + ([m2] + ([m3] + [])))))
      == "{" + n0 + Render(m0.value) + n1 + Render(m1.value) + n2 + Render(m2.value)
         + n3 + Render(m3.value) + "}"
  {
    hide Render, RenderMembers, IsPlain;
    var r3: seq<Member> := [m3] + [];
    var r2 := [m2] + r3;
    var r1 := [m1] + r2;
    FirstMember(m0, r1, n0);
    var s0 := "{" + n0 + Render(m0.value);
    NextMember(s0, m1, r2, n1);
    var s1 := s0 + n1 + Render(m1.value);
    NextMember(s1, m2, r3, n2);
    var s2 := s1 + n2 + Render(m2.value);
    NextMember(s2, m3, [], n3);
    LastMember(s2 + n3 + Render(m3.value));
  }

  lemma {:induction false} SixMembers(
    m0: Member, m1: Member, m2: Member, m3: Member, m4: Member, m5: Member,
    n0: string, n1: string, n2: string, n3: string, n4: string, n5: string)
    requires Names(n0, m0.key, true) && Names(n1, m1.key, false) && Names(n2, m2.key, false)
    requires Names(n3, m3.key, false) && Names(n4, m4.key, false) && Names(n5, m5.key, false)
    ensures Render(Obj([m0] + ([m1] + ([m2] + ([m3] + ([m4] + ([m5] + [])))))))
      == "{" + n0 + Render(m0.value) + n1 + Render(m1.value) + n2 + Render(m2.value)
         + n3 + Render(m3.value) + n4 + Render(m4.value) + n5 + Render(m5.value) + "}"
  {
    hide Render, RenderMembers, IsPlain;
    var r5: seq<Member> := [m5] + [];
    var r4 := [m4] + r5;
    var r3 := [m3] + r4;
    var r2 := [m2] + r3;
    var r1 := [m1] + r2;
    FirstMember(m0, r1, n0);
    var s0 := "{" + n0 + Render(m0.value);
    NextMember(s0, m1, r2, n1);
    var s1 := s0 + n1 + Render(m1.value);
    NextMember(s1, m2, r3, n2);
    var s2 := s1 + n2 + Render(m2.value);
    NextMember(s2, m3, r4, n3);
    var s3 := s2 + n3 + Render(m3.value);
    NextMember(s3, m4, r5, n4);
    var s4 := s3 + n4 + Render(m4.value);
    NextMember(s4, m5, [], n5);
    LastMember(s4 + n5 + Render(m5.value));
  }

  lemma {:induction false} SevenMembers(
    m0: Member, m1: Member, m2: Member, m3: Member, m4: Member, m5: Member, m6: Member,
    n0: string, n1: string, n2: string, n3: string, n4: string, n5: string, n6: string)
    requires Names(n0, m0.key, true) && Names(n1, m1.key, false) && Names(n2, m2.key, false)
    requires Names(n3, m3.key, false) && Names(n4, m4.key, false) && Names(n5, m5.key, false)
    requires Names(n6, m6.key, false)
    ensures Render(Obj([m0] + ([m1] + ([m2] + ([m3] + ([m4] + ([m5] + ([m6] + []))))))))
      == "{" + n0 + Render(m0.value) + n1 + Render(m1.value) + n2 + Render(m2.value)
         + n3 + Render(m3.value) + n4 + Render(m4.value) + n5 + Render(m5.value)
         + n6 + Render(m6.value) + "}"
  {
    hide Render, RenderMembers, IsPlain;
    var r6: seq<Member> := [m6] + [];
    var r5 := [m5] + r6;
    var r4 := [m4] + r5;
    var r3 := [m3] + r4;
    var r2 := [m2] + r3;
    var r1 := [m1] + r2;
    FirstMember(m0, r1, n0);
    var s0 := "{" + n0 + Render(m0.value);
    NextMember(s0, m1, r2, n1);
    var s1 := s0 + n1 + Render(m1.value);
    NextMember(s1, m2, r3, n2);
    var s2 := s1 + n2 + Render(m2.value);
    NextMember(s2, m3, r4, n3);
    var s3 := s2 + n3 + Render(m3.value);
    NextMember(s3, m4, r5, n4);
    var s4 := s3 + n4 + Render(m4.value);
    NextMember(s4, m5, r6, n5);
    var s5 := s4 + n5 + Render(m5.value);
    NextMember(s5, m6, [], n6);
    LastMember(s5 + n6 + Render(m6.value));
  }

  // --- The texts of the protocol ---

  function Quoted(text: string): string {
    "\"" + text + "\""
  }

  lemma {:induction false} IdentifiersArePlain(text: string)
    requires IsIdentifier(text) || IsUuid(text) || IsCurrency(text)
    ensures IsPlain(text) && Quote(text) == Quoted(text)
  {
    assert IsPlain(text);
    PlainQuote(text);
  }

  /** A time is written with digits, perhaps after a minus sign. */
  lemma {:induction false} TimesArePlain(t: int)
    ensures IsPlain(TimeText(t)) && Quote(TimeText(t)) == Quoted(TimeText(t))
  {
    NatTextIsDigits(if t < 0 then -t else t);
    PlainQuote(TimeText(t));
  }

  lemma {:induction false} Base64IsPlain(raw: Bytes)
    ensures Render(B64(raw)) == Quoted(Base64Url.Encode(raw))
  {
    Base64Url.EncodeIsUnpadded(raw);
    UnpaddedIsPlain(raw);
    PlainQuote(Base64Url.Encode(raw));
  }

  lemma {:induction false} SymbolIsPlain(v: Base64Url.Sextet)
    ensures IsPlain([Base64Url.Symbol(v)])
  {
  }

  lemma {:induction false} UnpaddedIsPlain(raw: Bytes)
    ensures IsPlain(Base64Url.Unpadded(raw))
  {
    forall v: Base64Url.Sextet ensures IsPlain([Base64Url.Symbol(v)]) {
      SymbolIsPlain(v);
    }
    if |raw| > 2 {
      UnpaddedIsPlain(raw[3..]);
    }
    hide Base64Url.Symbol;
  }

  lemma {:induction false} AadOrder(p: PacketId, s: string)
    ensures Sort(AadMembers(p, s)) == AadMembers(p, s)
  {
    var ms := AadMembers(p, s);
    assert Before("packet_id", "sender_id");
    ChainAscends(ms[1], []);
    ChainAscends(ms[0], [ms[1]]);
    assert ms == [ms[0]] + [ms[1]];
    AscendingStays(ms);
  }

  lemma {:induction false} AadNames()
    ensures Names("\"packet_id\":", "packet_id", true) && Names(",\"sender_id\":", "sender_id", false)
    ensures "{" + "\"packet_id\":" == "{\"packet_id\":"
  {
  }

  lemma {:induction false} TwoMembers(a: Member, b: Member, first: string, name: string)
    requires Names(first, a.key, true) && Names(name, b.key, false)
    ensures Render(Obj([a, b])) == "{" + first + Render(a.value) + name + Render(b.value) + "}"
  {
    hide Render, RenderMembers, IsPlain;
    assert [a, b] == [a] + ([b] + []);
    FirstMember(a, [b] + [], first);
    NextMember("{" + first + Render(a.value), b, [], name);
    LastMember("{" + first + Render(a.value) + name + Render(b.value));
  }

  /** The additional data of any packet id and sender: two members, the packet id first. */
  lemma {:induction false} AadText(p: PacketId, s: string)
    ensures BuildAad(p, s) == Utf8.Encode("{\"packet_id\":" + Quote(p) + ",\"sender_id\":" + Quote(s) + "}")
  {
    var a, b := Member("packet_id", Str(p)), Member("sender_id", Str(s));
    AadOrder(p, s);
    AadNames();
    assert AadMembers(p, s) == [a, b] && Render(a.value) == Quote(p) && Render(b.value) == Quote(s);
    assert BuildAad(p, s) == Utf8.Encode(Render(Obj(Sort(AadMembers(p, s)))));
    hide *;
    TwoMembers(a, b, "\"packet_id\":", ",\"sender_id\":");
  }

  lemma {:induction false} Unquoted(a: string, x: string, b: string, left: string, right: string)
    requires a + "\"" == left && "\"" + b == right
    ensures a + Quoted(x) + b == left + x + right
  {
    assert a + ("\"" + x + "\"") + b == (a + "\"") + x + ("\"" + b);
  }

  /** For identifiers nothing is escaped. */
  lemma {:induction false} PlainAadText(p: PacketId, s: string)
    requires IsUuid(p) && IsIdentifier(s)
    ensures BuildAad(p, s)
      == Utf8.Encode("{\"packet_id\":\"" + p + "\",\"sender_id\":\"" + s + "\"}")
  {
    AadText(p, s);
    IdentifiersArePlain(p);
    IdentifiersArePlain(s);
    assert "{\"packet_id\":" + "\"" == "{\"packet_id\":\"" && "\"" + ",\"sender_id\":" == "\",\"sender_id\":";
    assert "\",\"sender_id\":" + "\"" == "\",\"sender_id\":\"" && "\"" + "}" == "\"}";
    hide *;
    Unquoted("{\"packet_id\":", p, ",\"sender_id\":", "{\"packet_id\":\"", "\",\"sender_id\":");
    var sofar := "{\"packet_id\":\"" + p;
    Unquoted(sofar + "\",\"sender_id\":", s, "}", sofar + "\",\"sender_id\":" + "\"", "\"}");
    Assoc(sofar, "\",\"sender_id\":", "\"");
  }

  /** The signed members in the order of their keys. */
  function SignedMembers(p: Packet): seq<Member> {
    [Member("aad", B64(p.envelope.aad))] + ([Member("ciphertext", B64(p.envelope.ciphertext))]
      + ([Member("created_at", Str(TimeText(p.createdAt)))] + ([Member("encrypted_key", B64(p.envelope.encryptedKey))]
      + ([Member("nonce", B64(p.envelope.nonce))] + ([Member("packet_id", Str(p.packetId))]
      + ([Member("sender_id", Str(p.senderId))] + []))))))
  }

  lemma {:induction false} KeyOrder()
    ensures Before("packet_id", "sender_id") && Before("nonce", "packet_id") && Before("encrypted_key", "nonce")
    ensures Before("created_at", "encrypted_key") && Before("ciphertext", "created_at") && Before("aad", "ciphertext")
  {
    SameFirstLetter();
  }

  lemma {:induction false} SignedAscend(p: Packet)
    ensures Ascending(SignedMembers(p))
  {
    var m := SigningMembers(p);
    KeyOrder();
    assert m[0].key == "packet_id" && m[1].key == "sender_id" && m[2].key == "created_at";
    assert m[3].key == "encrypted_key" && m[4].key == "nonce" && m[5].key == "ciphertext" && m[6].key == "aad";
    assert SignedMembers(p) == [m[6]] + ([m[5]] + ([m[2]] + ([m[3]] + ([m[4]] + ([m[0]] + ([m[1]] + []))))));
    hide Before, SigningMembers, SignedMembers, Ascending;
    var r1: seq<Member> := [m[1]] + [];
    var r0 := [m[0]] + r1;
    var r4 := [m[4]] + r0;
    var r3 := [m[3]] + r4;
    var r2 := [m[2]] + r3;
    var r5 := [m[5]] + r2;
    NothingAscends();
    ChainAscends(m[1], []);
    ChainAscends(m[0], r1);
    ChainAscends(m[4], r0);
    ChainAscends(m[3], r4);
    ChainAscends(m[2], r3);
    ChainAscends(m[5], r2);
    ChainAscends(m[6], r5);
  }

  lemma {:induction false} NothingAscends()
    ensures Ascending([])
  {
  }

  lemma {:induction false} SignedItems(p: Packet)
    ensures Items(SigningMembers(p)) == Items(SignedMembers(p))
  {
    hide B64, TimeText;
    SameItems(SigningMembers(p), SignedMembers(p), [5, 6, 2, 3, 4, 1, 0], [6, 5, 2, 3, 4, 0, 1]);
  }

  lemma {:induction false} SignedOrder(p: Packet)
    ensures Sort(SigningMembers(p)) == SignedMembers(p)
  {
    hide *;
    SigningKeysDiffer(p);
    SignedAscend(p);
    SignedItems(p);
    SortedIs(SigningMembers(p), SignedMembers(p));
  }

  lemma {:induction false} SameFirstLetter()
    ensures Before("ciphertext", "created_at")
  {
    BeforeExactly("ciphertext", "created_at");
    assert "ciphertext"[..1] == "created_at"[..1] && "ciphertext"[1] < "created_at"[1];
  }

  /** The signed text: seven members in the order of their keys. */
  function SignedText(p: Packet): string {
    "{\"aad\":" + Quoted(Base64Url.Encode(p.envelope.aad))
      + ",\"ciphertext\":" + Quoted(Base64Url.Encode(p.envelope.ciphertext))
      + ",\"created_at\":" + Quoted(TimeText(p.createdAt))
      + ",\"encrypted_key\":" + Quoted(Base64Url.Encode(p.envelope.encryptedKey))
      + ",\"nonce\":" + Quoted(Base64Url.Encode(p.envelope.nonce))
      + ",\"packet_id\":" + Quote(p.packetId) + ",\"sender_id\":" + Quote(p.senderId) + "}"
  }

  lemma {:induction false} SigningText(p: Packet)
    ensures SigningBytes(p) == Utf8.Encode(SignedText(p))
  {
    SignedOrder(p);
    Base64IsPlain(p.envelope.aad);
    Base64IsPlain(p.envelope.ciphertext);
    Base64IsPlain(p.envelope.encryptedKey);
    Base64IsPlain(p.envelope.nonce);
    TimesArePlain(p.createdAt);
    var m := SigningMembers(p);
    assert SignedMembers(p) == [m[6]] + ([m[5]] + ([m[2]] + ([m[3]] + ([m[4]] + ([m[0]] + ([m[1]] + []))))));
    assert Render(m[0].value) == Quote(p.packetId) && Render(m[1].value) == Quote(p.senderId);
    assert Render(m[2].value) == Quoted(TimeText(p.createdAt));
    SignedNames();
    LaterSignedNames();
    hide Render, Sort, Quoted, Quote, TimeText, B64, Names;
    SevenMembers(m[6], m[5], m[2], m[3], m[4], m[0], m[1], "\"aad\":", ",\"ciphertext\":", ",\"created_at\":",
      ",\"encrypted_key\":", ",\"nonce\":", ",\"packet_id\":", ",\"sender_id\":");
  }

  lemma {:induction false} SignedNames()
    ensures Names("\"aad\":", "aad", true) && Names(",\"ciphertext\":", "ciphertext", false)
    ensures Names(",\"created_at\":", "created_at", false) && "{" + "\"aad\":" == "{\"aad\":"
  {
  }

  lemma {:induction false} LaterSignedNames()
    ensures Names(",\"encrypted_key\":", "encrypted_key", false) && Names(",\"nonce\":", "nonce", false)
    ensures Names(",\"packet_id\":", "packet_id", false) && Names(",\"sender_id\":", "sender_id", false)
  {
  }

  /** What verifies is a signature over exactly that text, and the dedupe key is its digest with a prefix. */
  lemma {:induction false} SignatureAndKeyExactly(s: Suite, p: Packet)
    ensures Verifies(s, p) <==> s.verify(Utf8.Encode(SignedText(p)), p.signature)
    ensures IdempotencyKey(s, p) == "settle:" + s.digest(Utf8.Encode(SignedText(p)))
  {
    SigningText(p);
    hide SigningBytes, SignedText;
  }

  // --- The instruction ---

  function SortedInstruction(i: Instruction): seq<Member> {
    [Member("amount_minor", Num(i.amountMinor))] + ([Member("created_at", Str(TimeText(i.createdAt)))]
      + ([Member("currency", Str(i.currency))] + ([Member("packet_id", Str(i.packetId))]
      + ([Member("payee_id", Str(i.payeeId))] + ([Member("payer_id", Str(i.payerId))] + [])))))
  }

  lemma {:induction false} InstructionKeyOrder()
    ensures Before("payee_id", "payer_id") && Before("packet_id", "payee_id") && Before("currency", "packet_id")
    ensures Before("created_at", "currency") && Before("amount_minor", "created_at")
  {
    BeforeExactly("payee_id", "payer_id");
    assert "payee_id"[..4] == "payer_id"[..4] && "payee_id"[4] < "payer_id"[4];
    BeforeExactly("packet_id", "payee_id");
    assert "packet_id"[..2] == "payee_id"[..2] && "packet_id"[2] < "payee_id"[2];
    BeforeExactly("created_at", "currency");
    assert "created_at"[..1] == "currency"[..1] && "created_at"[1] < "currency"[1];
  }

  lemma {:induction false} InstructionAscends(i: Instruction)
    ensures Ascending(SortedInstruction(i))
  {
    var m := InstructionMembers(i);
    InstructionKeyOrder();
    assert m[0].key == "packet_id" && m[1].key == "payer_id" && m[2].key == "payee_id";
    assert m[3].key == "amount_minor" && m[4].key == "currency" && m[5].key == "created_at";
    assert SortedInstruction(i) == [m[3]] + ([m[5]] + ([m[4]] + ([m[0]] + ([m[2]] + ([m[1]] + [])))));
    hide Before, InstructionMembers, SortedInstruction, Ascending;
    var r1: seq<Member> := [m[1]] + [];
    var r2 := [m[2]] + r1;
    var r0 := [m[0]] + r2;
    var r4 := [m[4]] + r0;
    var r5 := [m[5]] + r4;
    NothingAscends();
    ChainAscends(m[1], []);
    ChainAscends(m[2], r1);
    ChainAscends(m[0], r2);
    ChainAscends(m[4], r0);
    ChainAscends(m[5], r4);
    ChainAscends(m[3], r5);
  }

  lemma {:induction false} InstructionItems(i: Instruction)
    ensures Items(InstructionMembers(i)) == Items(SortedInstruction(i))
  {
    hide TimeText;
    SameItems(InstructionMembers(i), SortedInstruction(i), [3, 5, 4, 0, 2, 1], [3, 5, 4, 0, 2, 1]);
  }

  lemma {:induction false} InstructionOrder(i: Instruction)
    ensures Sort(InstructionMembers(i)) == SortedInstruction(i)
  {
    hide *;
    InstructionKeysDiffer(i);
    InstructionAscends(i);
    InstructionItems(i);
    SortedIs(InstructionMembers(i), SortedInstruction(i));
  }

  lemma {:induction false} InstructionNames()
    ensures Names("\"amount_minor\":", "amount_minor", true) && Names(",\"created_at\":", "created_at", false)
    ensures Names(",\"currency\":", "currency", false) && "{" + "\"amount_minor\":" == "{\"amount_minor\":"
  {
  }

  lemma {:induction false} PartyNames()
    ensures Names(",\"packet_id\":", "packet_id", false) && Names(",\"payee_id\":", "payee_id", false)
    ensures Names(",\"payer_id\":", "payer_id", false)
  {
  }

  lemma {:induction false} InstructionValues(i: Instruction)
    requires ValidInstruction(i)
    ensures Quote(TimeText(i.createdAt)) == Quoted(TimeText(i.createdAt))
    ensures Quote(i.currency) == Quoted(i.currency) && Quote(i.packetId) == Quoted(i.packetId)
    ensures Quote(i.payeeId) == Quoted(i.payeeId) && Quote(i.payerId) == Quoted(i.payerId)
  {
    hide Quote, Quoted, IsUuid, IsIdentifier, IsCurrency, TimeText;
    TimesArePlain(i.createdAt);
    IdentifiersArePlain(i.currency);
    IdentifiersArePlain(i.packetId);
    IdentifiersArePlain(i.payeeId);
    IdentifiersArePlain(i.payerId);
  }

  /** The sealed text of a valid instruction. */
  lemma {:induction false} InstructionText(i: Instruction)
    requires ValidInstruction(i)
    ensures InstructionBytes(i) == Utf8.Encode(
      "{\"amount_minor\":" + IntText(i.amountMinor) + ",\"created_at\":" + Quoted(TimeText(i.createdAt))
      + ",\"currency\":" + Quoted(i.currency) + ",\"packet_id\":" + Quoted(i.packetId)
      + ",\"payee_id\":" + Quoted(i.payeeId) + ",\"payer_id\":" + Quoted(i.payerId) + "}")
  {
    hide ValidInstruction, TimeText, IntText, Quote, Quoted, Names, Sort, InstructionMembers, IsPlain;
    var amount, at := Member("amount_minor", Num(i.amountMinor)), Member("created_at", Str(TimeText(i.createdAt)));
    var currency, id := Member("currency", Str(i.currency)), Member("packet_id", Str(i.packetId));
    var payee, payer := Member("payee_id", Str(i.payeeId)), Member("payer_id", Str(i.payerId));
    InstructionOrder(i);
    InstructionValues(i);
    assert Render(amount.value) == IntText(i.amountMinor) && Render(at.value) == Quote(TimeText(i.createdAt));
    assert Render(currency.value) == Quote(i.currency) && Render(id.value) == Quote(i.packetId);
    assert Render(payee.value) == Quote(i.payeeId) && Render(payer.value) == Quote(i.payerId);
    assert InstructionBytes(i) == Utf8.Encode(Render(Obj(
      [amount] + ([at] + ([currency] + ([id] + ([payee] + ([payer] + []))))))));
    InstructionNames();
    PartyNames();
    hide *;
    SixMembers(amount, at, currency, id, payee, payer, "\"amount_minor\":", ",\"created_at\":", ",\"currency\":",
      ",\"packet_id\":", ",\"payee_id\":", ",\"payer_id\":");
  }

  // --- The packet on the wire ---

  lemma {:induction false} EnvelopeNames()
    ensures Names("\"encrypted_key\":", "encrypted_key", true) && Names(",\"nonce\":", "nonce", false)
    ensures "{" + "\"encrypted_key\":" == "{\"encrypted_key\":"
  {
  }

  lemma {:induction false} LaterEnvelopeNames()
    ensures Names(",\"ciphertext\":", "ciphertext", false) && Names(",\"aad\":", "aad", false)
  {
  }

  lemma {:induction false} EnvelopeText(e: Envelope)
    ensures Render(Obj(EnvelopeMembers(e)))
      == "{\"encrypted_key\":" + Quoted(Base64Url.Encode(e.encryptedKey))
         + ",\"nonce\":" + Quoted(Base64Url.Encode(e.nonce))
         + ",\"ciphertext\":" + Quoted(Base64Url.Encode(e.ciphertext))
         + ",\"aad\":" + Quoted(Base64Url.Encode(e.aad)) + "}"
  {
    var m := EnvelopeMembers(e);
    Base64IsPlain(e.encryptedKey);
    Base64IsPlain(e.nonce);
    Base64IsPlain(e.ciphertext);
    Base64IsPlain(e.aad);
    EnvelopeNames();
    LaterEnvelopeNames();
    assert m == [m[0]] + ([m[1]] + ([m[2]] + ([m[3]] + [])));
    hide Render, Quoted, B64, Names;
    FourMembers(m[0], m[1], m[2], m[3], "\"encrypted_key\":", ",\"nonce\":", ",\"ciphertext\":", ",\"aad\":");
  }

  lemma {:induction false} HopNames()
    ensures Names("\"node_id\":", "node_id", true) && Names(",\"received_at\":", "received_at", false)
    ensures "{" + "\"node_id\":" == "{\"node_id\":"
  {
  }

  lemma {:induction false} HopText(h: Hop)
    requires IsIdentifier(h.nodeId)
    ensures Render(Obj(HopMembers(h)))
      == "{\"node_id\":" + Quoted(h.nodeId) + ",\"received_at\":" + Quoted(TimeText(h.receivedAt)) + "}"
  {
    var m := HopMembers(h);
    IdentifiersArePlain(h.nodeId);
    TimesArePlain(h.receivedAt);
    HopNames();
    assert m == [m[0], m[1]];
    assert Render(m[0].value) == Quoted(h.nodeId) && Render(m[1].value) == Quoted(TimeText(h.receivedAt));
    hide Render, Quoted, Quote, TimeText, Names;
    TwoMembers(m[0], m[1], "\"node_id\":", ",\"received_at\":");
  }

  /** Items behind the first one, each after a comma. */
  function Following(items: seq<Value>): string {
    if items == [] then "" else "," + Render(items[0]) + Following(items[1..])
  }

  /** An array: its items between brackets, separated by commas. */
  lemma {:induction false} ArrayText(items: seq<Value>)
    ensures Render(Arr(items))
      == if items == [] then "[]" else "[" + Render(items[0]) + Following(items[1..]) + "]"
  {
    if items != [] {
      FollowingText(items[1..]);
      assert Render(Arr(items)) == ['['] + (Render(items[0]) + RenderItems(items[1..]));
      hide *;
      Assoc(['['], Render(items[0]), Following(items[1..]) + "]");
      Assoc(['['] + Render(items[0]), Following(items[1..]), "]");
    }
  }

  lemma {:induction false} FollowingText(items: seq<Value>)
    ensures RenderItems(items) == Following(items) + "]"
    decreases |items|
  {
    if items != [] {
      FollowingText(items[1..]);
      assert RenderItems(items) == [','] + (Render(items[0]) + RenderItems(items[1..]));
      assert Following(items) == [','] + Render(items[0]) + Following(items[1..]);
      hide *;
      Assoc([','], Render(items[0]), Following(items[1..]) + "]");
      Assoc([','] + Render(items[0]), Following(items[1..]), "]");
    }
  }

  lemma {:induction false} PacketNames()
    ensures Names("\"packet_id\":", "packet_id", true) && Names(",\"sender_id\":", "sender_id", false)
    ensures Names(",\"created_at\":", "created_at", false) && "{" + "\"packet_id\":" == "{\"packet_id\":"
  {
  }

  lemma {:induction false} LaterPacketNames()
    ensures Names(",\"envelope\":", "envelope", false) && Names(",\"signature\":", "signature", false)
    ensures Names(",\"hops\":", "hops", false)
  {
  }

  lemma {:induction false} PacketValues(p: Packet)
    requires ValidPacket(p)
    ensures Quote(p.packetId) == Quoted(p.packetId) && Quote(p.senderId) == Quoted(p.senderId)
    ensures Quote(TimeText(p.createdAt)) == Quoted(TimeText(p.createdAt))
    ensures Render(B64(p.signature)) == Quoted(Base64Url.Encode(p.signature))
  {
    hide Quote, Quoted, IsUuid, IsIdentifier, TimeText, B64;
    IdentifiersArePlain(p.packetId);
    IdentifiersArePlain(p.senderId);
    TimesArePlain(p.createdAt);
    Base64IsPlain(p.signature);
  }

  /** The message body of a valid packet; `EnvelopeText`, `ArrayText` and `HopText` say the rest. */
  lemma {:induction false} PacketText(p: Packet)
    requires ValidPacket(p)
    ensures Serialise(p) == Utf8.Encode(
      "{\"packet_id\":" + Quoted(p.packetId) + ",\"sender_id\":" + Quoted(p.senderId)
      + ",\"created_at\":" + Quoted(TimeText(p.createdAt))
      + ",\"envelope\":" + Render(Obj(EnvelopeMembers(p.envelope)))
      + ",\"signature\":" + Quoted(Base64Url.Encode(p.signature))
      + ",\"hops\":" + Render(Arr(HopValues(p.hops))) + "}")
  {
    hide ValidPacket, TimeText, Quote, Quoted, Names, IsPlain, EnvelopeMembers, HopValues, B64, Base64Url.Encode;
    var id, sender := Member("packet_id", Str(p.packetId)), Member("sender_id", Str(p.senderId));
    var at := Member("created_at", Str(TimeText(p.createdAt)));
    var env := Member("envelope", Obj(EnvelopeMembers(p.envelope)));
    var sig, hops := Member("signature", B64(p.signature)), Member("hops", Arr(HopValues(p.hops)));
    PacketValues(p);
    assert Render(id.value) == Quote(p.packetId) && Render(sender.value) == Quote(p.senderId);
    assert Render(at.value) == Quote(TimeText(p.createdAt));
    assert PacketMembers(p) == [id] + ([sender] + ([at] + ([env] + ([sig] + ([hops] + [])))));
    assert Serialise(p) == Utf8.Encode(Render(Obj(
      [id] + ([sender] + ([at] + ([env] + ([sig] + ([hops] + []))))))));
    PacketNames();
    LaterPacketNames();
    hide *;
    SixMembers(id, sender, at, env, sig, hops, "\"packet_id\":", ",\"sender_id\":", ",\"created_at\":",
      ",\"envelope\":", ",\"signature\":", ",\"hops\":");
  }

  lemma {:induction false} HopValuesAt(hops: seq<Hop>)
    ensures |HopValues(hops)| == |hops|
    ensures forall i :: 0 <= i < |hops| ==> HopValues(hops)[i] == Obj(HopMembers(hops[i]))
  {
    hide HopMembers;
    if hops != [] {
      HopValuesAt(hops[1..]);
    }
  }

  // --- base64url, symbol by symbol ---

  /** The alphabet: capitals, small letters and digits in their order, then the two URL-safe symbols. */
  lemma {:induction false} AlphabetExactly()
    ensures Base64Url.Symbol(0) == 'A' && Base64Url.Symbol(26) == 'a' && Base64Url.Symbol(52) == '0'
    ensures Base64Url.Symbol(62) == '-' && Base64Url.Symbol(63) == '_'
    ensures forall v :: 0 <= v < 61 && v != 25 && v != 51 ==>
      Base64Url.Symbol(v + 1) as int == Base64Url.Symbol(v) as int + 1
  {
  }

  /** The byte at a place, zero behind the end. */
  function ByteAt(raw: Bytes, j: nat): Byte {
    if j < |raw| then raw[j] else 0
  }

  /** The four sextets of a group of three bytes, most significant bits first. */
  function SextetOf(raw: Bytes, i: nat): Base64Url.Sextet {
    var j := i / 4 * 3;
    if i % 4 == 0 then ByteAt(raw, j) / 4
    else if i % 4 == 1 then ByteAt(raw, j) % 4 * 16 + ByteAt(raw, j + 1) / 16
    else if i % 4 == 2 then ByteAt(raw, j + 1) % 16 * 4 + ByteAt(raw, j + 2) / 64
    else ByteAt(raw, j + 2) % 64
  }

  /** Every symbol of an encoding is that of its sextet. */
  lemma {:induction false} EncodedSymbols(raw: Bytes, i: nat)
    requires i < |Base64Url.Encode(raw)|
    ensures Base64Url.Encode(raw)[i] == Base64Url.Symbol(SextetOf(raw, i))
  {
    Base64Url.EncodeIsUnpadded(raw);
    UnpaddedSymbolAt(raw, i);
  }

  lemma {:induction false} UnpaddedSymbolAt(raw: Bytes, i: nat)
    requires i < |Base64Url.Unpadded(raw)|
    ensures Base64Url.Unpadded(raw)[i] == Base64Url.Symbol(SextetOf(raw, i))
  {
    hide Base64Url.Symbol;
    if |raw| > 2 && i >= 4 {
      Base64Url.UnpaddedStep(raw);
      UnpaddedSymbolAt(raw[3..], i - 4);
      LaterSextet(raw, i);
    }
  }

  lemma {:induction false} LaterSextet(raw: Bytes, i: nat)
    requires |raw| > 2 && i >= 4
    ensures SextetOf(raw[3..], i - 4) == SextetOf(raw, i)
  {
    assert (i - 4) / 4 * 3 + 3 == i / 4 * 3 && (i - 4) % 4 == i % 4;
    assert forall j: nat :: ByteAt(raw[3..], j) == ByteAt(raw, j + 3);
    hide ByteAt;
  }

  // --- The validators ---

  /** Identifiers by code points: letters, digits, `-`, `.`, `:` and `_`, one to sixty-four of them. */
  lemma {:induction false} IdentifiersExactly(text: string)
    ensures IsIdentifier(text) <==>
      1 <= |text| <= 64 && forall i :: 0 <= i < |text| ==>
        var v := text[i] as int;
        48 <= v <= 57 || 65 <= v <= 90 || 97 <= v <= 122 || v == 45 || v == 46 || v == 58 || v == 95
  {
  }

  /** Which instructions are valid, limits included. */
  lemma {:induction false} ValidatorLimits(i: Instruction)
    ensures ValidInstruction(i) <==>
      && IsIdentifier(i.payerId) && IsIdentifier(i.payeeId) && i.payerId != i.payeeId && IsUuid(i.packetId)
      && 1 <= i.amountMinor <= 1000000000000
      && |i.currency| == 3 && forall j :: 0 <= j < 3 ==> 65 <= i.currency[j] as int <= 90
  {
  }
}
