/** UTF-8, for text made of Unicode scalar values. */
module Utf8 {
  import opened Options
  import opened Octets

  function EncodeChar(ch: char): Bytes {
    var v := ch as int;
    if v < 0x80 then [v]
    else if v < 0x800 then [0xC0 + v / 0x40, 0x80 + v % 0x40]
    else if v < 0x10000 then [0xE0 + v / 0x1000, 0x80 + v / 0x40 % 0x40, 0x80 + v % 0x40]
    else [0xF0 + v / 0x40000, 0x80 + v / 0x1000 % 0x40, 0x80 + v / 0x40 % 0x40, 0x80 + v % 0x40]
  }

  function Encode(text: string): Bytes {
    if text == "" then [] else EncodeChar(text[0]) + Encode(text[1..])
  }

  predicate IsScalar(v: int) {
    0 <= v < 0xD800 || 0xE000 <= v < 0x110000
  }

  /** The code point at the front and the number of bytes it takes; overlong forms are refused. */
  function Front(raw: Bytes): Option<(int, nat)>
    requires raw != []
  {
    var b := raw[0];
    if b < 0x80 then Some((b, 1))
    else if 0xC0 <= b < 0xE0 && |raw| >= 2 then
      var v := (b - 0xC0) * 0x40 + Tail(raw[1]);
      if IsTail(raw[1]) && v >= 0x80 then Some((v, 2)) else None
    else if 0xE0 <= b < 0xF0 && |raw| >= 3 then
      var v := (b - 0xE0) * 0x1000 + Tail(raw[1]) * 0x40 + Tail(raw[2]);
      if IsTail(raw[1]) && IsTail(raw[2]) && v >= 0x800 then Some((v, 3)) else None
    else if 0xF0 <= b < 0xF8 && |raw| >= 4 then
      var v := (b - 0xF0) * 0x40000 + Tail(raw[1]) * 0x1000 + Tail(raw[2]) * 0x40 + Tail(raw[3]);
      if IsTail(raw[1]) && IsTail(raw[2]) && IsTail(raw[3]) && v >= 0x10000 then Some((v, 4)) else None
    else None
  }

  predicate IsTail(b: Byte) {
    0x80 <= b < 0xC0
  }

  function Tail(b: Byte): int {
    b - 0x80
  }

  function Decode(raw: Bytes): Option<string>
    decreases |raw|
  {
    if raw == [] then Some("")
    else
      match Front(raw)
      case None => None
      case Some((v, n)) =>
        if !IsScalar(v) || |raw| < n || n == 0 then None
        else
          match Decode(raw[n..])
          case None => None
          case Some(rest) => Some([v as char] + rest)
  }

  /** The digits of a code point in base 64 put it together again. */
  lemma {:induction false} Recombine(v: int)
    requires 0 <= v < 0x110000
    ensures v / 0x40 * 0x40 + v % 0x40 == v
    ensures v / 0x1000 * 0x40 + v / 0x40 % 0x40 == v / 0x40
    ensures v / 0x40000 * 0x40 + v / 0x1000 % 0x40 == v / 0x1000
  {
  }

  lemma {:induction false} FrontOfThree(v: int, rest: Bytes)
    requires 0x800 <= v < 0x10000
    ensures Front([0xE0 + v / 0x1000, 0x80 + v / 0x40 % 0x40, 0x80 + v % 0x40] + rest) == Some((v, 3))
  {
    Recombine(v);
  }

  lemma {:induction false} FrontOfFour(v: int, rest: Bytes)
    requires 0x10000 <= v < 0x110000
    ensures Front([0xF0 + v / 0x40000, 0x80 + v / 0x1000 % 0x40, 0x80 + v / 0x40 % 0x40, 0x80 + v % 0x40] + rest)
      == Some((v, 4))
  {
    Recombine(v);
  }

  lemma {:induction false} FrontOfEncoded(ch: char, rest: Bytes)
    ensures Front(EncodeChar(ch) + rest) == Some((ch as int, |EncodeChar(ch)|))
  {
    var v := ch as int;
    if v >= 0x10000 {
      FrontOfFour(v, rest);
    } else if v >= 0x800 {
      FrontOfThree(v, rest);
    }
  }

  lemma {:induction false} RoundTrip(text: string)
    ensures Decode(Encode(text)) == Some(text)
  {
    if text != "" {
      var ch, rest := text[0], Encode(text[1..]);
      RoundTrip(text[1..]);
      FrontOfEncoded(ch, rest);
      assert (EncodeChar(ch) + rest)[|EncodeChar(ch)|..] == rest;
      assert text == [ch] + text[1..];
    }
  }

  lemma {:induction false} EncodeInjective(a: string, b: string)
    requires Encode(a) == Encode(b)
    ensures a == b
  {
    RoundTrip(a);
    RoundTrip(b);
  }
}

/** Compact JSON text: strings, integers, arrays and objects, with a parser that inverts it. */
module Json {
  import opened Options

  datatype Value =
    | Str(text: string)
    | Num(number: int)
    | Arr(items: seq<Value>)
    | Obj(members: seq<Member>)

  datatype Member = Member(key: string, value: Value)

  // --- Writing ---

  function HexDigit(v: int): char
    requires 0 <= v < 16
  {
    if v < 10 then ('0' as int + v) as char else ('a' as int + v - 10) as char
  }

  /** String escapes (section 7 of RFC 8259); everything else stands for itself. */
  function Escape(ch: char): string {
    if ch == '"' then ['\\', '"']
    else if ch == '\\' then ['\\', '\\']
    else if ch == '\n' then ['\\', 'n']
    else if ch == '\r' then ['\\', 'r']
    else if ch == '\t' then ['\\', 't']
    else if ch as int == 8 then ['\\', 'b']
    else if ch as int == 12 then ['\\', 'f']
    else if ch as int < 0x20 then ['\\', 'u', '0', '0', HexDigit(ch as int / 16), HexDigit(ch as int % 16)]
    else [ch]
  }

  function EscapeAll(text: string): string {
    if text == "" then "" else Escape(text[0]) + EscapeAll(text[1..])
  }

  function Quote(text: string): string {
    ['"'] + (EscapeAll(text) + ['"'])
  }

  function NatText(n: nat): string {
    if n < 10 then [('0' as int + n) as char] else NatText(n / 10) + [('0' as int + n % 10) as char]
  }

  function IntText(n: int): string {
    if n < 0 then ['-'] + NatText(-n) else NatText(n)
  }

  function Render(v: Value): string
    decreases v
  {
    match v
    case Str(text) => Quote(text)
    case Num(n) => IntText(n)
    case Arr(items) => ['['] + (if items == [] then [']'] else Render(items[0]) + RenderItems(items[1..]))
    case Obj(members) =>
      ['{'] + (if members == [] then ['}'] else RenderMember(members[0]) + RenderMembers(members[1..]))
  }

  function RenderItems(items: seq<Value>): string
    decreases items
  {
    if items == [] then [']'] else [','] + (Render(items[0]) + RenderItems(items[1..]))
  }

  function RenderMember(m: Member): string
    decreases m
  {
    Quote(m.key) + ([':'] + Render(m.value))
  }

  function RenderMembers(members: seq<Member>): string
    decreases members
  {
    if members == [] then ['}'] else [','] + (RenderMember(members[0]) + RenderMembers(members[1..]))
  }

  // --- Reading ---

  function HexValue(ch: char): Option<int> {
    if '0' <= ch <= '9' then Some(ch as int - '0' as int)
    else if 'a' <= ch <= 'f' then Some(ch as int - 'a' as int + 10)
    else if 'A' <= ch <= 'F' then Some(ch as int - 'A' as int + 10)
    else None
  }

  /** The character a \u escape stands for; surrogates are not characters. */
  function UnicodeEscape(a: char, b: char, c: char, d: char): Option<char> {
    match (HexValue(a), HexValue(b), HexValue(c), HexValue(d))
    case (Some(w), Some(x), Some(y), Some(z)) =>
      var v := w * 4096 + x * 256 + y * 16 + z;
      if 0 <= v < 0xD800 || 0xE000 <= v < 0x10000 then Some(v as char) else None
    case _ => None
  }

  /** One possibly escaped character of a string and what follows it. */
  function ReadChar(t: string): Option<(char, string)>
    ensures ReadChar(t).Some? ==> |ReadChar(t).value.1| < |t|
  {
    if t == "" || t[0] as int < 0x20 || t[0] == '"' then None
    else if t[0] != '\\' then Some((t[0], t[1..]))
    else if |t| < 2 then None
    else if t[1] == '"' || t[1] == '\\' || t[1] == '/' then Some((t[1], t[2..]))
    else if t[1] == 'n' then Some(('\n', t[2..]))
    else if t[1] == 'r' then Some(('\r', t[2..]))
    else if t[1] == 't' then Some(('\t', t[2..]))
    else if t[1] == 'b' then Some((8 as char, t[2..]))
    else if t[1] == 'f' then Some((12 as char, t[2..]))
    else if t[1] == 'u' && |t| >= 6 then
      match UnicodeEscape(t[2], t[3], t[4], t[5])
      case None => None
      case Some(ch) => Some((ch, t[6..]))
    else None
  }

  /** The rest of a string after its opening quote. */
  function ReadChars(t: string): Option<(string, string)>
    ensures ReadChars(t).Some? ==> |ReadChars(t).value.1| < |t|
    decreases |t|
  {
    if t != "" && t[0] == '"' then Some(("", t[1..]))
    else
      match ReadChar(t)
      case None => None
      case Some((ch, rest)) =>
        match ReadChars(rest)
        case None => None
        case Some((text, tail)) => Some(([ch] + text, tail))
  }

  predicate IsDigit(ch: char) {
    '0' <= ch <= '9'
  }

  predicate StartsWithDigit(t: string) {
    t != "" && IsDigit(t[0])
  }

  function ReadDigits(t: string, acc: nat): (r: (nat, string))
    ensures |r.1| <= |t| && (StartsWithDigit(t) ==> |r.1| < |t|)
    decreases |t|
  {
    if StartsWithDigit(t) then ReadDigits(t[1..], acc * 10 + (t[0] as int - '0' as int)) else (acc, t)
  }

  /** A run of digits without superfluous leading zeros. */
  function ReadNat(t: string): Option<(nat, string)>
    ensures ReadNat(t).Some? ==> |ReadNat(t).value.1| < |t|
  {
    if !StartsWithDigit(t) then None
    else
      var (n, rest) := ReadDigits(t, 0);
      if t[..|t| - |rest|] == NatText(n) then Some((n, rest)) else None
  }

  function ReadInt(t: string): Option<(int, string)>
    ensures ReadInt(t).Some? ==> |ReadInt(t).value.1| < |t|
  {
    if t != "" && t[0] == '-' then
      match ReadNat(t[1..])
      case None => None
      case Some((n, rest)) => Some((0 - n as int, rest))
    else
      match ReadNat(t)
      case None => None
      case Some((n, rest)) => Some((n, rest))
  }

  function Read(t: string): Option<(Value, string)>
    ensures Read(t).Some? ==> |Read(t).value.1| < |t|
    decreases |t|, 0
  {
    if t == "" then None
    else if t[0] == '"' then
      match ReadChars(t[1..])
      case None => None
      case Some((text, rest)) => Some((Str(text), rest))
    else if t[0] == '[' then
      if |t| > 1 && t[1] == ']' then Some((Arr([]), t[2..]))
      else
        match Read(t[1..])
        case None => None
        case Some((v, rest)) =>
          match ReadItems(rest)
          case None => None
          case Some((vs, tail)) => Some((Arr([v] + vs), tail))
    else if t[0] == '{' then
      if |t| > 1 && t[1] == '}' then Some((Obj([]), t[2..]))
      else
        match ReadMember(t[1..])
        case None => None
        case Some((m, rest)) =>
          match ReadMembers(rest)
          case None => None
          case Some((ms, tail)) => Some((Obj([m] + ms), tail))
    else
      match ReadInt(t)
      case None => None
      case Some((n, rest)) => Some((Num(n), rest))
  }

  function ReadItems(t: string): Option<(seq<Value>, string)>
    ensures ReadItems(t).Some? ==> |ReadItems(t).value.1| < |t|
    decreases |t|, 0
  {
    if t == "" then None
    else if t[0] == ']' then Some(([], t[1..]))
    else if t[0] != ',' then None
    else
      match Read(t[1..])
      case None => None
      case Some((v, rest)) =>
        match ReadItems(rest)
        case None => None
        case Some((vs, tail)) => Some(([v] + vs, tail))
  }

  function ReadMember(t: string): Option<(Member, string)>
    ensures ReadMember(t).Some? ==> |ReadMember(t).value.1| < |t|
    decreases |t|, 0
  {
    if t == "" || t[0] != '"' then None
    else
      match ReadChars(t[1..])
      case None => None
      case Some((key, rest)) =>
        if rest == "" || rest[0] != ':' then None
        else
          match Read(rest[1..])
          case None => None
          case Some((v, tail)) => Some((Member(key, v), tail))
  }

  function ReadMembers(t: string): Option<(seq<Member>, string)>
    ensures ReadMembers(t).Some? ==> |ReadMembers(t).value.1| < |t|
    decreases |t|, 0
  {
    if t == "" then None
    else if t[0] == '}' then Some(([], t[1..]))
    else if t[0] != ',' then None
    else
      match ReadMember(t[1..])
      case None => None
      case Some((m, rest)) =>
        match ReadMembers(rest)
        case None => None
        case Some((ms, tail)) => Some(([m] + ms, tail))
  }

  /** A whole document. */
  function Parse(t: string): Option<Value> {
    match Read(t)
    case Some((v, "")) => Some(v)
    case _ => None
  }

  // --- The parser inverts the writer ---

  lemma {:induction false} ReadEscaped(ch: char, rest: string)
    ensures ReadChar(Escape(ch) + rest) == Some((ch, rest)) && Escape(ch) != "" && Escape(ch)[0] != '"'
  {
    if ch as int < 0x20 && Escape(ch)[1] == 'u' {
      assert UnicodeEscape('0', '0', HexDigit(ch as int / 16), HexDigit(ch as int % 16)) == Some(ch);
      assert (Escape(ch) + rest)[6..] == rest;
    } else if |Escape(ch)| == 2 {
      assert (Escape(ch) + rest)[2..] == rest;
    } else {
      assert (Escape(ch) + rest)[1..] == rest;
    }
  }

  lemma {:induction false} Assoc(a: string, b: string, c: string)
    ensures (a + b) + c == a + (b + c)
  {
  }

  lemma {:induction false} CharsStep(t: string, ch: char, more: string, text: string, rest: string)
    requires t != "" && t[0] != '"' && ReadChar(t) == Some((ch, more)) && ReadChars(more) == Some((text, rest))
    ensures ReadChars(t) == Some(([ch] + text, rest))
  {
    hide ReadChar;
  }

  lemma {:induction false} ReadQuoted(text: string, rest: string)
    ensures ReadChars(EscapeAll(text) + (['"'] + rest)) == Some((text, rest))
    decreases |text|
  {
    if text == "" {
      assert EscapeAll(text) + (['"'] + rest) == ['"'] + rest;
      assert (['"'] + rest)[1..] == rest;
    } else {
      var more := EscapeAll(text[1..]) + (['"'] + rest);
      ReadQuoted(text[1..], rest);
      ReadEscaped(text[0], more);
      Assoc(Escape(text[0]), EscapeAll(text[1..]), ['"'] + rest);
      assert EscapeAll(text) + (['"'] + rest) == Escape(text[0]) + more;
      assert text == [text[0]] + text[1..];
      assert (Escape(text[0]) + more)[0] == Escape(text[0])[0];
      hide *;
      CharsStep(Escape(text[0]) + more, text[0], more, text[1..], rest);
    }
  }

  lemma {:induction false} NatTextIsDigits(n: nat)
    ensures NatText(n) != "" && forall i :: 0 <= i < |NatText(n)| ==> IsDigit(NatText(n)[i])
  {
    if n >= 10 {
      NatTextIsDigits(n / 10);
    }
  }

  lemma {:induction false} ReadNatText(n: nat, rest: string)
    ensures ReadDigits(NatText(n) + rest, 0) == ReadDigits(rest, n)
  {
    if n >= 10 {
      var d := [('0' as int + n % 10) as char];
      ReadNatText(n / 10, d + rest);
      assert NatText(n) + rest == NatText(n / 10) + (d + rest);
      assert (d + rest)[1..] == rest;
    } else {
      assert (NatText(n) + rest)[1..] == rest;
    }
  }

  lemma {:induction false} ReadNatWhole(n: nat, rest: string)
    requires !StartsWithDigit(rest)
    ensures ReadNat(NatText(n) + rest) == Some((n, rest))
  {
    var t := NatText(n) + rest;
    NatTextIsDigits(n);
    ReadNatText(n, rest);
    assert t[0] == NatText(n)[0];
    assert t[..|t| - |rest|] == NatText(n);
    hide NatText;
  }

  lemma {:induction false} ReadIntText(n: int, rest: string)
    requires !StartsWithDigit(rest)
    ensures ReadInt(IntText(n) + rest) == Some((n, rest))
    ensures IntText(n) != "" && (IsDigit(IntText(n)[0]) || IntText(n)[0] == '-')
  {
    hide ReadNat, NatText;
    var m := if n < 0 then -n else n;
    NatTextIsDigits(m);
    ReadNatWhole(m, rest);
    if n < 0 {
      assert (IntText(n) + rest)[1..] == NatText(m) + rest;
    } else {
      assert (IntText(n) + rest)[0] == NatText(m)[0];
    }
  }

  /** The first character of a rendered value is none of the closing or separating characters. */
  lemma {:induction false} RenderStart(v: Value)
    ensures Render(v) != "" && Render(v)[0] != ']' && Render(v)[0] != '}'
  {
    if v.Num? {
      ReadIntText(v.number, "");
    }
  }

  lemma {:induction false} ArrStep(u: string, v: Value, more: string, vs: seq<Value>, rest: string)
    requires u != "" && u[0] != ']'
    requires Read(u) == Some((v, more)) && ReadItems(more) == Some((vs, rest))
    ensures Read(['['] + u) == Some((Arr([v] + vs), rest))
  {
    var t := ['['] + u;
    assert t[1..] == u && t[0] == '[' && t[1] == u[0];
  }

  lemma {:induction false} ItemsStep(u: string, v: Value, more: string, vs: seq<Value>, rest: string)
    requires Read(u) == Some((v, more)) && ReadItems(more) == Some((vs, rest))
    ensures ReadItems([','] + u) == Some(([v] + vs, rest))
  {
    var t := [','] + u;
    assert t[1..] == u && t[0] == ',';
  }

  lemma {:induction false} ObjStep(u: string, m: Member, more: string, ms: seq<Member>, rest: string)
    requires u != "" && u[0] != '}'
    requires ReadMember(u) == Some((m, more)) && ReadMembers(more) == Some((ms, rest))
    ensures Read(['{'] + u) == Some((Obj([m] + ms), rest))
  {
    var t := ['{'] + u;
    assert t[1..] == u && t[0] == '{' && t[1] == u[0];
  }

  lemma {:induction false} MembersStep(u: string, m: Member, more: string, ms: seq<Member>, rest: string)
    requires ReadMember(u) == Some((m, more)) && ReadMembers(more) == Some((ms, rest))
    ensures ReadMembers([','] + u) == Some(([m] + ms, rest))
  {
    var t := [','] + u;
    assert t[1..] == u && t[0] == ',';
  }

  lemma {:induction false} QuotedStart(key: string, after: string)
    ensures Quote(key) + after == ['"'] + (EscapeAll(key) + (['"'] + after))
  {
    Assoc(['"'], EscapeAll(key) + ['"'], after);
    Assoc(EscapeAll(key), ['"'], after);
  }

  lemma {:induction false} MemberStep(key: string, v: Value, u: string, rest: string)
    requires Read(u) == Some((v, rest))
    ensures ReadMember(Quote(key) + ([':'] + u)) == Some((Member(key, v), rest))
  {
    hide Read, ReadChars, EscapeAll, Quote;
    var after := [':'] + u;
    ReadQuoted(key, after);
    QuotedStart(key, after);
    var t := ['"'] + (EscapeAll(key) + (['"'] + after));
    assert t[0] == '"' && t[1..] == EscapeAll(key) + (['"'] + after);
    assert after[0] == ':' && after[1..] == u;
  }

  lemma {:induction false} ReadOneMember(m: Member, rest: string)
    requires Read(Render(m.value) + rest) == Some((m.value, rest))
    ensures ReadMember(RenderMember(m) + rest) == Some((m, rest))
  {
    MemberStep(m.key, m.value, Render(m.value) + rest, rest);
    assert RenderMember(m) + rest == Quote(m.key) + ([':'] + (Render(m.value) + rest));
  }

  /** A list rendered between brackets, regrouped for reading from the left. */
  lemma {:induction false} Regroup(open: string, first: string, others: string, rest: string)
    ensures (open + (first + others)) + rest == open + (first + (others + rest))
  {
    Assoc(open, first + others, rest);
    Assoc(first, others, rest);
  }

  lemma {:induction false} RenderedArr(items: seq<Value>, rest: string)
    requires items != []
    ensures Render(Arr(items)) + rest == ['['] + (Render(items[0]) + (RenderItems(items[1..]) + rest))
  {
    assert Render(Arr(items)) == ['['] + (Render(items[0]) + RenderItems(items[1..]));
    hide *;
    Regroup(['['], Render(items[0]), RenderItems(items[1..]), rest);
  }

  lemma {:induction false} RenderedItems(items: seq<Value>, rest: string)
    requires items != []
    ensures RenderItems(items) + rest == [','] + (Render(items[0]) + (RenderItems(items[1..]) + rest))
  {
    assert RenderItems(items) == [','] + (Render(items[0]) + RenderItems(items[1..]));
    hide *;
    Regroup([','], Render(items[0]), RenderItems(items[1..]), rest);
  }

  lemma {:induction false} RenderedObj(members: seq<Member>, rest: string)
    requires members != []
    ensures Render(Obj(members)) + rest
      == ['{'] + (RenderMember(members[0]) + (RenderMembers(members[1..]) + rest))
  {
    assert Render(Obj(members)) == ['{'] + (RenderMember(members[0]) + RenderMembers(members[1..]));
    hide *;
    Regroup(['{'], RenderMember(members[0]), RenderMembers(members[1..]), rest);
  }

  lemma {:induction false} RenderedMembers(members: seq<Member>, rest: string)
    requires members != []
    ensures RenderMembers(members) + rest
      == [','] + (RenderMember(members[0]) + (RenderMembers(members[1..]) + rest))
  {
    assert RenderMembers(members) == [','] + (RenderMember(members[0]) + RenderMembers(members[1..]));
    hide *;
    Regroup([','], RenderMember(members[0]), RenderMembers(members[1..]), rest);
  }

  lemma {:induction false} ReadRenderedStr(text: string, rest: string)
    ensures Read(Render(Str(text)) + rest) == Some((Str(text), rest))
  {
    hide ReadChars, EscapeAll, Quote;
    var t := ['"'] + (EscapeAll(text) + (['"'] + rest));
    ReadQuoted(text, rest);
    QuotedStart(text, rest);
    assert Render(Str(text)) + rest == t;
    assert t[0] == '"' && t[1..] == EscapeAll(text) + (['"'] + rest);
  }

  lemma {:induction false} ReadRenderedNum(n: int, rest: string)
    requires !StartsWithDigit(rest)
    ensures Read(Render(Num(n)) + rest) == Some((Num(n), rest))
  {
    ReadIntText(n, rest);
    assert Render(Num(n)) == IntText(n) && (IntText(n) + rest)[0] == IntText(n)[0];
  }

  /** A rendered value is read back, whatever follows it. */
  lemma {:induction false} ReadRendered(v: Value, rest: string)
    requires !StartsWithDigit(rest)
    ensures Read(Render(v) + rest) == Some((v, rest))
    decreases v, 0
  {
    match v
    case Str(text) => ReadRenderedStr(text, rest);
    case Num(n) => ReadRenderedNum(n, rest);
    case Arr(items) => ReadRenderedArr(items, rest);
    case Obj(members) => ReadRenderedObj(members, rest);
  }

  lemma {:induction false} ReadRenderedArr(items: seq<Value>, rest: string)
    requires !StartsWithDigit(rest)
    ensures Read(Render(Arr(items)) + rest) == Some((Arr(items), rest))
    decreases items, 1
  {
    if items == [] {
      assert (Render(Arr(items)) + rest)[2..] == rest;
    } else {
      var more := RenderItems(items[1..]) + rest;
      ReadRenderedItems(items[1..], rest);
      ReadRendered(items[0], more);
      RenderStart(items[0]);
      RenderedArr(items, rest);
      assert items == [items[0]] + items[1..];
      ArrStep(Render(items[0]) + more, items[0], more, items[1..], rest);
    }
  }

  lemma {:induction false} ReadRenderedObj(members: seq<Member>, rest: string)
    requires !StartsWithDigit(rest)
    ensures Read(Render(Obj(members)) + rest) == Some((Obj(members), rest))
    decreases members, 1
  {
    if members == [] {
      assert (Render(Obj(members)) + rest)[2..] == rest;
    } else {
      var more := RenderMembers(members[1..]) + rest;
      ReadRenderedMembers(members[1..], rest);
      ReadRendered(members[0].value, more);
      ReadOneMember(members[0], more);
      RenderedObj(members, rest);
      assert members == [members[0]] + members[1..] && RenderMember(members[0])[0] == '"';
      ObjStep(RenderMember(members[0]) + more, members[0], more, members[1..], rest);
    }
  }

  lemma {:induction false} ReadRenderedItems(items: seq<Value>, rest: string)
    ensures ReadItems(RenderItems(items) + rest) == Some((items, rest))
    ensures !StartsWithDigit(RenderItems(items) + rest)
    decreases items, 0
  {
    if items == [] {
      assert (RenderItems(items) + rest)[1..] == rest;
    } else {
      var more := RenderItems(items[1..]) + rest;
      ReadRenderedItems(items[1..], rest);
      ReadRendered(items[0], more);
      RenderedItems(items, rest);
      assert items == [items[0]] + items[1..];
      ItemsStep(Render(items[0]) + more, items[0], more, items[1..], rest);
    }
  }

  lemma {:induction false} ReadRenderedMembers(members: seq<Member>, rest: string)
    ensures ReadMembers(RenderMembers(members) + rest) == Some((members, rest))
    ensures !StartsWithDigit(RenderMembers(members) + rest)
    decreases members, 0
  {
    if members == [] {
      assert (RenderMembers(members) + rest)[1..] == rest;
    } else {
      var more := RenderMembers(members[1..]) + rest;
      ReadRenderedMembers(members[1..], rest);
      ReadRendered(members[0].value, more);
      ReadOneMember(members[0], more);
      RenderedMembers(members, rest);
      assert members == [members[0]] + members[1..];
      MembersStep(RenderMember(members[0]) + more, members[0], more, members[1..], rest);
    }
  }

  /** Every document is read back as it was written. */
  lemma {:induction false} RoundTrip(v: Value)
    ensures Parse(Render(v)) == Some(v)
  {
    ReadRendered(v, "");
    assert Render(v) + "" == Render(v);
  }
}
