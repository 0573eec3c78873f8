/** Unpadded base64url text of bytes and of integers, as published in key sets and read back from them:
    section 5 of RFC 4648, and Base64urlUInt of section 2 of RFC 7518. */
module Base64Url {
  import opened Content

  type Sextet = v: int | 0 <= v < 64

  /** The URL-safe alphabet. */
  function Symbol(v: Sextet): char {
    if v < 26 then ('A' as int + v) as char
    else if v < 52 then ('a' as int + v - 26) as char
    else if v < 62 then ('0' as int + v - 52) as char
    else if v == 62 then '-'
    else '_'
  }

  /** The value of a character in either alphabet, as the decoder translates the URL-safe one first. */
  function ValueOf(c: char): Option<Sextet> {
    if 'A' <= c <= 'Z' then Some(c as int - 'A' as int)
    else if 'a' <= c <= 'z' then Some(c as int - 'a' as int + 26)
    else if '0' <= c <= '9' then Some(c as int - '0' as int + 52)
    else if c == '-' || c == '+' then Some(62)
    else if c == '_' || c == '/' then Some(63)
    else None
  }

  /** A letter, a digit, `-` or `_`. */
  predicate IsUrlChar(c: char) { ValueOf(c).Some? && c != '+' && c != '/' }

  predicate IsUrlText(text: string) { forall i :: 0 <= i < |text| ==> IsUrlChar(text[i]) }

  lemma SymbolHasItsValue(v: Sextet)
    ensures ValueOf(Symbol(v)) == Some(v) && IsUrlChar(Symbol(v))
  {
  }

  // ---- Bytes to text ----

  function Group(x: Byte, y: Byte, z: Byte): (symbols: string)
    ensures |symbols| == 4
  {
    [Symbol(x / 4), Symbol(x % 4 * 16 + y / 16), Symbol(y % 16 * 4 + z / 64), Symbol(z % 64)]
  }

  /** The symbols of the one or two bytes left over. */
  function Tail(raw: Bytes): (symbols: string)
    requires |raw| < 3
    ensures |symbols| == if |raw| == 0 then 0 else |raw| + 1
  {
    if |raw| == 0 then ""
    else if |raw| == 1 then [Symbol(raw[0] / 4), Symbol(raw[0] % 4 * 16)]
    else [Symbol(raw[0] / 4), Symbol(raw[0] % 4 * 16 + raw[1] / 16), Symbol(raw[1] % 16 * 4)]
  }

  /** Three bytes become four symbols; the rest is padded to four with `=`. */
  function Padded(raw: Bytes): string {
    if |raw| < 3 then Tail(raw) + Pads((3 - |raw|) % 3)
    else Group(raw[0], raw[1], raw[2]) + Padded(raw[3..])
  }

  function Pads(n: nat): (pads: string)
    ensures |pads| == n
  {
    if n == 0 then "" else "=" + Pads(n - 1)
  }

  /** `rstrip("=")`. */
  function Stripped(text: string): string {
    if text != "" && text[|text| - 1] == '=' then Stripped(text[..|text| - 1]) else text
  }

  function Encoded(raw: Bytes): string { Stripped(Padded(raw)) }

  // ---- Text to bytes ----

  /** `-len(s) % 4`, with the remainder of Python, which is never negative here. */
  function PadCount(n: nat): (count: nat)
    ensures count < 4 && (n + count) % 4 == 0
  {
    (0 - n) % 4
  }

  predicate IsAscii(text: string) { forall i :: 0 <= i < |text| ==> text[i] as int < 128 }

  /** After `pos` symbols of a group, `left` has the bits that are not written yet. */
  predicate FitsGroup(pos: nat, left: nat) {
    left < if pos == 0 then 1 else if pos == 1 then 64 else if pos == 2 then 16 else 4
  }

  /** The lenient decoder: characters outside the alphabet are skipped, enough padding after two or three
      symbols of a group ends the text, and an unfinished group is an error. `pos` counts the symbols of
      the group so far, `left` holds the bits not yet written. */
  function DecodedFrom(text: string, pos: nat, left: nat, pads: nat): Option<Bytes>
    requires pos < 4
    requires FitsGroup(pos, left)
  {
    if text == "" then (if pos == 0 then Some([]) else None)
    else
      var rest := text[1..];
      if text[0] == '=' then
        if pos >= 2 && pos + pads + 1 >= 4 then Some([])
        else DecodedFrom(rest, pos, left, if pos >= 2 then pads + 1 else pads)
      else
        match ValueOf(text[0])
        case None => DecodedFrom(rest, pos, left, pads)
        case Some(v) =>
          if pos == 0 then DecodedFrom(rest, 1, v, 0)
          else if pos == 1 then Prepended(left * 4 + v / 16, DecodedFrom(rest, 2, v % 16, 0))
          else if pos == 2 then Prepended(left * 16 + v / 4, DecodedFrom(rest, 3, v % 4, 0))
          else Prepended(left * 64 + v, DecodedFrom(rest, 0, 0, 0))
  }

  function Prepended(b: Byte, rest: Option<Bytes>): Option<Bytes> {
    match rest
    case None => None
    case Some(bytes) => Some([b] + bytes)
  }

  /** None when the decoder raises. */
  function Decoded(text: string): Option<Bytes> {
    if IsAscii(text) then DecodedFrom(text + Pads(PadCount(|text|)), 0, 0, 0) else None
  }

  // ---- Integers ----

  function BitLength(n: nat): nat { if n == 0 then 0 else 1 + BitLength(n / 2) }

  function ByteCount(n: nat): nat { (BitLength(n) + 7) / 8 }

  /** `to_bytes(count, "big")`; None is the overflow error. */
  function ToBytes(n: nat, count: nat): (bytes: Option<Bytes>)
    ensures bytes.Some? ==> |bytes.value| == count
  {
    if count == 0 then (if n == 0 then Some([]) else None)
    else
      match ToBytes(n / 256, count - 1)
      case None => None
      case Some(high) => Some(high + [n % 256])
  }

  /** `from_bytes(bytes, "big")`. */
  function FromBytes(bytes: Bytes): nat {
    if bytes == [] then 0 else FromBytes(bytes[..|bytes| - 1]) * 256 + bytes[|bytes| - 1]
  }

  /** `b64url_uint`; None is the overflow error. */
  function EncodedInteger(n: nat): Option<string> {
    match ToBytes(n, ByteCount(n))
    case None => None
    case Some(bytes) => Some(Encoded(bytes))
  }

  function DecodedInteger(text: string): Option<nat> {
    match Decoded(text)
    case None => None
    case Some(bytes) => Some(FromBytes(bytes))
  }

  // ---- Bytes round trip ----

  /** The padded text without its padding. */
  function Bare(raw: Bytes): (text: string)
    ensures |text| == |raw| / 3 * 4 + if |raw| % 3 == 0 then 0 else |raw| % 3 + 1
  {
    if |raw| < 3 then Tail(raw) else Group(raw[0], raw[1], raw[2]) + Bare(raw[3..])
  }

  lemma {:induction false} BareIsUrlText(raw: Bytes)
    ensures IsUrlText(Bare(raw))
  {
    hide Symbol, Group, Tail, IsUrlText;
    if |raw| < 3 {
      TailIsUrlText(raw);
    } else {
      BareIsUrlText(raw[3..]);
      GroupIsUrlText(raw[0], raw[1], raw[2]);
      UrlTextsJoin(Group(raw[0], raw[1], raw[2]), Bare(raw[3..]));
    }
  }

  lemma GroupBeforePads(group: string, rest: string)
    requires |group| == 4
    ensures PadCount(|group + rest|) == PadCount(|rest|)
    ensures group + (rest + Pads(PadCount(|rest|))) == group + rest + Pads(PadCount(|rest|))
  {
  }

  lemma {:induction false} BareIsPaddedWithout(raw: Bytes)
    ensures Padded(raw) == Bare(raw) + Pads(PadCount(|Bare(raw)|))
  {
    hide Symbol, Group, Tail, Pads;
    if |raw| >= 3 {
      BareIsPaddedWithout(raw[3..]);
      hide PadCount;
      GroupBeforePads(Group(raw[0], raw[1], raw[2]), Bare(raw[3..]));
    }
  }

  lemma UrlTextsJoin(s: string, t: string)
    requires IsUrlText(s) && IsUrlText(t)
    ensures IsUrlText(s + t)
  {
  }

  lemma GroupIsUrlText(x: Byte, y: Byte, z: Byte)
    ensures IsUrlText(Group(x, y, z))
  {
    hide Symbol, IsUrlChar;
    SymbolHasItsValue(x / 4);
    SymbolHasItsValue(x % 4 * 16 + y / 16);
    SymbolHasItsValue(y % 16 * 4 + z / 64);
    SymbolHasItsValue(z % 64);
  }

  lemma TailIsUrlText(raw: Bytes)
    requires |raw| < 3
    ensures IsUrlText(Tail(raw))
  {
    hide Symbol, IsUrlChar;
    if |raw| == 1 {
      SymbolHasItsValue(raw[0] / 4);
      SymbolHasItsValue(raw[0] % 4 * 16);
    } else if |raw| == 2 {
      SymbolHasItsValue(raw[0] / 4);
      SymbolHasItsValue(raw[0] % 4 * 16 + raw[1] / 16);
      SymbolHasItsValue(raw[1] % 16 * 4);
    }
  }

  lemma {:induction false} StrippedPads(text: string, n: nat)
    requires text == "" || text[|text| - 1] != '='
    ensures Stripped(text + Pads(n)) == text
  {
    if n == 0 {
      assert text + Pads(0) == text;
    } else {
      PadsEnd(n);
      assert (text + Pads(n))[..|text| + n - 1] == text + Pads(n - 1);
      StrippedPads(text, n - 1);
    }
  }

  lemma {:induction false} PadsEnd(n: nat)
    requires n > 0
    ensures Pads(n) == Pads(n - 1) + "="
  {
    if n > 1 {
      PadsEnd(n - 1);
    }
  }

  /** The text has no padding, no `+` and no `/`, and the decoder restores exactly the padding stripped. */
  lemma EncodedIsUrlText(raw: Bytes)
    ensures IsUrlText(Encoded(raw)) && '=' !in Encoded(raw)
    ensures Encoded(raw) + Pads(PadCount(|Encoded(raw)|)) == Padded(raw)
    ensures IsAscii(Encoded(raw))
  {
    var bare := Bare(raw);
    BareIsPaddedWithout(raw);
    BareIsUrlText(raw);
    StrippedPads(bare, PadCount(|bare|));
  }

  /** One step of the decoder at a symbol. */
  lemma DecodeSymbol(v: Sextet, rest: string, pos: nat, left: nat, pads: nat)
    requires pos < 4 && FitsGroup(pos, left)
    ensures DecodedFrom([Symbol(v)] + rest, pos, left, pads) ==
            if pos == 0 then DecodedFrom(rest, 1, v, 0)
            else if pos == 1 then Prepended(left * 4 + v / 16, DecodedFrom(rest, 2, v % 16, 0))
            else if pos == 2 then Prepended(left * 16 + v / 4, DecodedFrom(rest, 3, v % 4, 0))
            else Prepended(left * 64 + v, DecodedFrom(rest, 0, 0, 0))
  {
    SymbolHasItsValue(v);
    assert ([Symbol(v)] + rest)[1..] == rest;
  }

  lemma DecodeTwoSymbols(a: Sextet, b: Sextet, rest: string)
    ensures DecodedFrom([Symbol(a), Symbol(b)] + rest, 0, 0, 0)
            == Prepended(a * 4 + b / 16, DecodedFrom(rest, 2, b % 16, 0))
  {
    DecodeSymbol(a, [Symbol(b)] + rest, 0, 0, 0);
    DecodeSymbol(b, rest, 1, a, 0);
    hide DecodedFrom, Symbol, Prepended;
    assert [Symbol(a)] + ([Symbol(b)] + rest) == [Symbol(a), Symbol(b)] + rest;
  }

  lemma DecodeThreeSymbols(a: Sextet, b: Sextet, c: Sextet, rest: string)
    ensures DecodedFrom([Symbol(a), Symbol(b), Symbol(c)] + rest, 0, 0, 0)
            == Prepended(a * 4 + b / 16, Prepended(b % 16 * 16 + c / 4, DecodedFrom(rest, 3, c % 4, 0)))
  {
    DecodeTwoSymbols(a, b, [Symbol(c)] + rest);
    DecodeSymbol(c, rest, 2, b % 16, 0);
    hide DecodedFrom, Symbol, Prepended;
    assert [Symbol(a), Symbol(b)] + ([Symbol(c)] + rest) == [Symbol(a), Symbol(b), Symbol(c)] + rest;
  }

  lemma DecodeFourSymbols(a: Sextet, b: Sextet, c: Sextet, d: Sextet, rest: string)
    ensures DecodedFrom([Symbol(a), Symbol(b), Symbol(c), Symbol(d)] + rest, 0, 0, 0)
            == Prepended(a * 4 + b / 16,
                         Prepended(b % 16 * 16 + c / 4, Prepended(c % 4 * 64 + d, DecodedFrom(rest, 0, 0, 0))))
  {
    DecodeThreeSymbols(a, b, c, [Symbol(d)] + rest);
    DecodeSymbol(d, rest, 3, c % 4, 0);
    hide DecodedFrom, Symbol, Prepended;
    assert [Symbol(a), Symbol(b), Symbol(c)] + ([Symbol(d)] + rest)
           == [Symbol(a), Symbol(b), Symbol(c), Symbol(d)] + rest;
  }

  lemma DecodeFullGroup(x: Byte, y: Byte, z: Byte, rest: string)
    ensures DecodedFrom(Group(x, y, z) + rest, 0, 0, 0)
            == Prepended(x, Prepended(y, Prepended(z, DecodedFrom(rest, 0, 0, 0))))
  {
    GroupBits(x, y, z);
    DecodeFourSymbols(x / 4, x % 4 * 16 + y / 16, y % 16 * 4 + z / 64, z % 64, rest);
    hide DecodedFrom, Symbol, Prepended;
  }

  lemma {:induction false} DecodePadded(raw: Bytes)
    ensures DecodedFrom(Padded(raw), 0, 0, 0) == Some(raw)
  {
    if |raw| >= 3 {
      DecodePadded(raw[3..]);
      DecodeFullGroup(raw[0], raw[1], raw[2], Padded(raw[3..]));
      hide DecodedFrom, Group;
      assert raw == [raw[0]] + ([raw[1]] + ([raw[2]] + raw[3..]));
    } else if |raw| == 2 {
      DecodeTwo(raw[0], raw[1]);
      assert raw == [raw[0], raw[1]];
    } else if |raw| == 1 {
      DecodeOne(raw[0]);
      assert raw == [raw[0]];
    }
  }

  lemma GroupBits(x: Byte, y: Byte, z: Byte)
    ensures var a, b, c, d := x / 4, x % 4 * 16 + y / 16, y % 16 * 4 + z / 64, z % 64;
            && a * 4 + b / 16 == x && b % 16 * 16 + c / 4 == y && c % 4 * 64 + d == z
  {
  }

  lemma DecodeTwo(x: Byte, y: Byte)
    ensures DecodedFrom(Padded([x, y]), 0, 0, 0) == Some([x, y])
  {
    var a, b, c := x / 4, x % 4 * 16 + y / 16, y % 16 * 4;
    GroupBits(x, y, 0);
    assert Padded([x, y]) == [Symbol(a), Symbol(b), Symbol(c)] + "=";
    DecodeThreeSymbols(a, b, c, "=");
    hide Padded, Symbol, Tail;
    assert DecodedFrom("=", 3, c % 4, 0) == Some([]);
    assert [x] + ([y] + []) == [x, y];
  }

  lemma DecodeOne(x: Byte)
    ensures DecodedFrom(Padded([x]), 0, 0, 0) == Some([x])
  {
    var a, b := x / 4, x % 4 * 16;
    assert Pads(1) == "=";
    assert Padded([x]) == [Symbol(a), Symbol(b)] + "==";
    DecodeTwoSymbols(a, b, "==");
    hide Padded, Symbol, Tail;
    assert "=="[1..] == "=";
    assert DecodedFrom("=", 2, b % 16, 1) == Some([]);
    assert DecodedFrom("==", 2, b % 16, 0) == Some([]);
    assert [x] + [] == [x];
  }

  /** Every byte string survives encoding, stripping, padding again and decoding. */
  lemma BytesRoundTrip(raw: Bytes)
    ensures Decoded(Encoded(raw)) == Some(raw)
  {
    EncodedIsUrlText(raw);
    DecodePadded(raw);
  }

  /** What padding does after `pos` symbols of a group. */
  lemma PaddingEnds(pos: nat, left: nat)
    requires pos < 4 && FitsGroup(pos, left)
    ensures DecodedFrom(Pads(PadCount(pos)), pos, left, 0).Some? <==> pos != 1
  {
    assert Pads(1) == "=" && Pads(2) == "==" && Pads(3) == "===";
    assert "=="[1..] == "=" && "="[1..] == "";
    if pos == 1 {
      assert "==="[1..] == "==";
      assert DecodedFrom("=", 1, left, 0) == None;
      assert DecodedFrom("==", 1, left, 0) == None;
    } else if pos == 2 {
      assert DecodedFrom("=", 2, left, 1) == Some([]);
    }
  }

  function BitsLeft(pos: nat, v: Sextet): (left: nat)
    requires pos < 4
    ensures FitsGroup((pos + 1) % 4, left)
  {
    if pos == 0 then v else if pos == 1 then v % 16 else if pos == 2 then v % 4 else 0
  }

  /** One step of the decoder at a URL-safe character. */
  lemma UrlCharStep(c: char, rest: string, pos: nat, left: nat)
    requires pos < 4 && FitsGroup(pos, left)
    requires IsUrlChar(c)
    ensures var v := ValueOf(c).value;
            DecodedFrom([c] + rest, pos, left, 0).Some? <==> DecodedFrom(rest, (pos + 1) % 4, BitsLeft(pos, v), 0).Some?
  {
    assert ([c] + rest)[1..] == rest;
  }

  lemma {:induction false} UrlTextEnds(text: string, pos: nat, left: nat)
    requires pos < 4 && FitsGroup(pos, left)
    requires IsUrlText(text)
    ensures DecodedFrom(text + Pads(PadCount(pos + |text|)), pos, left, 0).Some? <==> (pos + |text|) % 4 != 1
  {
    hide DecodedFrom, ValueOf, Pads, PadCount, BitsLeft, FitsGroup;
    var n := pos + |text|;
    var pads := Pads(PadCount(n));
    if text == "" {
      PaddingEnds(pos, left);
      assert text + pads == pads;
    } else {
      assert IsUrlChar(text[0]);
      UrlCharStep(text[0], text[1..] + pads, pos, left);
      assert text + pads == [text[0]] + (text[1..] + pads);
      var v := ValueOf(text[0]).value;
      UrlTextEnds(text[1..], (pos + 1) % 4, BitsLeft(pos, v));
      PadCountWraps(n, pos);
    }
  }

  lemma PadCountWraps(n: nat, pos: nat)
    requires pos < 4 && n > pos
    ensures PadCount((pos + 1) % 4 + (n - pos - 1)) == PadCount(n)
  {
  }

  /** Text of the URL-safe alphabet is accepted exactly when it does not leave one symbol over. */
  lemma UrlTextIsAcceptedExactlyWhen(text: string)
    requires IsUrlText(text)
    ensures Decoded(text).Some? <==> |text| % 4 != 1
  {
    assert IsAscii(text);
    UrlTextEnds(text, 0, 0);
  }

  // ---- Symbols and bits ----

  /** The letters, then the digits, then '-' and '_', as character codes. */
  predicate IsSymbolOf(c: char, v: int) {
    || (0 <= v < 26 && c as int == 65 + v)
    || (26 <= v < 52 && c as int == 97 + (v - 26))
    || (52 <= v < 62 && c as int == 48 + (v - 52))
    || (v == 62 && c as int == 45)
    || (v == 63 && c as int == 95)
  }

  lemma SymbolIs(v: Sextet)
    ensures IsSymbolOf(Symbol(v), v)
  {
  }

  /** Six bits of three bytes, read as one number with the first byte in front. */
  function SixBits(x: Byte, y: Byte, z: Byte, i: nat): Sextet
    requires i < 4
  {
    var number := x * 65536 + y * 256 + z;
    if i == 0 then number / 262144
    else if i == 1 then number / 4096 % 64
    else if i == 2 then number / 64 % 64
    else number % 64
  }

  lemma FourDigits(a: Sextet, b: Sextet, c: Sextet, d: Sextet)
    ensures var number := a * 262144 + b * 4096 + c * 64 + d;
            && number / 262144 == a && number / 4096 % 64 == b && number / 64 % 64 == c && number % 64 == d
  {
    var number := a * 262144 + b * 4096 + c * 64 + d;
    assert number / 64 == a * 4096 + b * 64 + c;
    assert number / 4096 == a * 64 + b;
  }

  lemma ThreeBytes(x: Byte, y: Byte, z: Byte)
    ensures x * 65536 + y * 256 + z
            == x / 4 * 262144 + (x % 4 * 16 + y / 16) * 4096 + (y % 16 * 4 + z / 64) * 64 + z % 64
  {
    assert x == x / 4 * 4 + x % 4 && y == y / 16 * 16 + y % 16 && z == z / 64 * 64 + z % 64;
  }

  lemma GroupSpells(x: Byte, y: Byte, z: Byte, i: nat)
    requires i < 4
    ensures IsSymbolOf(Group(x, y, z)[i], SixBits(x, y, z, i))
  {
    var a, b, c, d := x / 4, x % 4 * 16 + y / 16, y % 16 * 4 + z / 64, z % 64;
    SymbolIs(a);
    SymbolIs(b);
    SymbolIs(c);
    SymbolIs(d);
    hide IsSymbolOf, Symbol;
    ThreeBytes(x, y, z);
    FourDigits(a, b, c, d);
  }

  /** The byte at a position; zero bits follow the last byte. */
  function ByteAt(raw: Bytes, i: nat): Byte { if i < |raw| then raw[i] else 0 }

  lemma TailSpells(raw: Bytes, i: nat)
    requires |raw| < 3 && i < |Tail(raw)|
    ensures IsSymbolOf(Tail(raw)[i], SixBits(ByteAt(raw, 0), ByteAt(raw, 1), ByteAt(raw, 2), i))
  {
    GroupSpells(ByteAt(raw, 0), ByteAt(raw, 1), ByteAt(raw, 2), i);
    hide IsSymbolOf, Symbol, SixBits;
  }

  lemma {:induction false} BareSpells(raw: Bytes, i: nat)
    requires i < |Bare(raw)|
    ensures var n := i / 4 * 3;
            IsSymbolOf(Bare(raw)[i], SixBits(ByteAt(raw, n), ByteAt(raw, n + 1), ByteAt(raw, n + 2), i % 4))
    decreases |raw|
  {
    hide IsSymbolOf, SixBits, Group;
    if |raw| < 3 {
      TailSpells(raw, i);
    } else if i < 4 {
      GroupSpells(raw[0], raw[1], raw[2], i);
    } else {
      hide Tail;
      BareSpells(raw[3..], i - 4);
      assert (i - 4) / 4 * 3 + 3 == i / 4 * 3 && (i - 4) % 4 == i % 4;
    }
  }

  /** The text, character by character: character `i` is the symbol of bits `6 * i` to `6 * i + 5` of the
      bytes, and there are as many as it takes to cover all bits. */
  lemma EncodedSpells(raw: Bytes)
    ensures |Encoded(raw)| == (4 * |raw| + 2) / 3
    ensures forall i :: 0 <= i < |Encoded(raw)| ==>
              var n := i / 4 * 3;
              IsSymbolOf(Encoded(raw)[i], SixBits(ByteAt(raw, n), ByteAt(raw, n + 1), ByteAt(raw, n + 2), i % 4))
  {
    hide IsSymbolOf, SixBits, Bare, Padded, Stripped, ByteAt;
    BareIsPaddedWithout(raw);
    BareIsUrlText(raw);
    assert Encoded(raw) == Bare(raw) by {
      assert Bare(raw) != "" ==> IsUrlChar(Bare(raw)[|Bare(raw)| - 1]);
      StrippedPads(Bare(raw), PadCount(|Bare(raw)|));
    }
    forall i | 0 <= i < |Encoded(raw)|
      ensures var n := i / 4 * 3;
              IsSymbolOf(Encoded(raw)[i], SixBits(ByteAt(raw, n), ByteAt(raw, n + 1), ByteAt(raw, n + 2), i % 4))
    {
      BareSpells(raw, i);
    }
  }

  /** The text without the characters outside both alphabets, and with '-' and '_' for '+' and '/'. */
  function Translated(text: string): string {
    if text == "" then ""
    else
      var c, rest := text[0] as int, Translated(text[1..]);
      if 65 <= c <= 90 || 97 <= c <= 122 || 48 <= c <= 57 || c == 45 || c == 95 || c == 61 then [text[0]] + rest
      else if c == 43 then ['-'] + rest
      else if c == 47 then ['_'] + rest
      else rest
  }

  /** The decoder reads both alphabets alike and skips all other characters. */
  lemma {:induction false} EitherAlphabet(text: string, pos: nat, left: nat, pads: nat)
    requires pos < 4 && FitsGroup(pos, left)
    ensures DecodedFrom(Translated(text), pos, left, pads) == DecodedFrom(text, pos, left, pads)
    decreases |text|
  {
    if text != "" {
      var rest := text[1..];
      assert text[0] == '=' || ValueOf(text[0]).Some? ==> Translated(text)[1..] == Translated(rest);
      if text[0] == '=' {
        EitherAlphabet(rest, pos, left, if pos >= 2 then pads + 1 else pads);
      } else if ValueOf(text[0]) == None {
        EitherAlphabet(rest, pos, left, pads);
      } else {
        EitherAlphabet(rest, (pos + 1) % 4, BitsLeft(pos, ValueOf(text[0]).value), 0);
      }
    }
  }

  /** Text with a character outside ASCII is refused, whatever surrounds it. */
  lemma OnlyAsciiIsDecoded(text: string, i: nat)
    requires i < |text| && text[i] as int >= 128
    ensures Decoded(text) == None && DecodedInteger(text) == None
  {
    assert !IsAscii(text);
  }

  // ---- Integers round trip ----

  function Power(n: nat): (p: nat)
    ensures p > 0
  {
    if n == 0 then 1 else 256 * Power(n - 1)
  }

  /** `to_bytes` does not overflow exactly when the integer is below the power, and then it is undone. */
  lemma {:induction false} ToBytesFits(n: nat, count: nat)
    ensures ToBytes(n, count).Some? <==> n < Power(count)
    ensures ToBytes(n, count).Some? ==> FromBytes(ToBytes(n, count).value) == n
  {
    if count > 0 {
      ToBytesFits(n / 256, count - 1);
      if ToBytes(n / 256, count - 1).Some? {
        var high := ToBytes(n / 256, count - 1).value;
        assert (high + [n % 256])[..count - 1] == high;
      }
    }
  }

  /** Dividing by 256 takes eight bits off. */
  lemma BitLengthByByte(n: nat)
    ensures n >= 256 ==> BitLength(n) == BitLength(n / 256) + 8
    ensures 0 < n < 256 ==> 1 <= BitLength(n) <= 8
  {
    var h1 := n / 2;
    var h2 := h1 / 2;
    var h3 := h2 / 2;
    var h4 := h3 / 2;
    var h5 := h4 / 2;
    var h6 := h5 / 2;
    var h7 := h6 / 2;
    var h8 := h7 / 2;
    assert h8 == n / 256;
    assert n < 256 ==> h8 == 0;
    assert n >= 256 ==> h7 > 0;
    assert BitLength(h7) == if h7 == 0 then 0 else 1 + BitLength(h8);
    assert BitLength(h6) == if h6 == 0 then 0 else 1 + BitLength(h7);
    assert BitLength(h5) == if h5 == 0 then 0 else 1 + BitLength(h6);
    assert BitLength(h4) == if h4 == 0 then 0 else 1 + BitLength(h5);
    assert BitLength(h3) == if h3 == 0 then 0 else 1 + BitLength(h4);
    assert BitLength(h2) == if h2 == 0 then 0 else 1 + BitLength(h3);
    assert BitLength(h1) == if h1 == 0 then 0 else 1 + BitLength(h2);
  }

  /** The byte count from the bit length is the least that holds the integer. */
  lemma {:induction false} ByteCountIsLeast(n: nat)
    ensures n < Power(ByteCount(n))
    ensures ByteCount(n) > 0 ==> Power(ByteCount(n) - 1) <= n
  {
    BitLengthByByte(n);
    if n >= 256 {
      ByteCountIsLeast(n / 256);
      assert ByteCount(n) == ByteCount(n / 256) + 1;
    }
  }

  lemma {:induction false} FromBytesIsBelow(bytes: Bytes)
    ensures FromBytes(bytes) < Power(|bytes|)
  {
    if bytes != [] {
      FromBytesIsBelow(bytes[..|bytes| - 1]);
    }
  }

  lemma {:induction false} PowerGrows(m: nat, n: nat)
    requires m <= n
    ensures Power(m) <= Power(n)
  {
    if m < n {
      PowerGrows(m, n - 1);
    }
  }

  /** Bytes are read with the first byte in front. */
  lemma {:induction false} FromBytesIsBigEndian(first: Byte, rest: Bytes)
    ensures FromBytes([first] + rest) == first * Power(|rest|) + FromBytes(rest)
    decreases |rest|
  {
    var bytes := [first] + rest;
    if rest == [] {
      assert bytes[..0] == [];
    } else {
      assert bytes[..|rest|] == [first] + rest[..|rest| - 1];
      FromBytesIsBigEndian(first, rest[..|rest| - 1]);
      assert first * Power(|rest| - 1) * 256 == first * Power(|rest|);
    }
  }

  /** Main theorem: for every natural number the encoder does not overflow, and decoding its text and
      reading the bytes gives the number back. */
  lemma IntegerRoundTrip(n: nat)
    ensures EncodedInteger(n).Some? && DecodedInteger(EncodedInteger(n).value) == Some(n)
  {
    ByteCountIsLeast(n);
    ToBytesFits(n, ByteCount(n));
    BytesRoundTrip(ToBytes(n, ByteCount(n)).value);
  }

  /** No shorter byte string has the value: the published bytes are the minimal representation. */
  lemma BytesAreMinimal(n: nat, bytes: Bytes)
    requires FromBytes(bytes) == n
    ensures ByteCount(n) <= |bytes|
  {
    ByteCountIsLeast(n);
    FromBytesIsBelow(bytes);
    if |bytes| < ByteCount(n) {
      PowerGrows(|bytes|, ByteCount(n) - 1);
    }
  }

  lemma ZeroByteIsAA()
    ensures Encoded([0]) == "AA"
  {
    assert Tail([0]) == "AA";
    StrippedPads("AA", 2);
    hide Tail, Stripped, Pads;
    assert Padded([0]) == "AA" + Pads(2);
  }

  /** Zero is published as the empty text, not as "AA", which decodes to zero as well. */
  lemma ZeroIsEmpty()
    ensures EncodedInteger(0) == Some("")
    ensures DecodedInteger("AA") == Some(0)
  {
    ZeroByteIsAA();
    BytesRoundTrip([0]);
    NoBytesAreZero();
    NothingEncoded();
    hide Decoded, Encoded, FromBytes;
  }

  lemma NoBytesAreZero()
    ensures FromBytes([]) == 0 && FromBytes([0]) == 0
  {
    assert [0][..0] == [];
  }

  lemma NothingEncoded()
    ensures Encoded([]) == ""
  {
    assert Padded([]) == "" + Pads(0);
    StrippedPads("", 0);
  }
}
