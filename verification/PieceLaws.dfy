/** What the spellings of vocabulary entries mean: byte by byte, character by character. */
module PieceLaws {
  import opened Bits
  import opened Outcomes
  import opened Pieces

  // ----- the byte-level alphabet -----

  /** The character that spells a byte: its own if it prints, otherwise the next from 256 on, in the bytes' order. */
  function SpellingOf(b: byte): char {
    if b <= 32 then (256 + b) as char
    else if 127 <= b <= 160 then (289 + (b - 127)) as char
    else if b == 173 then 323 as char
    else b as char
  }

  lemma {:induction false} PrintedRun(code: nat, b: nat, end: nat, n: nat)
    requires b <= end <= 256 && forall i :: b <= i < end ==> Printable(i)
    ensures HiddenByte(code, b, n) == HiddenByte(code, end, n)
    decreases end - b
  {
    if b < end {
      PrintedRun(code, b + 1, end, n);
    }
  }

  lemma {:induction false} HiddenRun(code: nat, b: nat, end: nat, n: nat)
    requires b <= end <= 256 && forall i :: b <= i < end ==> !Printable(i)
    ensures HiddenByte(code, b, n) ==
            if 256 + n <= code < 256 + n + (end - b) then Some(b + (code - 256 - n))
            else HiddenByte(code, end, n + (end - b))
    decreases end - b
  {
    if b < end && code != 256 + n {
      HiddenRun(code, b + 1, end, n + 1);
    }
  }

  lemma HiddenWrittenOut(code: nat)
    ensures HiddenByte(code, 0, 0) ==
            if 256 <= code <= 288 then Some(code - 256)
            else if 289 <= code <= 322 then Some(code - 289 + 127)
            else if code == 323 then Some(173)
            else None
  {
    HiddenRun(code, 0, 33, 0);
    PrintedRun(code, 33, 127, 33);
    HiddenRun(code, 127, 161, 33);
    PrintedRun(code, 161, 173, 67);
    HiddenRun(code, 173, 174, 67);
    PrintedRun(code, 174, 256, 68);
  }

  /** The alphabet is a bijection with the bytes; a printable byte spells itself. */
  lemma AlphabetIsBytes(c: char, b: byte)
    ensures Gpt2Byte(c) == Some(b) <==> c == SpellingOf(b)
    ensures 33 <= b <= 126 || 161 <= b <= 172 || 174 <= b ==> SpellingOf(b) as int == b
    ensures forall d: byte :: SpellingOf(d) == SpellingOf(b) ==> d == b
  {
    HiddenWrittenOut(c as int);
  }

  function Spelled(bytes: seq<byte>): (s: string)
    ensures |s| == |bytes| && forall i :: 0 <= i < |s| ==> s[i] == SpellingOf(bytes[i])
  {
    seq(|bytes|, i requires 0 <= i < |bytes| => SpellingOf(bytes[i]))
  }

  lemma {:induction false} SpelledIff(token: string, bytes: seq<byte>)
    ensures Gpt2Bytes(token) == Some(bytes) <==> token == Spelled(bytes)
    decreases |token|
  {
    hide Gpt2Byte, SpellingOf;
    if token != "" && bytes != [] {
      AlphabetIsBytes(token[0], bytes[0]);
      SpelledIff(token[1..], bytes[1..]);
      HeadAndTail(token, Spelled(bytes));
      assert Spelled(bytes)[1..] == Spelled(bytes[1..]);
      var first, rest := Gpt2Byte(token[0]), Gpt2Bytes(token[1..]);
      if first.Some? && rest.Some? {
        HeadAndTail([first.value] + rest.value, bytes);
      }
    }
  }

  lemma HeadAndTail<T(!new)>(a: seq<T>, b: seq<T>)
    requires a != [] && b != []
    ensures a == b <==> a[0] == b[0] && a[1..] == b[1..]
  {
    assert a == [a[0]] + a[1..] && b == [b[0]] + b[1..];
  }

  // ----- UTF-8 -----

  /** The payload bits of the encoding are the character, the marks of the first byte say how many there are, and there
      are no more of them than needed. */
  lemma Utf8Bits(c: char)
    ensures var u, code := Utf8Char(c), c as int;
            && |u| == (if code < 0x80 then 1 else if code < 0x800 then 2 else if code < 0x1_0000 then 3 else 4)
            && (|u| == 1 ==> u[0] == code)
            && (|u| == 2 ==> 0xc0 <= u[0] < 0xe0 && code == Payload(u[0], 0xc0) * 0x40 + Payload(u[1], 0x80))
            && (|u| == 3 ==>
                  && 0xe0 <= u[0] < 0xf0
                  && code == (Payload(u[0], 0xe0) * 0x40 + Payload(u[1], 0x80)) * 0x40 + Payload(u[2], 0x80))
            && (|u| == 4 ==>
                  && 0xf0 <= u[0] < 0xf8
                  && code == ((Payload(u[0], 0xf0) * 0x40 + Payload(u[1], 0x80)) * 0x40 + Payload(u[2], 0x80)) * 0x40
                             + Payload(u[3], 0x80))
            && forall i :: 1 <= i < |u| ==> 0x80 <= u[i] < 0xc0
  {
    var code := c as int;
    Sixes(code);
    Sixes(code / 0x40);
    Sixes(code / 0x40 / 0x40);
    assert code / 0x1000 == code / 0x40 / 0x40;
    assert code / 0x4_0000 == code / 0x40 / 0x40 / 0x40;
  }

  /** What a byte holds besides its mark. */
  function Payload(b: byte, mark: byte): int {
    b as int - mark as int
  }

  lemma Sixes(n: nat)
    ensures n == n / 0x40 * 0x40 + n % 0x40 && 0 <= n % 0x40 < 0x40
  {
  }

  lemma Utf8CharDecides(c: char, d: char, rest: seq<byte>, more: seq<byte>)
    requires Utf8Char(c) + rest == Utf8Char(d) + more
    ensures c == d && rest == more
  {
    var (u, v) := (Utf8Char(c), Utf8Char(d));
    Utf8Bits(c);
    Utf8Bits(d);
    assert u[0] == (u + rest)[0] && v[0] == (v + more)[0];
    assert |u| == |v|;
    assert u == (u + rest)[..|u|] && v == (v + more)[..|v|];
    assert rest == (u + rest)[|u|..] && more == (v + more)[|v|..];
    assert c as int == d as int;
  }

  /** Different texts have different bytes. */
  lemma {:induction false} Utf8Decides(s: string, t: string)
    requires Utf8(s) == Utf8(t)
    ensures s == t
    decreases |s|
  {
    hide Utf8Char;
    if s != "" && t != "" {
      Utf8CharDecides(s[0], t[0], Utf8(s[1..]), Utf8(t[1..]));
      Utf8Decides(s[1..], t[1..]);
    }
  }

  // ----- pieces -----

  const DIGITS: string := "0123456789ABCDEF"

  /** The six characters <0xHH> are the byte with these digits. */
  lemma ByteTokens(b: byte)
    ensures PieceBytes("<0x" + [DIGITS[b / 16], DIGITS[b % 16]] + ">") == [b]
  {
    hide Utf8, HexDigit;
    var hex := [DIGITS[b / 16], DIGITS[b % 16]];
    var token := "<0x" + hex + ">";
    assert token[3..|token| - 1] == hex && token[..3] == "<0x";
    DigitValue(b / 16);
    DigitValue(b % 16);
    PlainText(hex);
    assert CanonicalByte(token) == Some(b);
  }

  /** Nothing longer or shorter is one. */
  lemma ByteTokenShape(token: string)
    requires CanonicalByte(token).Some?
    ensures |token| == 6 && token[..3] == "<0x" && token[5] == '>' && PieceBytes(token) == [CanonicalByte(token).value]
  {
  }

  lemma DigitValue(d: nat)
    requires d < 16
    ensures HexDigit(DIGITS[d]) == Some(d) && DIGITS[d] as int < 0x80 && DIGITS[d] != '+'
  {
  }

  lemma {:induction false} PlainText(s: string)
    requires forall i :: 0 <= i < |s| ==> s[i] as int < 0x80
    ensures |Utf8(s)| == |s|
    decreases |s|
  {
    if s != "" {
      PlainText(s[1..]);
    }
  }

  /** Any other token spelled in the byte-level alphabet is those bytes. */
  lemma SpelledPieces(bytes: seq<byte>)
    requires bytes != [] && CanonicalByte(Spelled(bytes)).None?
    ensures PieceBytes(Spelled(bytes)) == bytes
  {
    SpelledIff(Spelled(bytes), bytes);
  }

  /** The word-start mark is a space; what follows is plain text. */
  lemma MarkedPieces(rest: string)
    ensures PieceBytes(['\U{2581}'] + rest) == [32] + Utf8(rest)
  {
    var token := ['\U{2581}'] + rest;
    HiddenWrittenOut(0x2581);
    assert token[0] == '\U{2581}' && token[1..] == rest;
    assert |token| >= 4 ==> token[..3][0] == token[0];
  }

  /** A token with a character outside the alphabet, and no mark in front, is its text. */
  lemma TextPieces(token: string, i: nat)
    requires i < |token| && CanonicalByte(token).None? && token[0] != '\U{2581}'
    requires forall b: byte :: token[i] != SpellingOf(b)
    ensures PieceBytes(token) == Utf8(token)
  {
    if Gpt2Bytes(token).Some? {
      SpelledIff(token, Gpt2Bytes(token).value);
      assert false;
    }
  }
}
