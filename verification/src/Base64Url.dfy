/** Unpadded base64url, section 5 of RFC 4648, as the program's library reads and writes it. */
module Base64Url {
  import opened Nodes
  import opened Versions

  type Sextet = x: int | 0 <= x < 64

  function Symbol(s: Sextet): char {
    if s < 26 then ('A' as int + s) as char
    else if s < 52 then ('a' as int + s - 26) as char
    else if s < 62 then ('0' as int + s - 52) as char
    else if s == 62 then '-'
    else '_'
  }

  function Value(c: char): Option<Sextet> {
    if 'A' <= c <= 'Z' then Some(c as int - 'A' as int)
    else if 'a' <= c <= 'z' then Some(c as int - 'a' as int + 26)
    else if '0' <= c <= '9' then Some(c as int - '0' as int + 52)
    else if c == '-' then Some(62)
    else if c == '_' then Some(63)
    else None
  }

  const UPPER := "ABCDEFGHIJKLMNOPQRSTUVWXYZ"
  const LOWER := "abcdefghijklmnopqrstuvwxyz"
  const DIGITS := "0123456789"

  lemma LettersInOrder(i: nat)
    requires i < 26
    ensures |UPPER| == |LOWER| == 26 && Symbol(i) == UPPER[i] && Symbol(26 + i) == LOWER[i]
  {
    assert UPPER == ['A', 'B', 'C', 'D', 'E', 'F', 'G', 'H', 'I', 'J', 'K', 'L', 'M',
                     'N', 'O', 'P', 'Q', 'R', 'S', 'T', 'U', 'V', 'W', 'X', 'Y', 'Z'];
    assert LOWER == ['a', 'b', 'c', 'd', 'e', 'f', 'g', 'h', 'i', 'j', 'k', 'l', 'm',
                     'n', 'o', 'p', 'q', 'r', 's', 't', 'u', 'v', 'w', 'x', 'y', 'z'];
  }

  /** The 64 symbols are those of the URL and filename safe alphabet, in its order. */
  lemma SymbolIsInAlphabet(s: Sextet)
    ensures |UPPER + LOWER + DIGITS + "-_"| == 64 && Symbol(s) == (UPPER + LOWER + DIGITS + "-_")[s]
  {
    LettersInOrder(if s < 26 then s else if s < 52 then s - 26 else 0);
    assert DIGITS == ['0', '1', '2', '3', '4', '5', '6', '7', '8', '9'];
  }

  lemma ValueOfSymbol(s: Sextet)
    ensures Value(Symbol(s)) == Some(s)
  {
  }

  lemma SymbolOfValue(c: char)
    ensures Value(c).Some? ==> Symbol(Value(c).value) == c
  {
  }

  function Symbols(s: seq<Sextet>): (text: string)
    ensures |text| == |s|
  {
    if s == [] then [] else [Symbol(s[0])] + Symbols(s[1..])
  }

  /** Line breaks are skipped; any other character outside the alphabet is an error. */
  function Values(text: string): Option<seq<Sextet>> {
    if text == [] then Some([])
    else if text[0] == '\r' || text[0] == '\n' then Values(text[1..])
    else
      match (Value(text[0]), Values(text[1..]))
      case (Some(v), Some(rest)) => Some([v] + rest)
      case _ => None
  }

  // ---- regrouping eight bits into six -----------------------------------------------

  function Pack(b: Bytes): seq<Sextet> {
    if |b| == 0 then []
    else if |b| == 1 then [b[0] / 4, b[0] % 4 * 16]
    else if |b| == 2 then [b[0] / 4, b[0] % 4 * 16 + b[1] / 16, b[1] % 16 * 4]
    else [b[0] / 4, b[0] % 4 * 16 + b[1] / 16, b[1] % 16 * 4 + b[2] / 64, b[2] % 64] + Pack(b[3..])
  }

  function First(p: Sextet, q: Sextet): Byte {
    p * 4 + q / 16
  }

  function Second(q: Sextet, r: Sextet): Byte {
    q % 16 * 16 + r / 4
  }

  function Third(r: Sextet, t: Sextet): Byte {
    r % 4 * 64 + t
  }

  /** Leftover bits of the last group must be zero only when `strict`. */
  function Unpack(strict: bool, s: seq<Sextet>): Option<Bytes> {
    if |s| == 0 then Some([])
    else if |s| == 1 then None
    else if |s| == 2 then
      if strict && s[1] % 16 != 0 then None else Some([First(s[0], s[1])])
    else if |s| == 3 then
      if strict && s[2] % 4 != 0 then None else Some([First(s[0], s[1]), Second(s[1], s[2])])
    else
      match Unpack(strict, s[4..])
      case None => None
      case Some(rest) => Some([First(s[0], s[1]), Second(s[1], s[2]), Third(s[2], s[3])] + rest)
  }

  function Encode(b: Bytes): string {
    Symbols(Pack(b))
  }

  function Decode(strict: bool, text: string): Option<Bytes> {
    match Values(text)
    case None => None
    case Some(s) => Unpack(strict, s)
  }

  function EncodedLength(n: nat): nat {
    n / 3 * 4 + (n % 3 * 8 + 5) / 6
  }

  // ---- round trips ----------------------------------------------------------------------

  lemma {:induction false} PackLength(b: Bytes)
    ensures |Pack(b)| == EncodedLength(|b|)
  {
    if |b| >= 3 {
      PackLength(b[3..]);
      assert |b| / 3 == (|b| - 3) / 3 + 1 && |b| % 3 == (|b| - 3) % 3;
    }
  }

  /** Three bytes and four sextets hold the same bits. */
  lemma BytesBack(x: Byte, y: Byte, z: Byte)
    ensures First(x / 4, x % 4 * 16 + y / 16) == x
    ensures Second(x % 4 * 16 + y / 16, y % 16 * 4 + z / 64) == y
    ensures Third(y % 16 * 4 + z / 64, z % 64) == z
  {
  }

  lemma SextetsBack(p: Sextet, q: Sextet, r: Sextet, t: Sextet)
    ensures First(p, q) / 4 == p
    ensures First(p, q) % 4 * 16 + Second(q, r) / 16 == q
    ensures Second(q, r) % 16 * 4 + Third(r, t) / 64 == r
    ensures Third(r, t) % 64 == t
    ensures q % 16 == 0 ==> First(p, q) % 4 * 16 == q
    ensures r % 4 == 0 ==> Second(q, r) % 16 * 4 == r
  {
  }

  lemma PackGroup(b: Bytes)
    requires |b| >= 3
    ensures Pack(b)[..4] == [b[0] / 4, b[0] % 4 * 16 + b[1] / 16, b[1] % 16 * 4 + b[2] / 64, b[2] % 64]
    ensures Pack(b)[4..] == Pack(b[3..])
  {
  }

  lemma UnpackGroup(strict: bool, s: seq<Sextet>)
    requires |s| >= 4
    ensures Unpack(strict, s).Some? <==> Unpack(strict, s[4..]).Some?
    ensures Unpack(strict, s).Some? ==>
              Unpack(strict, s).value == [First(s[0], s[1]), Second(s[1], s[2]), Third(s[2], s[3])] +
                Unpack(strict, s[4..]).value
  {
  }

  lemma UnpackOfPackGroup(strict: bool, b: Bytes)
    requires |b| >= 3 && Unpack(strict, Pack(b[3..])) == Some(b[3..])
    ensures Unpack(strict, Pack(b)) == Some(b)
  {
    PackGroup(b);
    var s := Pack(b);
    assert s[0] == s[..4][0] && s[1] == s[..4][1] && s[2] == s[..4][2] && s[3] == s[..4][3];
    UnpackGroup(strict, s);
    BytesBack(b[0], b[1], b[2]);
    assert b == [b[0], b[1], b[2]] + b[3..];
  }

  /** A last group of one or two bytes leaves zero bits over. */
  lemma OneByteBack(x: Byte)
    ensures First(x / 4, x % 4 * 16) == x && x % 4 * 16 % 16 == 0
  {
  }

  lemma TwoBytesBack(x: Byte, y: Byte)
    ensures First(x / 4, x % 4 * 16 + y / 16) == x
    ensures Second(x % 4 * 16 + y / 16, y % 16 * 4) == y && y % 16 * 4 % 4 == 0
  {
  }

  lemma UnpackTwo(strict: bool, s: seq<Sextet>)
    requires |s| == 2 && s[1] % 16 == 0
    ensures Unpack(strict, s) == Some([First(s[0], s[1])])
  {
  }

  lemma UnpackThree(strict: bool, s: seq<Sextet>)
    requires |s| == 3 && s[2] % 4 == 0
    ensures Unpack(strict, s) == Some([First(s[0], s[1]), Second(s[1], s[2])])
  {
  }

  lemma UnpackOfPackOne(strict: bool, x: Byte)
    ensures Unpack(strict, Pack([x])) == Some([x])
  {
    OneByteBack(x);
    UnpackTwo(strict, [x / 4, x % 4 * 16]);
  }

  lemma PackTwo(x: Byte, y: Byte)
    ensures |Pack([x, y])| == 3 && Pack([x, y])[0] == x / 4
    ensures Pack([x, y])[1] == x % 4 * 16 + y / 16 && Pack([x, y])[2] == y % 16 * 4
  {
  }

  lemma UnpackOfTwo(strict: bool, x: Byte, y: Byte, s: seq<Sextet>)
    requires |s| == 3 && s[0] == x / 4 && s[1] == x % 4 * 16 + y / 16 && s[2] == y % 16 * 4
    ensures Unpack(strict, s) == Some([x, y])
  {
    TwoBytesBack(x, y);
    UnpackThree(strict, s);
  }

  lemma UnpackOfPackTwo(strict: bool, x: Byte, y: Byte)
    ensures Unpack(strict, Pack([x, y])) == Some([x, y])
  {
    PackTwo(x, y);
    UnpackOfTwo(strict, x, y, Pack([x, y]));
  }

  lemma {:induction false} UnpackOfPack(strict: bool, b: Bytes)
    ensures Unpack(strict, Pack(b)) == Some(b)
  {
    if |b| == 1 {
      UnpackOfPackOne(strict, b[0]);
      assert b == [b[0]];
    } else if |b| == 2 {
      UnpackOfPackTwo(strict, b[0], b[1]);
      assert b == [b[0], b[1]];
    } else if |b| >= 3 {
      UnpackOfPack(strict, b[3..]);
      UnpackOfPackGroup(strict, b);
    }
  }

  lemma {:induction false} PackOfUnpack(s: seq<Sextet>)
    ensures Unpack(true, s).Some? ==> Pack(Unpack(true, s).value) == s
  {
    if |s| < 4 {
      if |s| >= 2 { SextetsBack(s[0], s[1], if |s| == 3 then s[2] else 0, 0); }
      assert |s| == 3 ==> s == [s[0], s[1], s[2]];
      assert |s| == 2 ==> s == [s[0], s[1]];
    } else if Unpack(true, s).Some? {
      UnpackGroup(true, s);
      PackOfUnpack(s[4..]);
      var b := Unpack(true, s).value;
      assert b[3..] == Unpack(true, s[4..]).value;
      SextetsBack(s[0], s[1], s[2], s[3]);
      PackGroup(b);
      assert Pack(b)[..4] == s[..4];
      assert Pack(b) == Pack(b)[..4] + Pack(b)[4..] && s == s[..4] + s[4..];
    }
  }

  lemma SymbolIsPlain(s: Sextet)
    ensures Symbol(s) != '.' && Symbol(s) != '\r' && Symbol(s) != '\n'
  {
  }

  lemma ValuesOfNext(c: char, text: string)
    requires c != '\r' && c != '\n' && Value(c).Some? && Values(text).Some?
    ensures Values([c] + text) == Some([Value(c).value] + Values(text).value)
  {
    assert ([c] + text)[1..] == text;
  }

  lemma {:induction false} ValuesOfSymbols(s: seq<Sextet>)
    ensures Values(Symbols(s)) == Some(s)
  {
    if s != [] {
      ValuesOfSymbols(s[1..]);
      ValueOfSymbol(s[0]);
      SymbolIsPlain(s[0]);
      ValuesOfNext(Symbol(s[0]), Symbols(s[1..]));
      assert s == [s[0]] + s[1..];
    }
  }

  lemma {:induction false} SymbolsArePlain(s: seq<Sextet>)
    ensures '.' !in Symbols(s)
  {
    if s != [] {
      SymbolsArePlain(s[1..]);
      SymbolIsPlain(s[0]);
    }
  }

  /** A line break can only make the decoded text shorter. */
  lemma {:induction false} SymbolsOfValues(text: string)
    ensures Values(text).Some? ==> |Values(text).value| <= |text|
    ensures Values(text).Some? && |Values(text).value| == |text| ==> Symbols(Values(text).value) == text
  {
    if text != [] {
      SymbolsOfValues(text[1..]);
      SymbolOfValue(text[0]);
      if Values(text).Some? && |Values(text).value| == |text| {
        var s := Values(text).value;
        assert s[1..] == Values(text[1..]).value;
        assert text == [text[0]] + text[1..];
      }
    }
  }

  /** Encoding is undone by both decoders. */
  lemma DecodeOfEncode(strict: bool, b: Bytes)
    ensures Decode(strict, Encode(b)) == Some(b)
  {
    ValuesOfSymbols(Pack(b));
    UnpackOfPack(strict, b);
  }

  /** Encoded text has the stated length and never uses a dot. */
  lemma EncodeShape(b: Bytes)
    ensures |Encode(b)| == EncodedLength(|b|) && '.' !in Encode(b)
  {
    PackLength(b);
    SymbolsArePlain(Pack(b));
  }

  /** A strict reading of the expected length has one spelling only. */
  lemma EncodeOfDecode(text: string)
    requires Decode(true, text).Some? && |text| == EncodedLength(|Decode(true, text).value|)
    ensures Encode(Decode(true, text).value) == text
  {
    var s := Values(text).value;
    SymbolsOfValues(text);
    PackOfUnpack(s);
    PackLength(Decode(true, text).value);
  }
}
