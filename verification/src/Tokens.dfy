/** Editing tokens: the name and version of a document as opaque text. */
module Tokens {
  import opened Nodes
  import opened Versions
  import Base64Url

  datatype Record = Record(name: Bytes, version: Version, value: Bytes)

  const MAX_NAME: nat := 512

  /** `legal` stands for well-formed UTF-8 without control or space characters. */
  predicate ValidName(legal: Bytes -> bool, name: Bytes) {
    0 < |name| <= MAX_NAME && legal(name)
  }

  function VersionText(v: Version): string {
    Base64Url.Encode(Encode(v))
  }

  function ReadVersion(text: string): Option<Version> {
    if |text| != Base64Url.EncodedLength(48) then None
    else
      match Base64Url.Decode(true, text)
      case None => None
      case Some(b) => Decode(b)
  }

  /** A missing document, with its empty name, has the empty token. */
  function Token(name: Bytes, version: Version): string {
    if name == [] then "" else "v1" + "." + Base64Url.Encode(name) + "." + VersionText(version)
  }

  function Split(text: string): (parts: seq<string>)
    ensures parts != []
  {
    if text == [] then [""]
    else
      var rest := Split(text[1..]);
      if text[0] == '.' then [""] + rest else [[text[0]] + rest[0]] + rest[1..]
  }

  function CompareVersion(legal: Bytes -> bool, r: Record, token: string): Option<int> {
    if |token| > 1024 then None
    else
      var parts := Split(token);
      if |parts| != 3 || parts[0] != "v1" then None
      else
        match (Base64Url.Decode(false, parts[1]), ReadVersion(parts[2]))
        case (Some(name), Some(version)) =>
          if ValidName(legal, name) && name == r.name && Token(name, version) == token
          then Some(Compare(r.version, version)) else None
        case _ => None
  }

  // ---- reading versions back ------------------------------------------------------------

  /** One text per version: the strict reading of 64 characters admits no second spelling. */
  lemma ReadVersionIff(text: string, v: Version)
    ensures ReadVersion(text) == Some(v) <==> text == VersionText(v) && Positive(v)
  {
    Base64Url.DecodeOfEncode(true, Encode(v));
    Base64Url.EncodeShape(Encode(v));
    DecodeIsInverse(Encode(v), v);
    if ReadVersion(text) == Some(v) {
      var b := Base64Url.Decode(true, text).value;
      DecodeIsInverse(b, v);
      Base64Url.EncodeOfDecode(text);
    }
  }

  // ---- taking tokens apart ----------------------------------------------------------------

  lemma {:induction false} SplitOne(a: string)
    requires '.' !in a
    ensures Split(a) == [a]
  {
    if a != [] {
      SplitOne(a[1..]);
      assert a == [a[0]] + a[1..];
    }
  }

  lemma {:induction false} SplitFirst(a: string, rest: string)
    requires '.' !in a
    ensures Split(a + "." + rest) == [a] + Split(rest)
  {
    var text := a + "." + rest;
    if a == [] {
      assert text[1..] == rest;
    } else {
      SplitFirst(a[1..], rest);
      assert text[1..] == a[1..] + "." + rest;
      assert a == [a[0]] + a[1..];
    }
  }

  lemma TokenParts(name: Bytes, v: Version)
    requires name != []
    ensures Split(Token(name, v)) == ["v1", Base64Url.Encode(name), VersionText(v)]
    ensures |Token(name, v)| == 68 + Base64Url.EncodedLength(|name|)
  {
    Base64Url.EncodeShape(name);
    Base64Url.EncodeShape(Encode(v));
    var tail := Base64Url.Encode(name) + "." + VersionText(v);
    assert Token(name, v) == "v1" + "." + tail;
    SplitFirst("v1", tail);
    SplitFirst(Base64Url.Encode(name), VersionText(v));
    SplitOne(VersionText(v));
  }

  /** A token determines the document and the version it names. */
  lemma TokenInjective(name: Bytes, v: Version, name': Bytes, w: Version)
    requires Token(name, v) == Token(name', w)
    ensures name == name' && (name != [] ==> v == w)
  {
    if name != [] && name' != [] {
      TokenParts(name, v);
      TokenParts(name', w);
      var a, b := Split(Token(name, v)), Split(Token(name', w));
      assert a[1] == b[1] && a[2] == b[2];
      Base64Url.DecodeOfEncode(false, name);
      Base64Url.DecodeOfEncode(false, name');
      VersionTextInjective(v, w);
    }
  }

  lemma VersionTextInjective(v: Version, w: Version)
    requires VersionText(v) == VersionText(w)
    ensures v == w
  {
    Base64Url.DecodeOfEncode(true, Encode(v));
    Base64Url.DecodeOfEncode(true, Encode(w));
    EncodePreservesOrder(v, w);
    CompareBytesIsTotal(Encode(v), Encode(w), []);
    CompareIsTotal(v, w, v);
  }

  lemma TokenLength(name: Bytes, v: Version)
    requires |name| <= MAX_NAME
    ensures |Token(name, v)| <= 751
  {
    if name != [] {
      TokenParts(name, v);
      assert |name| / 3 <= 170;
    }
  }

  /** A token is accepted exactly when it is the token of some positive version of this document,
      and then the answer is the order of the two versions. */
  lemma CompareVersionIff(legal: Bytes -> bool, r: Record, token: string, c: int)
    ensures CompareVersion(legal, r, token) == Some(c) <==>
            ValidName(legal, r.name) &&
            exists v :: Positive(v) && token == Token(r.name, v) && c == Compare(r.version, v)
  {
    if CompareVersion(legal, r, token) == Some(c) {
      var parts := Split(token);
      var v := ReadVersion(parts[2]).value;
      ReadVersionIff(parts[2], v);
      assert Positive(v) && token == Token(r.name, v);
    }
    if ValidName(legal, r.name) {
      forall v | Positive(v) && token == Token(r.name, v)
        ensures CompareVersion(legal, r, token) == Some(Compare(r.version, v))
      {
        TokenIsAccepted(legal, r, v);
      }
    }
  }

  lemma TokenIsAccepted(legal: Bytes -> bool, r: Record, v: Version)
    requires ValidName(legal, r.name) && Positive(v)
    ensures CompareVersion(legal, r, Token(r.name, v)) == Some(Compare(r.version, v))
  {
    TokenLength(r.name, v);
    TokenParts(r.name, v);
    Base64Url.DecodeOfEncode(false, r.name);
    ReadVersionIff(VersionText(v), v);
  }
}
