/** The byte cap on a rendered mail body: encode to UTF-8, cut, decode ignoring errors. Dafny's `char`
    is a Unicode scalar value, as a character of an encodable Python string is. */
module BodyCap {
  import opened Wrappers

  type Byte = b: int | 0 <= b < 256

  const MARKER := "<!-- truncated -->"

  // ---------------------------------------------------------------- UTF-8, section 3 of RFC 3629

  function EncodeChar(c: char): (bs: seq<Byte>)
    ensures 1 <= |bs| <= 4
  {
    var n := c as int;
    if n < 0x80 then [n]
    else if n < 0x800 then [0xC0 + n / 0x40, 0x80 + n % 0x40]
    else if n < 0x1_0000 then [0xE0 + n / 0x1000, 0x80 + n / 0x40 % 0x40, 0x80 + n % 0x40]
    else [0xF0 + n / 0x4_0000, 0x80 + n / 0x1000 % 0x40, 0x80 + n / 0x40 % 0x40, 0x80 + n % 0x40]
  }

  function Encode(s: string): seq<Byte> {
    if s == "" then [] else EncodeChar(s[0]) + Encode(s[1..])
  }

  /** How many bytes a lead byte announces; 0 when it cannot lead. */
  function Announced(lead: Byte): nat {
    if lead < 0x80 then 1
    else if lead < 0xC2 then 0
    else if lead < 0xE0 then 2
    else if lead < 0xF0 then 3
    else if lead < 0xF5 then 4
    else 0
  }

  predicate Continues(b: Byte) {
    0x80 <= b <= 0xBF
  }

  /** The second byte is narrower after some leads: no overlong forms, surrogates or too large values. */
  predicate SecondOk(lead: Byte, b: Byte) {
    Continues(b) && (lead == 0xE0 ==> b >= 0xA0) && (lead == 0xED ==> b <= 0x9F)
    && (lead == 0xF0 ==> b >= 0x90) && (lead == 0xF4 ==> b <= 0x8F)
  }

  /** How many bytes from the start belong together: a whole character, or a piece that is skipped. */
  function Piece(bs: seq<Byte>): (n: nat)
    requires bs != []
    ensures 1 <= n <= |bs|
  {
    var announced := Announced(bs[0]);
    if announced <= 1 || |bs| < 2 || !SecondOk(bs[0], bs[1]) then 1
    else if announced == 2 || |bs| < 3 || !Continues(bs[2]) then 2
    else if announced == 3 || |bs| < 4 || !Continues(bs[3]) then 3
    else 4
  }

  function DecodeChar(bs: seq<Byte>): char
    requires bs != [] && Piece(bs) == Announced(bs[0])
  {
    var n := Piece(bs);
    var b0: int := bs[0];
    if n == 1 then b0 as char
    else
      var b1: int := bs[1];
      if n == 2 then ((b0 - 0xC0) * 0x40 + (b1 - 0x80)) as char
      else
        var b2: int := bs[2];
        if n == 3 then ((b0 - 0xE0) * 0x1000 + (b1 - 0x80) * 0x40 + (b2 - 0x80)) as char
        else
          var b3: int := bs[3];
          ((b0 - 0xF0) * 0x4_0000 + (b1 - 0x80) * 0x1000 + (b2 - 0x80) * 0x40 + (b3 - 0x80)) as char
  }

  /** `bytes.decode("utf-8", errors="ignore")` */
  function DecodeIgnore(bs: seq<Byte>): string {
    if bs == [] then ""
    else if Piece(bs) == Announced(bs[0]) then [DecodeChar(bs)] + DecodeIgnore(bs[Piece(bs)..])
    else DecodeIgnore(bs[Piece(bs)..])
  }

  lemma SixBits(n: nat)
    ensures n == (n / 0x40) * 0x40 + n % 0x40
    ensures n == (n / 0x1000) * 0x1000 + (n / 0x40 % 0x40) * 0x40 + n % 0x40
    ensures n == (n / 0x4_0000) * 0x4_0000 + (n / 0x1000 % 0x40) * 0x1000 + (n / 0x40 % 0x40) * 0x40 + n % 0x40
  {
    var q := n / 0x40;
    var p := q / 0x40;
    assert n / 0x1000 == p && n / 0x4_0000 == p / 0x40;
  }

  /** `bs` starts with the bytes of `c`. */
  ghost predicate StartsWith(bs: seq<Byte>, c: char) {
    var e := EncodeChar(c);
    && |e| <= |bs| && bs[0] == e[0]
    && (|e| > 1 ==> bs[1] == e[1]) && (|e| > 2 ==> bs[2] == e[2]) && (|e| > 3 ==> bs[3] == e[3])
  }

  lemma ShortCharDecodes(bs: seq<Byte>, c: char)
    requires StartsWith(bs, c) && c as int < 0x800
    ensures Announced(bs[0]) == Piece(bs) == |EncodeChar(c)| && DecodeChar(bs) == c
  {
    SixBits(c as int);
  }

  lemma ThreeByteCharDecodes(bs: seq<Byte>, c: char)
    requires StartsWith(bs, c) && 0x800 <= c as int < 0x1_0000
    ensures Announced(bs[0]) == Piece(bs) == |EncodeChar(c)| && DecodeChar(bs) == c
  {
    SixBits(c as int);
  }

  lemma FourByteCharDecodes(bs: seq<Byte>, c: char)
    requires StartsWith(bs, c) && c as int >= 0x1_0000
    ensures Announced(bs[0]) == Piece(bs) == |EncodeChar(c)| && DecodeChar(bs) == c
  {
    SixBits(c as int);
  }

  lemma EncodedCharDecodes(c: char, rest: seq<Byte>)
    ensures var bs := EncodeChar(c) + rest;
      Announced(bs[0]) == Piece(bs) == |EncodeChar(c)| && DecodeChar(bs) == c
  {
    hide EncodeChar, Piece, DecodeChar, Announced;
    var bs := EncodeChar(c) + rest;
    assert StartsWith(bs, c);
    if c as int < 0x800 {
      ShortCharDecodes(bs, c);
    } else if c as int < 0x1_0000 {
      ThreeByteCharDecodes(bs, c);
    } else {
      FourByteCharDecodes(bs, c);
    }
  }

  /** A character cut short is one piece and not a character. */
  lemma CutCharIsSkipped(c: char, k: nat)
    requires 0 < k < |EncodeChar(c)|
    ensures DecodeIgnore(EncodeChar(c)[..k]) == ""
  {
    var bs := EncodeChar(c)[..k];
    EncodedCharDecodes(c, []);
    assert EncodeChar(c) + [] == EncodeChar(c);
    assert bs[0] == EncodeChar(c)[0] && (k > 1 ==> bs[1] == EncodeChar(c)[1]) && (k > 2 ==> bs[2] == EncodeChar(c)[2]);
    assert Piece(bs) == k;
    assert bs[k..] == [];
  }

  /** How many whole characters of `s` fit in `n` bytes. */
  function Fitting(s: string, n: int): (m: nat)
    ensures m <= |s|
  {
    if s == "" || |EncodeChar(s[0])| > n then 0 else 1 + Fitting(s[1..], n - |EncodeChar(s[0])|)
  }

  lemma {:induction false} EncodeSplits(s: string, m: nat)
    requires m <= |s|
    ensures Encode(s) == Encode(s[..m]) + Encode(s[m..])
    ensures |Encode(s[m..])| >= |s| - m
  {
    hide EncodeChar;
    if m == 0 {
      assert s[..0] == "" && s[0..] == s;
      EncodeNoShorter(s);
    } else {
      EncodeSplits(s[1..], m - 1);
      assert s[..m][1..] == s[1..][..m - 1] && s[m..] == s[1..][m - 1..];
    }
  }

  lemma {:induction false} EncodeNoShorter(s: string)
    ensures |Encode(s)| >= |s|
  {
    if s != "" { EncodeNoShorter(s[1..]); }
  }

  /** `Fitting` is the longest: that many characters fit and one more does not. */
  lemma {:induction false} FittingIsLongest(s: string, n: nat, m: nat)
    requires m <= |s|
    ensures |Encode(s[..m])| <= n <==> m <= Fitting(s, n)
  {
    hide EncodeChar;
    if m > 0 {
      assert s[..m][0] == s[0] && s[..m][1..] == s[1..][..m - 1];
      if |EncodeChar(s[0])| <= n {
        FittingIsLongest(s[1..], n - |EncodeChar(s[0])|, m - 1);
      }
    }
  }

  /** Cutting the encoded text anywhere and decoding what is left gives the longest prefix of whole
      characters that fits. In particular decoding undoes encoding. */
  lemma {:induction false} CutAndDecode(s: string, n: nat)
    requires n <= |Encode(s)|
    ensures DecodeIgnore(Encode(s)[..n]) == s[..Fitting(s, n)]
  {
    hide EncodeChar, Piece, DecodeChar, Announced;
    if s != "" {
      var first := EncodeChar(s[0]);
      if |first| <= n {
        CutAndDecode(s[1..], n - |first|);
        var rest := Encode(s[1..])[..n - |first|];
        assert Encode(s)[..n] == first + rest;
        EncodedCharDecodes(s[0], rest);
        assert (first + rest)[|first|..] == rest;
        assert s[..Fitting(s, n)] == [s[0]] + s[1..][..Fitting(s[1..], n - |first|)];
      } else {
        assert Encode(s)[..n] == first[..n];
        if n > 0 { CutCharIsSkipped(s[0], n); }
      }
    }
  }

  lemma DecodeUndoesEncode(s: string)
    ensures DecodeIgnore(Encode(s)) == s
  {
    var n := |Encode(s)|;
    CutAndDecode(s, n);
    assert Encode(s)[..n] == Encode(s) && s[..|s|] == s;
    FittingIsLongest(s, n, |s|);
  }

  // ---------------------------------------------------------------- the cap

  function Max(a: int, b: int): int {
    if a >= b then a else b
  }

  /** `text.encode("utf-8")[:n]` for a non-negative `n` */
  function FirstBytes(bs: seq<Byte>, n: nat): seq<Byte> {
    if n <= |bs| then bs[..n] else bs
  }

  function TruncateToBytes(text: string, byteCap: int): string {
    var budget := Max(0, byteCap - |Encode(MARKER)|);
    DecodeIgnore(FirstBytes(Encode(text), budget)) + MARKER
  }

  function CapBody(out: string, byteCap: Option<int>): string {
    if byteCap.Some? && |Encode(out)| > byteCap.value then TruncateToBytes(out, byteCap.value) else out
  }

  lemma {:induction false} AsciiIsOneByte(s: string)
    requires forall i :: 0 <= i < |s| ==> s[i] as int < 0x80
    ensures |Encode(s)| == |s|
  {
    if s != "" { AsciiIsOneByte(s[1..]); }
  }

  lemma MarkerSize()
    ensures |Encode(MARKER)| == 18
  {
    hide Encode;
    AsciiIsOneByte(MARKER);
  }

  /** What is kept is the longest run of whole characters that leaves room for the marker; the result
      respects the cap exactly when the cap has room for the marker itself. */
  lemma TruncationKeepsLongestPrefix(text: string, byteCap: int)
    returns (m: nat)
    ensures m <= |text| && TruncateToBytes(text, byteCap) == text[..m] + MARKER
    ensures forall j :: 0 <= j <= |text| ==> (|Encode(text[..j])| <= Max(0, byteCap - 18) <==> j <= m)
    ensures |Encode(TruncateToBytes(text, byteCap))| <= byteCap <==> byteCap >= 18
  {
    hide Encode, DecodeIgnore, Fitting;
    var budget := Max(0, byteCap - 18);
    var cut := if budget <= |Encode(text)| then budget else |Encode(text)|;
    MarkerSize();
    m := Fitting(text, cut);
    CutAndDecode(text, cut);
    assert FirstBytes(Encode(text), budget) == Encode(text)[..cut];
    forall j: nat | j <= |text| ensures |Encode(text[..j])| <= budget <==> j <= m {
      FittingIsLongest(text, cut, j);
      EncodeSplits(text, j);
    }
    var r := text[..m] + MARKER;
    EncodeSplits(r, m);
    assert r[..m] == text[..m] && r[m..] == MARKER;
  }

  /** A capped body exceeds its cap only when it had to be cut and the cap is below the marker's size;
      a body that fits is left alone. */
  lemma CapHoldsIff(out: string, byteCap: int)
    ensures |Encode(CapBody(out, Some(byteCap)))| <= byteCap <==> |Encode(out)| <= byteCap || byteCap >= 18
    ensures |Encode(out)| <= byteCap ==> CapBody(out, Some(byteCap)) == out
  {
    var m := TruncationKeepsLongestPrefix(out, byteCap);
  }
}
