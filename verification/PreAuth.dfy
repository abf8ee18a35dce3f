// The pre-authentication encoding (dsse/dsse.go). A Go string is a sequence of bytes, and so is the payload.
module PreAuth {
  import opened Options

  newtype Byte = b: int | 0 <= b < 256

  type Bytes = seq<Byte>

  const SP: Byte := 32
  const VERSION: Bytes := [68, 83, 83, 69, 118, 49]  // "DSSEv1"

  // ---- decimal numbers ------------------------------------------------------------------------

  predicate IsDigit(b: Byte) {
    48 <= b <= 57
  }

  /** What %d prints for a length. */
  function Decimal(n: nat): Bytes {
    if n < 10 then [(48 + n) as Byte] else Decimal(n / 10) + [(48 + n % 10) as Byte]
  }

  function ParseDecimal(s: Bytes): nat
    requires forall i :: 0 <= i < |s| ==> IsDigit(s[i])
  {
    if s == [] then 0 else
      assert IsDigit(s[|s| - 1]);
      ParseDecimal(s[..|s| - 1]) * 10 + (s[|s| - 1] as int - 48)
  }

  lemma {:induction false} DecimalRoundTrip(n: nat)
    ensures Decimal(n) != []
    ensures forall i :: 0 <= i < |Decimal(n)| ==> IsDigit(Decimal(n)[i])
    ensures ParseDecimal(Decimal(n)) == n
  {
    if n < 10 {
      assert Decimal(n)[..0] == [];
    } else {
      DecimalRoundTrip(n / 10);
      assert Decimal(n)[..|Decimal(n)| - 1] == Decimal(n / 10);
    }
  }

  // ---- encoding -------------------------------------------------------------------------------

  /** One length-prefixed field: LEN SP bytes. */
  function Field(data: Bytes): Bytes {
    Decimal(|data|) + [SP] + data
  }

  function PreauthEncode(bodyType: Bytes, body: Bytes): Bytes {
    VERSION + [SP] + Decimal(|bodyType|) + [SP] + bodyType + [SP] + Decimal(|body|) + [SP] + body
  }

  // ---- decoding -------------------------------------------------------------------------------

  /** The length of the longest prefix made of digits. */
  function DigitRun(s: Bytes): (n: nat)
    ensures n <= |s|
    ensures forall i :: 0 <= i < n ==> IsDigit(s[i])
    ensures n < |s| ==> !IsDigit(s[n])
  {
    if s == [] || !IsDigit(s[0]) then 0 else 1 + DigitRun(s[1..])
  }

  /** Reads LEN SP bytes off the front, and gives back the bytes and what follows. Only the printed form of LEN is taken. */
  function TakeField(s: Bytes): Option<(Bytes, Bytes)> {
    var n := DigitRun(s);
    var len := ParseDecimal(s[..n]);
    if s[..n] == Decimal(len) && n < |s| && s[n] == SP && n + 1 + len <= |s|
    then Some((s[n + 1..n + 1 + len], s[n + 1 + len..]))
    else None
  }

  function PreauthDecode(s: Bytes): Option<(Bytes, Bytes)> {
    if |s| < 7 || s[..7] != VERSION + [SP] then None else
    match TakeField(s[7..])
    case None => None
    case Some((bodyType, rest)) =>
      if rest == [] || rest[0] != SP then None else
      match TakeField(rest[1..])
      case None => None
      case Some((body, end)) => if end == [] then Some((bodyType, body)) else None
  }

  // ---- the two are inverse --------------------------------------------------------------------

  lemma {:induction false} DigitRunIs(s: Bytes, n: nat)
    requires n < |s| && (forall i :: 0 <= i < n ==> IsDigit(s[i])) && !IsDigit(s[n])
    ensures DigitRun(s) == n
  {
    if n > 0 {
      DigitRunIs(s[1..], n - 1);
    }
  }

  lemma TakeFieldReadsField(data: Bytes, rest: Bytes)
    ensures TakeField(Field(data) + rest) == Some((data, rest))
  {
    var s := Field(data) + rest;
    var n := |Decimal(|data|)|;
    DecimalRoundTrip(|data|);
    assert s[..n] == Decimal(|data|);
    assert forall i :: 0 <= i < n ==> s[i] == Decimal(|data|)[i];
    assert s[n] == SP;
    DigitRunIs(s, n);
    assert s[n + 1..n + 1 + |data|] == data;
    assert s[n + 1 + |data|..] == rest;
  }

  lemma TakeFieldOnlyReadsFields(s: Bytes)
    requires TakeField(s).Some?
    ensures s == Field(TakeField(s).value.0) + TakeField(s).value.1
  {
    var n := DigitRun(s);
    var len := ParseDecimal(s[..n]);
    assert s == s[..n] + [s[n]] + s[n + 1..n + 1 + len] + s[n + 1 + len..];
  }

  lemma EncodingIsTwoFields(bodyType: Bytes, body: Bytes)
    ensures PreauthEncode(bodyType, body) == VERSION + [SP] + (Field(bodyType) + ([SP] + (Field(body) + [])))
  {
  }

  /** Every type and body, digits and spaces included, is read back from its encoding. */
  lemma DecodeEncode(bodyType: Bytes, body: Bytes)
    ensures PreauthDecode(PreauthEncode(bodyType, body)) == Some((bodyType, body))
  {
    EncodingIsTwoFields(bodyType, body);
    var s := PreauthEncode(bodyType, body);
    var rest := [SP] + (Field(body) + []);
    assert s[..7] == VERSION + [SP] && s[7..] == Field(bodyType) + rest;
    TakeFieldReadsField(bodyType, rest);
    assert rest[1..] == Field(body) + [];
    TakeFieldReadsField(body, []);
  }

  /** The decoder takes nothing but encodings. */
  lemma EncodeDecode(s: Bytes)
    ensures PreauthDecode(s).Some? ==> PreauthEncode(PreauthDecode(s).value.0, PreauthDecode(s).value.1) == s
  {
    if PreauthDecode(s).Some? {
      var bodyType, body := PreauthDecode(s).value.0, PreauthDecode(s).value.1;
      var rest := TakeField(s[7..]).value.1;
      TakeFieldOnlyReadsFields(s[7..]);
      TakeFieldOnlyReadsFields(rest[1..]);
      assert rest == [SP] + rest[1..];
      assert s == s[..7] + s[7..];
      EncodingIsTwoFields(bodyType, body);
    }
  }

  function Ascii(s: string): Bytes {
    seq(|s|, i requires 0 <= i < |s| => if s[i] < 256 as char then s[i] as Byte else 0)
  }

  /** The example in the description of the protocol, "DSSEv1 29 http://example.com/HelloWorld 11 hello world". */
  lemma ProtocolExample()
    ensures PreauthEncode(Ascii("http://example.com/HelloWorld"), Ascii("hello world"))
      == Ascii("DSSEv1 29 ") + Ascii("http://example.com/HelloWorld") + Ascii(" 11 ") + Ascii("hello world")
  {
    assert |"http://example.com/HelloWorld"| == 29 && |"hello world"| == 11;
    assert Decimal(29) == Decimal(2) + [57] == [50, 57] && Decimal(11) == Decimal(1) + [49] == [49, 49];
    assert Ascii("DSSEv1 29 ") == VERSION + [SP] + Decimal(29) + [SP];
    assert Ascii(" 11 ") == [SP] + Decimal(11) + [SP];
  }

  /** So a signature over an encoding says which type and body were signed. */
  lemma EncodingIsInjective(type1: Bytes, body1: Bytes, type2: Bytes, body2: Bytes)
    ensures PreauthEncode(type1, body1) == PreauthEncode(type2, body2) <==> type1 == type2 && body1 == body2
  {
    DecodeEncode(type1, body1);
    DecodeEncode(type2, body2);
  }
}
