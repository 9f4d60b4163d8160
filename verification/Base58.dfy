/** The wallet service's base58 encoder (cmd/wallet-service/main.go) and the standard decoder. */
module Base58 {
  import opened Bytes
  import opened Positional

  /** The alphabet, by its runs of consecutive characters. */
  const ALPHABET: string := "123456789" + "ABCDEFGH" + "JKLMN" + "PQRSTUVWXYZ" + "abcdefghijk" + "mnopqrstuvwxyz"

  function CharOf(d: nat): (r: char)
    requires d < 58
  {
    if d < 9 then ('1' as int + d) as char
    else if d < 17 then ('A' as int + d - 9) as char
    else if d < 22 then ('J' as int + d - 17) as char
    else if d < 33 then ('P' as int + d - 22) as char
    else if d < 44 then ('a' as int + d - 33) as char
    else ('m' as int + d - 44) as char
  }

  /** `run` is consecutive characters from `first`. */
  predicate Consecutive(run: string, first: char) {
    forall i :: 0 <= i < |run| ==> run[i] as int == first as int + i
  }

  /** The arithmetic form agrees with the alphabet text. */
  lemma AlphabetText(d: nat)
    requires d < 58
    ensures |ALPHABET| == 58 && ALPHABET[d] == CharOf(d)
  {
    var a, b, c := "123456789", "ABCDEFGH", "JKLMN";
    var e, f, g := "PQRSTUVWXYZ", "abcdefghijk", "mnopqrstuvwxyz";
    assert Consecutive(a, '1') && Consecutive(b, 'A') && Consecutive(c, 'J');
    assert Consecutive(e, 'P') && Consecutive(f, 'a') && Consecutive(g, 'm');
    assert ALPHABET == a + b + c + e + f + g;
  }

  predicate InAlphabet(c: char) {
    '1' <= c <= '9' || 'A' <= c <= 'H' || 'J' <= c <= 'N' || 'P' <= c <= 'Z' || 'a' <= c <= 'k' || 'm' <= c <= 'z'
  }

  function DigitOf(c: char): (r: nat)
    requires InAlphabet(c)
    ensures r < 58
  {
    if c <= '9' then c as int - '1' as int
    else if c <= 'H' then c as int - 'A' as int + 9
    else if c <= 'N' then c as int - 'J' as int + 17
    else if c <= 'Z' then c as int - 'P' as int + 22
    else if c <= 'k' then c as int - 'a' as int + 33
    else c as int - 'm' as int + 44
  }

  lemma CharDigit(d: nat)
    requires d < 58
    ensures InAlphabet(CharOf(d)) && DigitOf(CharOf(d)) == d
  {
  }

  lemma DigitChar(c: char)
    requires InAlphabet(c)
    ensures CharOf(DigitOf(c)) == c
  {
  }

  function Chars(d: seq<nat>): (r: string)
    requires DigitsOf(d, 58)
    ensures |r| == |d|
  {
    seq(|d|, i requires 0 <= i < |d| => CharOf(d[i]))
  }

  function Digits(text: string): (r: seq<nat>)
    requires Valid(text)
    ensures |r| == |text| && DigitsOf(r, 58)
  {
    seq(|text|, i requires 0 <= i < |text| => DigitOf(text[i]))
  }

  predicate Valid(text: string) {
    forall i :: 0 <= i < |text| ==> InAlphabet(text[i])
  }

  lemma CharsRoundTrip(d: seq<nat>)
    requires DigitsOf(d, 58)
    ensures Valid(Chars(d)) && Digits(Chars(d)) == d
  {
    forall i | 0 <= i < |d| ensures InAlphabet(Chars(d)[i]) && DigitOf(Chars(d)[i]) == d[i] {
      CharDigit(d[i]);
    }
  }

  lemma DigitsRoundTripChars(text: string)
    requires Valid(text)
    ensures Chars(Digits(text)) == text
  {
    forall i | 0 <= i < |text| ensures Chars(Digits(text))[i] == text[i] {
      DigitChar(text[i]);
    }
  }

  /** Big-endian value of a byte string. */
  function ValueOf(data: seq<Byte>): (r: nat) {
    FromDigits(Reversed<nat>(data), 256)
  }

  /** One '1' per leading zero byte, then the value in base 58, most significant digit first. */
  function Encode(data: seq<Byte>): (r: string) {
    Repeat('1', Leading<nat>(data, 0)) + Chars(Reversed<nat>(ToDigits(ValueOf(data), 58)))
  }

  /** The standard decoder: leading '1's are zero bytes, the rest is a base-58 number. */
  function Decode(text: string): (r: Option<seq<Byte>>) {
    if !Valid(text) then None else
      Some(Repeat<nat>(0, Leading(text, '1')) + ToBytes(FromDigits(Reversed<nat>(Digits(text)), 58)))
  }

  /** Minimal big-endian bytes. */
  function ToBytes(v: nat): (r: seq<Byte>)
    ensures |r| == |ToDigits(v, 256)|
  {
    var d := ToDigits(v, 256);
    seq(|d|, i requires 0 <= i < |d| => d[|d| - 1 - i])
  }

  // ----- Leading zeros carry no value -----

  lemma {:induction false} TopZeros(d: seq<nat>, n: nat, base: nat)
    ensures FromDigits(d + Repeat<nat>(0, n), base) == FromDigits(d, base)
    decreases |d| + n
  {
    if d == [] {
      if n > 0 {
        assert (d + Repeat<nat>(0, n))[1..] == [] + Repeat<nat>(0, n - 1);
        TopZeros([], n - 1, base);
        assert FromDigits([] + Repeat<nat>(0, n - 1), base) == 0;
        assert base * 0 == 0;
      } else {
        assert d + Repeat<nat>(0, n) == d;
      }
    } else {
      assert (d + Repeat<nat>(0, n))[1..] == d[1..] + Repeat<nat>(0, n);
      TopZeros(d[1..], n, base);
    }
  }

  /** A number written most significant digit first, after its leading zeros. */
  lemma StripZeros(s: seq<nat>, base: nat)
    requires 2 <= base && DigitsOf(s, base)
    ensures var rest := s[Leading<nat>(s, 0)..];
            FromDigits(Reversed<nat>(s), base) == FromDigits(Reversed<nat>(rest), base) &&
            DigitsOf(Reversed<nat>(rest), base) && Trimmed(Reversed<nat>(rest)) &&
            ToDigits(FromDigits(Reversed<nat>(s), base), base) == Reversed<nat>(rest)
  {
    var n := Leading<nat>(s, 0);
    var rest := s[n..];
    assert Reversed<nat>(s) == Reversed<nat>(rest) + Repeat<nat>(0, n);
    TopZeros(Reversed<nat>(rest), n, base);
    TrimmedRoundTrip(Reversed<nat>(rest), base);
  }

  lemma ToBytesIsReversed(v: nat)
    ensures ToBytes(v) == Reversed<nat>(ToDigits(v, 256))
  {
  }

  lemma AsNats(data: seq<Byte>)
    ensures DigitsOf(data, 256)
  {
  }

  /** The numeral part of an encoding never starts with '1'. */
  lemma NumeralHead(v: nat)
    ensures var body := Chars(Reversed<nat>(ToDigits(v, 58)));
            body == "" || body[0] != '1'
  {
    var d := ToDigits(v, 58);
    ToDigitsTrimmed(v, 58);
    if d != [] {
      CharDigit(d[|d| - 1]);
      CharDigit(0);
    }
  }

  /** Leading zero bytes and leading '1's correspond one to one: none is lost and none is added. */
  lemma LeadingOnes(data: seq<Byte>)
    ensures Leading(Encode(data), '1') == Leading<nat>(data, 0)
  {
    NumeralHead(ValueOf(data));
    LeadingOf('1', Leading<nat>(data, 0), Chars(Reversed<nat>(ToDigits(ValueOf(data), 58))));
  }

  lemma ValidJoin(a: string, b: string)
    requires Valid(a) && Valid(b)
    ensures Valid(a + b) && Digits(a + b) == Digits(a) + Digits(b)
  {
  }

  lemma OnesAreZeros(n: nat)
    ensures Valid(Repeat('1', n)) && Digits(Repeat('1', n)) == Repeat<nat>(0, n)
  {
  }

  /** Decoding `n` ones followed by a numeral. */
  lemma DecodeNumeral(n: nat, v: nat)
    ensures Decode(Repeat('1', n) + Chars(Reversed<nat>(ToDigits(v, 58)))) == Some(Repeat<nat>(0, n) + ToBytes(v))
  {
    hide ToDigits, FromDigits, ToBytes, Leading, Chars, Digits, Valid;
    var d := ToDigits(v, 58);
    var ones, body := Repeat('1', n), Chars(Reversed<nat>(d));
    OnesAreZeros(n);
    CharsRoundTrip(Reversed<nat>(d));
    ValidJoin(ones, body);
    NumeralHead(v);
    LeadingOf('1', n, body);
    ReversedJoin(n, d);
    TopZeros(d, n, 58);
    DigitsRoundTrip(v, 58);
  }

  lemma ReversedJoin(n: nat, d: seq<nat>)
    ensures Reversed<nat>(Repeat<nat>(0, n) + Reversed<nat>(d)) == d + Repeat<nat>(0, n)
  {
  }

  /** A byte string is its leading zeros followed by the minimal bytes of its value. */
  lemma BytesOfValue(data: seq<Byte>)
    ensures data == Repeat<nat>(0, Leading<nat>(data, 0)) + ToBytes(ValueOf(data))
  {
    hide ToDigits, FromDigits;
    var n := Leading<nat>(data, 0);
    AsNats(data);
    StripZeros(data, 256);
    ToBytesIsReversed(ValueOf(data));
    ReversedTwice<nat>(data[n..]);
    LeadingSplit<nat>(data, 0);
  }

  /** Decoding an encoding gives back every byte string. */
  lemma DecodeEncode(data: seq<Byte>)
    ensures Decode(Encode(data)) == Some(data)
  {
    hide Decode, ToDigits, ToBytes, ValueOf;
    DecodeNumeral(Leading<nat>(data, 0), ValueOf(data));
    BytesOfValue(data);
  }

  /** The number a digit string stands for, most significant digit first. */
  function BigEndian(d: seq<nat>, base: nat): (r: nat) {
    if d == [] then 0 else base * BigEndian(d[..|d| - 1], base) + d[|d| - 1]
  }

  lemma {:induction false} BigEndianIs(d: seq<nat>, base: nat)
    ensures BigEndian(d, base) == FromDigits(Reversed<nat>(d), base)
    decreases |d|
  {
    if d != [] {
      var n := |d| - 1;
      BigEndianIs(d[..n], base);
      assert Reversed<nat>(d)[1..] == Reversed<nat>(d[..n]);
    }
  }

  /** The text is the same number as the bytes, in base 58 instead of 256. */
  lemma SameNumber(data: seq<Byte>)
    ensures Valid(Encode(data)) && BigEndian(Digits(Encode(data)), 58) == BigEndian(data, 256)
  {
    hide FromDigits, ToDigits, Reversed, Chars, Digits, Valid, BigEndian;
    var ones, d := Repeat('1', Leading<nat>(data, 0)), ToDigits(ValueOf(data), 58);
    BigEndianIs(data, 256);
    OnesAreZeros(Leading<nat>(data, 0));
    ReversedDigits(d);
    CharsRoundTrip(Reversed<nat>(d));
    ValidJoin(ones, Chars(Reversed<nat>(d)));
    BigEndianIs(Digits(ones + Chars(Reversed<nat>(d))), 58);
    ReversedJoin(Leading<nat>(data, 0), d);
    TopZeros(d, Leading<nat>(data, 0), 58);
    DigitsRoundTrip(ValueOf(data), 58);
  }

  lemma ReversedDigits(d: seq<nat>)
    requires DigitsOf(d, 58)
    ensures DigitsOf(Reversed<nat>(d), 58)
  {
  }

  /** Two zero bytes and 256: two ones, then 4 * 58 + 24. */
  lemma EncodeExample()
    ensures Encode([0, 0, 1, 0]) == "115R"
  {
    var data: seq<Byte> := [0, 0, 1, 0];
    SmallNumbers();
    LeadingIs(data, 2);
    NumberOf(data);
    hide Leading, ToDigits, FromDigits, ValueOf, BigEndian;
    assert Reversed<nat>([24, 4]) == [4, 24];
    assert Chars([4, 24]) == "5R";
    assert Repeat('1', 2) == "11";
  }

  lemma NumberOf(data: seq<Byte>)
    requires data == [0, 0, 1, 0]
    ensures ValueOf(data) == 256
  {
    hide FromDigits, Reversed;
    BigEndianIs(data, 256);
    assert data[..3] == [0, 0, 1] && data[..3][..2] == [0, 0] && data[..3][..2][..1] == [0] && data[..3][..2][..1][..0] == [];
    assert BigEndian([0, 0, 1, 0], 256) == 256 * BigEndian([0, 0, 1], 256) + 0;
    assert BigEndian([0, 0, 1], 256) == 256 * BigEndian([0, 0], 256) + 1;
    assert BigEndian([0, 0], 256) == 256 * BigEndian([0], 256) + 0;
    assert BigEndian([0], 256) == 256 * BigEndian([], 256) + 0;
  }

  lemma SmallNumbers()
    ensures ToDigits(256, 58) == [24, 4]
  {
    DigitsStep(256);
    DigitsStep(4);
    NoDigits();
    assert [24] + ([4] + []) == [24, 4];
  }

  lemma OnesWhereZeros(text: string)
    requires Valid(text)
    ensures Leading<nat>(Digits(text), 0) == Leading(text, '1')
  {
    var d, n := Digits(text), Leading(text, '1');
    forall i | 0 <= i < |text| ensures text[i] == '1' <==> d[i] == 0 {
      DigitChar(text[i]);
    }
    LeadingSame(d, 0, n);
  }

  /** A valid text is its leading ones followed by the numeral of its value. */
  lemma TextOfValue(text: string)
    requires Valid(text)
    ensures var v := FromDigits(Reversed<nat>(Digits(text)), 58);
            text == Repeat('1', Leading(text, '1')) + Chars(Reversed<nat>(ToDigits(v, 58)))
  {
    hide ToDigits, FromDigits, Digits, Chars, Valid, Leading, Reversed;
    var d, n := Digits(text), Leading(text, '1');
    OnesWhereZeros(text);
    StripZeros(d, 58);
    ReversedTwice<nat>(d[n..]);
    DigitsRoundTripChars(text);
    CharsSuffix(d, n);
    LeadingSplit(text, '1');
  }

  lemma CharsSuffix(d: seq<nat>, n: nat)
    requires DigitsOf(d, 58) && n <= |d|
    ensures Chars(d[n..]) == Chars(d)[n..]
  {
  }

  /** Encoding `n` zero bytes followed by minimal bytes. */
  lemma EncodeBytes(n: nat, v: nat)
    ensures Encode(Repeat<nat>(0, n) + ToBytes(v)) == Repeat('1', n) + Chars(Reversed<nat>(ToDigits(v, 58)))
  {
    hide ToDigits, FromDigits, Leading, Chars;
    var bytes := ToBytes(v);
    ToBytesIsReversed(v);
    ToDigitsTrimmed(v, 256);
    LeadingOf<nat>(0, n, bytes);
    var data := Repeat<nat>(0, n) + bytes;
    assert Reversed<nat>(data) == ToDigits(v, 256) + Repeat<nat>(0, n);
    TopZeros(ToDigits(v, 256), n, 256);
    DigitsRoundTrip(v, 256);
  }

  /** Encoding a decoding gives back every valid text, so distinct texts decode to distinct bytes. */
  lemma EncodeDecode(text: string)
    requires Valid(text)
    ensures Encode(Decode(text).value) == text
  {
    hide Encode, ToDigits, FromDigits, ToBytes, Valid;
    TextOfValue(text);
    EncodeBytes(Leading(text, '1'), FromDigits(Reversed<nat>(Digits(text)), 58));
  }

  lemma LeadingSame(s: seq<nat>, x: nat, n: nat)
    requires n <= |s| && (forall i :: 0 <= i < n ==> s[i] == x) && (n < |s| ==> s[n] != x)
    ensures Leading<nat>(s, x) == n
  {
  }

  lemma DecodeInjective(a: string, b: string)
    requires Decode(a).Some? && Decode(a) == Decode(b)
    ensures a == b
  {
    EncodeDecode(a);
    EncodeDecode(b);
  }

  // ----- The encoder's loops -----

  method ReverseInPlace(a: array<char>)
    modifies a
    ensures a[..] == Reversed<char>(old(a[..]))
  {
    var n := a.Length;
    var i, j := 0, n - 1;
    while i < j
      invariant 0 <= i <= n && j == n - 1 - i && -1 <= j
      invariant i <= j + 1
      invariant forall k :: 0 <= k < i || j < k < n ==> a[k] == old(a[n - 1 - k])
      invariant forall k :: i <= k <= j ==> a[k] == old(a[k])
    {
      a[i], a[j] := a[j], a[i];
      i, j := i + 1, j - 1;
    }
    assert forall k :: 0 <= k < n ==> a[k] == old(a[n - 1 - k]);
  }

  /** `base58Encode`. */
  method Base58Encode(data: seq<Byte>) returns (text: string)
    ensures text == Encode(data)
  {
    hide ToDigits, FromDigits;
    if |data| == 0 {
      EncodeNothing();
      return "";
    }
    var zeroCount := 0;
    while zeroCount < |data| && data[zeroCount] == 0
      invariant 0 <= zeroCount <= |data|
      invariant forall i :: 0 <= i < zeroCount ==> data[i] == 0
    {
      zeroCount := zeroCount + 1;
    }
    LeadingIs(data, zeroCount);
    var result := NumeralOf(ValueOf(data));
    ghost var numeral := result;
    for i := 0 to zeroCount
      invariant result == numeral + Repeat('1', i)
    {
      AlphabetText(0);
      result := result + [ALPHABET[0]];
    }
    var buffer := new char[|result|](i requires 0 <= i < |result| => result[i]);
    assert buffer[..] == result;
    ReverseInPlace(buffer);
    text := buffer[..];
    ReverseEncoding(ToDigits(ValueOf(data), 58), zeroCount);
  }

  lemma ReverseEncoding(digits: seq<nat>, n: nat)
    requires DigitsOf(digits, 58)
    ensures DigitsOf(Reversed<nat>(digits), 58)
    ensures Reversed<char>(Chars(digits) + Repeat('1', n)) == Repeat('1', n) + Chars(Reversed<nat>(digits))
  {
  }

  /** The division loop: base-58 characters, least significant first. */
  method NumeralOf(v: nat) returns (result: string)
    ensures result == Chars(ToDigits(v, 58))
  {
    hide ToDigits, FromDigits;
    result := [];
    var value := v;
    ghost var done: seq<nat> := [];
    while value > 0
      invariant DigitsOf(done, 58) && result == Chars(done)
      invariant ToDigits(v, 58) == done + ToDigits(value, 58)
      decreases value
    {
      DigitsStep(value);
      var mod := value % 58;
      AlphabetText(mod);
      result := result + [ALPHABET[mod]];
      done := done + [mod];
      value := value / 58;
    }
    NoDigits();
    assert done + [] == done;
  }

  lemma LeadingIs(data: seq<Byte>, n: nat)
    requires n <= |data| && (forall i :: 0 <= i < n ==> data[i] == 0) && (n < |data| ==> data[n] != 0)
    ensures Leading<nat>(data, 0) == n
  {
  }

  lemma DigitsStep(v: nat)
    requires v > 0
    ensures v / 58 < v && ToDigits(v, 58) == [v % 58] + ToDigits(v / 58, 58)
  {
  }

  lemma NoDigits()
    ensures ToDigits(0, 58) == []
  {
  }

  lemma EncodeNothing()
    ensures Encode([]) == ""
  {
  }
}
