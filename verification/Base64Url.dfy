/** base64url without padding, sections 3.2 and 5 of RFC 4648: written strictly, read
    as leniently as Python's decoder does. */
module Base64Url {
  import opened Wrappers

  type Byte = x: int | 0 <= x < 256

  type Sextet = x: int | 0 <= x < 64

  function CharOf(v: Sextet): char {
    if v < 26 then 'A' + v as char
    else if v < 52 then 'a' + (v - 26) as char
    else if v < 62 then '0' + (v - 52) as char
    else if v == 62 then '-'
    else '_'
  }

  /** The value of a character, in either of the two alphabets; none of others. */
  function ValueOf(c: char): Option<Sextet> {
    if 'A' <= c <= 'Z' then Some(c as int - 'A' as int)
    else if 'a' <= c <= 'z' then Some(c as int - 'a' as int + 26)
    else if '0' <= c <= '9' then Some(c as int - '0' as int + 52)
    else if c == '-' || c == '+' then Some(62)
    else if c == '_' || c == '/' then Some(63)
    else None
  }

  /** A character of the strict alphabet: ASCII, and not the dot that ends a token's
      body. */
  predicate IsPlain(c: char) { c as int <= 127 && c != '.' }

  lemma CharHasValue(v: Sextet)
    ensures ValueOf(CharOf(v)) == Some(v) && CharOf(v) != '=' && IsPlain(CharOf(v))
  {
  }

  function First(a: Byte): Sextet { a / 4 }

  function Second(a: Byte, b: Byte): Sextet { a % 4 * 16 + b / 16 }

  function Third(b: Byte, c: Byte): Sextet { b % 16 * 4 + c / 64 }

  function Fourth(c: Byte): Sextet { c % 64 }

  function Encode(bytes: seq<Byte>): string {
    if bytes == [] then ""
    else if |bytes| == 1 then [CharOf(First(bytes[0])), CharOf(Second(bytes[0], 0))]
    else if |bytes| == 2 then
      [CharOf(First(bytes[0])), CharOf(Second(bytes[0], bytes[1])), CharOf(Third(bytes[1], 0))]
    else
      [CharOf(First(bytes[0])), CharOf(Second(bytes[0], bytes[1])), CharOf(Third(bytes[1], bytes[2])),
       CharOf(Fourth(bytes[2]))]
        + Encode(bytes[3..])
  }

  /** The bytes of a text from a place on: `quad` characters of a group are read, and
      `left` holds their bits not yet written. Characters of no value are passed over,
      and padding ends a group that is long enough. */
  function Read(s: string, quad: nat, left: nat, pads: nat): Option<seq<Byte>>
    requires quad < 4 && (quad == 1 ==> left < 64) && (quad == 2 ==> left < 16) && (quad == 3 ==> left < 4)
    decreases |s|
  {
    if s == "" then if quad == 0 then Some([]) else None
    else if s[0] == '=' then
      if quad >= 2 && quad + pads + 1 >= 4 then Some([])
      else Read(s[1..], quad, left, if quad >= 2 then pads + 1 else pads)
    else
      var v := ValueOf(s[0]);
      if v.None? then Read(s[1..], quad, left, pads)
      else if quad == 0 then Read(s[1..], 1, v.value, 0)
      else
        var (byte, bits) :=
          if quad == 1 then (left * 4 + v.value / 16, v.value % 16)
          else if quad == 2 then (left * 16 + v.value / 4, v.value % 4)
          else (left * 64 + v.value, 0);
        var rest := Read(s[1..], (quad + 1) % 4, bits, 0);
        if rest.None? then None else Some([byte] + rest.value)
  }

  function Equals(n: nat): string { if n == 0 then "" else "=" + Equals(n - 1) }

  /** What is missing to a whole number of groups is filled up. */
  function Padded(raw: string): string { raw + Equals((4 - |raw| % 4) % 4) }

  function Decode(raw: string): Option<seq<Byte>> {
    if exists i | 0 <= i < |raw| :: raw[i] as int > 127 then None else Read(Padded(raw), 0, 0, 0)
  }

  // ------------------------------------------------------------ the round trip

  lemma ReadFirst(v: Sextet, rest: string)
    ensures Read([CharOf(v)] + rest, 0, 0, 0) == Read(rest, 1, v, 0)
  {
    CharHasValue(v);
    assert ([CharOf(v)] + rest)[1..] == rest;
  }

  function After(byte: Byte, rest: Option<seq<Byte>>): Option<seq<Byte>> {
    if rest.None? then None else Some([byte] + rest.value)
  }

  lemma ReadSecond(a: Byte, b: Byte, rest: string)
    ensures Read([CharOf(Second(a, b))] + rest, 1, First(a), 0) == After(a, Read(rest, 2, b / 16, 0))
  {
    CharHasValue(Second(a, b));
    assert ([CharOf(Second(a, b))] + rest)[1..] == rest;
    assert First(a) * 4 + Second(a, b) / 16 == a && Second(a, b) % 16 == b / 16;
  }

  lemma ReadThird(b: Byte, c: Byte, rest: string)
    ensures Read([CharOf(Third(b, c))] + rest, 2, b / 16, 0) == After(b, Read(rest, 3, c / 64, 0))
  {
    CharHasValue(Third(b, c));
    assert ([CharOf(Third(b, c))] + rest)[1..] == rest;
    assert b / 16 * 16 + Third(b, c) / 4 == b && Third(b, c) % 4 == c / 64;
  }

  lemma ReadFourth(c: Byte, rest: string)
    ensures Read([CharOf(Fourth(c))] + rest, 3, c / 64, 0) == After(c, Read(rest, 0, 0, 0))
  {
    CharHasValue(Fourth(c));
    assert ([CharOf(Fourth(c))] + rest)[1..] == rest;
  }

  lemma ReadGroup(a: Byte, b: Byte, c: Byte, rest: string)
    ensures Read([CharOf(First(a)), CharOf(Second(a, b)), CharOf(Third(b, c)), CharOf(Fourth(c))] + rest, 0, 0, 0)
         == After(a, After(b, After(c, Read(rest, 0, 0, 0))))
  {
    var four := [CharOf(Fourth(c))] + rest;
    var three := [CharOf(Third(b, c))] + four;
    var two := [CharOf(Second(a, b))] + three;
    assert [CharOf(First(a)), CharOf(Second(a, b)), CharOf(Third(b, c)), CharOf(Fourth(c))] + rest ==
      [CharOf(First(a))] + two;
    ReadFirst(First(a), two);
    ReadSecond(a, b, three);
    ReadThird(b, c, four);
    ReadFourth(c, rest);
  }

  /** The padding put back after one byte, and after two. */
  lemma ReadTwoEquals(left: nat)
    requires left < 16
    ensures Read("==", 2, left, 0) == Some([])
  {
    assert "=="[1..] == "=";
  }

  lemma ReadOneEquals(left: nat)
    requires left < 4
    ensures Read("=", 3, left, 0) == Some([])
  {
  }

  lemma AfterNone(a: Byte)
    ensures After(a, Some([])) == Some([a])
  {
    var none: seq<Byte> := [];
    assert [a] + none == [a];
  }

  lemma ReadOne(a: Byte)
    ensures Read(Padded(Encode([a])), 0, 0, 0) == Some([a])
  {
    var zero: Byte := 0;
    var two := [CharOf(Second(a, zero))] + "==";
    assert Equals(2) == "=" + Equals(1) && Equals(1) == "=";
    assert Padded(Encode([a])) == [CharOf(First(a))] + two;
    ReadFirst(First(a), two);
    ReadSecond(a, zero, "==");
    ReadTwoEquals(zero / 16);
    AfterNone(a);
  }

  lemma ReadTwo(a: Byte, b: Byte)
    ensures Read(Padded(Encode([a, b])), 0, 0, 0) == Some([a, b])
  {
    var zero: Byte := 0;
    var three := [CharOf(Third(b, zero))] + "=";
    var two := [CharOf(Second(a, b))] + three;
    assert Equals(1) == "=";
    assert Padded(Encode([a, b])) == [CharOf(First(a))] + two;
    ReadFirst(First(a), two);
    ReadSecond(a, b, three);
    ReadThird(b, zero, "=");
    ReadOneEquals(zero / 64);
    AfterNone(b);
    assert [a] + [b] == [a, b];
  }

  lemma PaddedGroup(group: string, rest: string)
    requires |group| == 4
    ensures Padded(group + rest) == group + Padded(rest)
  {
  }

  /** Stripping the padding and putting it back loses nothing, for every byte string. */
  lemma {:induction false} ReadEncoded(bytes: seq<Byte>)
    ensures Read(Padded(Encode(bytes)), 0, 0, 0) == Some(bytes)
    decreases |bytes|
  {
    if bytes == [] {
      assert Padded("") == "";
    } else if |bytes| == 1 {
      ReadOne(bytes[0]);
      assert bytes == [bytes[0]];
    } else if |bytes| == 2 {
      ReadTwo(bytes[0], bytes[1]);
      assert bytes == [bytes[0], bytes[1]];
    } else {
      var a, b, c, rest := bytes[0], bytes[1], bytes[2], bytes[3..];
      ReadEncoded(rest);
      PaddedGroup([CharOf(First(a)), CharOf(Second(a, b)), CharOf(Third(b, c)), CharOf(Fourth(c))], Encode(rest));
      ReadGroup(a, b, c, Padded(Encode(rest)));
      assert bytes == [a] + ([b] + ([c] + rest));
    }
  }

  lemma {:induction false} EncodedIsPlain(bytes: seq<Byte>)
    ensures forall i | 0 <= i < |Encode(bytes)| :: IsPlain(Encode(bytes)[i])
    decreases |bytes|
  {
    if bytes != [] {
      CharHasValue(First(bytes[0]));
      CharHasValue(Second(bytes[0], if |bytes| == 1 then 0 else bytes[1]));
      if |bytes| > 1 {
        CharHasValue(Third(bytes[1], if |bytes| == 2 then 0 else bytes[2]));
      }
      if |bytes| > 2 {
        CharHasValue(Fourth(bytes[2]));
        EncodedIsPlain(bytes[3..]);
      }
    }
  }

  lemma DecodeEncoded(bytes: seq<Byte>)
    ensures Decode(Encode(bytes)) == Some(bytes)
  {
    ReadEncoded(bytes);
    EncodedIsPlain(bytes);
  }
}
