/**
  Stored paths. The database keeps a file name and a download directory as the
  hexadecimal encoding of the path's bytes; `path_or_none` turns such a column
  back into a path, or into nothing when the column is empty.
 */
module Hex {
  import opened Wrappers

  newtype byte = x: int | 0 <= x < 256

  /** What the hexadecimal decoder rejects. */
  datatype HexError = OddLength | NonHexDigit(c: char)

  /** The value of one hexadecimal digit; both letter cases are accepted. */
  function DigitValue(c: char): (r: Option<nat>)
    ensures r.Some? ==> r.value < 16
    ensures r.Some? <==> ('0' <= c <= '9' || 'a' <= c <= 'f' || 'A' <= c <= 'F')
  {
    if '0' <= c <= '9' then Some(c as nat - '0' as nat)
    else if 'a' <= c <= 'f' then Some(c as nat - 'a' as nat + 10)
    else if 'A' <= c <= 'F' then Some(c as nat - 'A' as nat + 10)
    else None
  }

  /** The lower-case digit for a value below 16. */
  function Digit(v: nat): (c: char)
    requires v < 16
    ensures DigitValue(c) == Some(v)
  {
    if v < 10 then ('0' as nat + v) as char else ('a' as nat + v - 10) as char
  }

  /** Decodes pairs of hexadecimal digits into bytes, high digit first. */
  function Unhexlify(s: string): (r: Result<seq<byte>, HexError>)
    ensures r.Success? ==> 2 * |r.value| == |s|
    ensures |s| % 2 == 1 ==> r == Failure(OddLength)
    decreases |s|
  {
    if |s| % 2 == 1 then Failure(OddLength)
    else if s == [] then Success([])
    else
      match (DigitValue(s[0]), DigitValue(s[1]))
      case (None, _) => Failure(NonHexDigit(s[0]))
      case (_, None) => Failure(NonHexDigit(s[1]))
      case (Some(hi), Some(lo)) =>
        match Unhexlify(s[2..])
        case Failure(e) => Failure(e)
        case Success(rest) => Success([(hi * 16 + lo) as byte] + rest)
  }

  /** The lower-case hexadecimal encoding of a byte string. */
  function Hexlify(b: seq<byte>): (s: string)
    ensures |s| == 2 * |b|
  {
    if b == [] then []
    else [Digit(b[0] as nat / 16), Digit(b[0] as nat % 16)] + Hexlify(b[1..])
  }

  /**
    Text of a byte string. The model reads each byte as the character with the
    same code, which agrees with UTF-8 on ASCII and is injective everywhere.
   */
  function Text(b: seq<byte>): (t: string)
    ensures |t| == |b|
    ensures forall i :: 0 <= i < |b| ==> t[i] as int == b[i] as int
  {
    seq(|b|, i requires 0 <= i < |b| => b[i] as char)
  }

  /** The bytes of a text whose characters all have codes below 256. */
  function Bytes(t: string): (b: seq<byte>)
    requires forall i :: 0 <= i < |t| ==> t[i] as int < 256
    ensures Text(b) == t
  {
    seq(|t|, i requires 0 <= i < |t| => t[i] as int as byte)
  }

  /** Python truthiness of an optional string: present and non-empty. */
  predicate Truthy(p: Option<string>)
  {
    p.Some? && p.value != []
  }

  /**
    `path_or_none`: nothing for an absent or empty column, otherwise the text of
    the hex-decoded bytes; malformed hexadecimal is an error.
   */
  function PathOrNone(p: Option<string>): (r: Result<Option<string>, HexError>)
    ensures r == Success(None) <==> !Truthy(p)
    ensures Truthy(p) && |p.value| % 2 == 1 ==> r == Failure(OddLength)
    ensures r.Success? && r.value.Some? ==> 2 * |r.value.value| == |p.value| && Truthy(r.value)
  {
    if !Truthy(p) then Success(None)
    else
      match Unhexlify(p.value)
      case Failure(e) => Failure(e)
      case Success(b) => Success(Some(Text(b)))
  }

  lemma {:induction false} UnhexlifyHexlify(b: seq<byte>)
    ensures Unhexlify(Hexlify(b)) == Success(b)
  {
    if b != [] {
      var s := Hexlify(b);
      var hi, lo := b[0] as nat / 16, b[0] as nat % 16;
      assert s[0] == Digit(hi) && s[1] == Digit(lo);
      assert s[2..] == Hexlify(b[1..]);
      UnhexlifyHexlify(b[1..]);
      assert (hi * 16 + lo) as byte == b[0];
      assert [b[0]] + b[1..] == b;
    }
  }

  /** A path stored by hex-encoding its text is read back unchanged. */
  lemma PathRoundTrip(path: string)
    requires path != []
    requires forall i :: 0 <= i < |path| ==> path[i] as int < 256
    ensures PathOrNone(Some(Hexlify(Bytes(path)))) == Success(Some(path))
  {
    UnhexlifyHexlify(Bytes(path));
  }

  /** A column holding a character that is not a hexadecimal digit is rejected. */
  lemma {:induction false} NonHexRejected(s: string, i: nat)
    requires |s| % 2 == 0 && i < |s|
    requires DigitValue(s[i]).None?
    ensures Unhexlify(s).Failure?
  {
    if i >= 2 {
      NonHexRejected(s[2..], i - 2);
    }
  }
}
