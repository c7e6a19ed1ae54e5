/** URL-safe base64 (section 5 of RFC 4648) with the padding taken off and put back. */
module Base64 {
  import opened Clock

  newtype byte = x: int | 0 <= x < 256
  newtype sextet = x: int | 0 <= x < 64

  function Letter(v: sextet): (c: char)
    ensures c != '='
  {
    if v < 26 then 'A' + v as char
    else if v < 52 then 'a' + (v - 26) as char
    else if v < 62 then '0' + (v - 52) as char
    else if v == 62 then '-' else '_'
  }

  function Value(c: char): Option<sextet> {
    if 'A' <= c <= 'Z' then Some((c as int - 65) as sextet)
    else if 'a' <= c <= 'z' then Some((c as int - 71) as sextet)
    else if '0' <= c <= '9' then Some((c as int + 4) as sextet)
    else if c == '-' then Some(62)
    else if c == '_' then Some(63)
    else None
  }

  lemma ValueOfLetter(v: sextet)
    ensures Value(Letter(v)) == Some(v)
  {
  }

  /** Three bytes as four letters. */
  function Quad(a: byte, b: byte, c: byte): (q: string)
    ensures |q| == 4 && forall i | 0 <= i < 4 :: q[i] != '='
  {
    var x, y, z := a as int, b as int, c as int;
    [Letter((x / 4) as sextet), Letter((x % 4 * 16 + y / 16) as sextet),
     Letter((y % 16 * 4 + z / 64) as sextet), Letter((z % 64) as sextet)]
  }

  /** Four letters for each three bytes; the last group filled up with "=". */
  function Encode(bytes: seq<byte>): string {
    if |bytes| == 0 then ""
    else if |bytes| == 1 then Quad(bytes[0], 0, 0)[..2] + "=="
    else if |bytes| == 2 then Quad(bytes[0], bytes[1], 0)[..3] + "="
    else Quad(bytes[0], bytes[1], bytes[2]) + Encode(bytes[3..])
  }

  function TrimEquals(s: string): string {
    if s != "" && s[|s| - 1] == '=' then TrimEquals(s[..|s| - 1]) else s
  }

  /** As many "=" as Python's -len % 4. */
  function Pad(s: string): string {
    s + seq(-|s| % 4, _ => '=')
  }

  function First(p: sextet, q: sextet): byte {
    (p as int * 4 + q as int / 16) as byte
  }

  function Second(q: sextet, r: sextet): byte {
    (q as int % 16 * 16 + r as int / 4) as byte
  }

  function Third(r: sextet, s: sextet): byte {
    (r as int % 4 * 64 + s as int) as byte
  }

  function Decode(s: string): Option<seq<byte>> {
    if s == "" then Some([])
    else if |s| < 4 || Value(s[0]).None? || Value(s[1]).None? then None
    else
      var p, q := Value(s[0]).value, Value(s[1]).value;
      if |s| == 4 && s[2] == '=' && s[3] == '=' then Some([First(p, q)])
      else if Value(s[2]).None? then None
      else
        var r := Value(s[2]).value;
        if |s| == 4 && s[3] == '=' then Some([First(p, q), Second(q, r)])
        else if Value(s[3]).None? then None
        else
          match Decode(s[4..])
          case None => None
          case Some(rest) => Some([First(p, q), Second(q, r), Third(r, Value(s[3]).value)] + rest)
  }

  lemma PadAfter(head: string, s: string)
    requires |head| == 4
    ensures Pad(head + s) == head + Pad(s)
  {
    assert -(|head + s|) % 4 == -|s| % 4;
  }

  /** The padding taken off an encoding is the padding its length asks for. */
  lemma {:induction false} PaddingIsRestored(bytes: seq<byte>)
    ensures Pad(TrimEquals(Encode(bytes))) == Encode(bytes)
  {
    if |bytes| > 2 {
      var quad, rest := Quad(bytes[0], bytes[1], bytes[2]), Encode(bytes[3..]);
      PaddingIsRestored(bytes[3..]);
      TrimAfter(quad, rest);
      PadAfter(quad, TrimEquals(rest));
    } else if |bytes| == 2 {
      var letters := Quad(bytes[0], bytes[1], 0)[..3];
      TrimAfter(letters, "=");
      assert TrimEquals("=") == TrimEquals("=="[..1][..0]);
      assert letters + "" == letters;
    } else if |bytes| == 1 {
      var letters := Quad(bytes[0], 0, 0)[..2];
      TrimAfter(letters, "==");
      assert "=="[..1] == "=" && "="[..0] == "";
      assert TrimEquals("==") == TrimEquals("=") == TrimEquals("");
      assert letters + "" == letters;
    }
  }

  lemma {:induction false} TrimAfter(head: string, rest: string)
    requires head != "" && head[|head| - 1] != '='
    ensures TrimEquals(head + rest) == head + TrimEquals(rest)
  {
    var s := head + rest;
    if rest == "" {
      assert s == head;
    } else if rest[|rest| - 1] == '=' {
      assert s[..|s| - 1] == head + rest[..|rest| - 1];
      TrimAfter(head, rest[..|rest| - 1]);
    }
  }

  lemma QuadIsRead(a: byte, b: byte, c: byte)
    ensures var q := Quad(a, b, c);
            && (forall i | 0 <= i < 4 :: Value(q[i]).Some?)
            && First(Value(q[0]).value, Value(q[1]).value) == a
            && Second(Value(q[1]).value, Value(q[2]).value) == b
            && Third(Value(q[2]).value, Value(q[3]).value) == c
  {
    var x, y, z := a as int, b as int, c as int;
    ValueOfLetter((x / 4) as sextet);
    ValueOfLetter((x % 4 * 16 + y / 16) as sextet);
    ValueOfLetter((y % 16 * 4 + z / 64) as sextet);
    ValueOfLetter((z % 64) as sextet);
  }

  lemma DecodeGroup(q: string, rest: string)
    requires |q| == 4 && forall i | 0 <= i < 4 :: q[i] != '=' && Value(q[i]).Some?
    requires Decode(rest).Some?
    ensures Decode(q + rest) ==
            Some([First(Value(q[0]).value, Value(q[1]).value), Second(Value(q[1]).value, Value(q[2]).value),
                  Third(Value(q[2]).value, Value(q[3]).value)] + Decode(rest).value)
  {
    var s := q + rest;
    assert s[0] == q[0] && s[1] == q[1] && s[2] == q[2] && s[3] == q[3] && s[4..] == rest;
  }

  /** Three bytes and what follows them. */
  lemma GroupAndTail(a: byte, b: byte, c: byte, rest: string)
    requires Decode(rest).Some?
    ensures Decode(Quad(a, b, c) + rest) == Some([a, b, c] + Decode(rest).value)
  {
    QuadIsRead(a, b, c);
    DecodeGroup(Quad(a, b, c), rest);
  }

  lemma DecodeOne(q: string)
    requires |q| == 4 && Value(q[0]).Some? && Value(q[1]).Some?
    ensures Decode(q[..2] + "==") == Some([First(Value(q[0]).value, Value(q[1]).value)])
  {
    var s := q[..2] + "==";
    assert s[0] == q[0] && s[1] == q[1] && s[2] == '=' && s[3] == '=';
  }

  lemma DecodeTwo(q: string)
    requires |q| == 4 && q[2] != '=' && Value(q[0]).Some? && Value(q[1]).Some? && Value(q[2]).Some?
    ensures Decode(q[..3] + "=") ==
            Some([First(Value(q[0]).value, Value(q[1]).value), Second(Value(q[1]).value, Value(q[2]).value)])
  {
    var s := q[..3] + "=";
    assert s[0] == q[0] && s[1] == q[1] && s[2] == q[2] && s[3] == '=';
  }

  lemma LastByte(a: byte)
    ensures Decode(Encode([a])) == Some([a])
  {
    QuadIsRead(a, 0, 0);
    DecodeOne(Quad(a, 0, 0));
  }

  lemma LastTwoBytes(a: byte, b: byte)
    ensures Decode(Encode([a, b])) == Some([a, b])
  {
    QuadIsRead(a, b, 0);
    DecodeTwo(Quad(a, b, 0));
  }

  lemma {:induction false} DecodeOfEncode(bytes: seq<byte>)
    ensures Decode(Encode(bytes)) == Some(bytes)
  {
    if |bytes| == 1 {
      LastByte(bytes[0]);
      assert bytes == [bytes[0]];
    } else if |bytes| == 2 {
      LastTwoBytes(bytes[0], bytes[1]);
      assert bytes == [bytes[0], bytes[1]];
    } else if |bytes| > 2 {
      DecodeOfEncode(bytes[3..]);
      GroupAndTail(bytes[0], bytes[1], bytes[2], Encode(bytes[3..]));
      assert bytes == [bytes[0], bytes[1], bytes[2]] + bytes[3..];
    }
  }

  /** What the cursor does: encode, take the padding off, put back what the length asks for,
      decode. */
  lemma RoundTrip(bytes: seq<byte>)
    ensures Decode(Pad(TrimEquals(Encode(bytes)))) == Some(bytes)
  {
    PaddingIsRestored(bytes);
    DecodeOfEncode(bytes);
  }
}
