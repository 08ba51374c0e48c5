/** UTF-8, with a byte string given as a string of characters below 256. */
module Utf8 {
  import opened Seqs
  import opened Wrappers

  predicate High(c: char) {
    c as int >= 0x80
  }

  predicate Ascii(s: string) {
    forall i | 0 <= i < |s| :: !High(s[i])
  }

  function Tail(n: nat): char {
    (0x80 + n % 64) as char
  }

  function EncodeChar(c: char): (b: string)
    ensures b != "" && (!High(c) ==> b == [c])
    ensures High(c) ==> |b| > 1 && forall i | 0 <= i < |b| :: High(b[i])
  {
    var n := c as int;
    var (n1, n2) := (n / 64, n / 64 / 64);
    if n < 0x80 then [c]
    else if n < 0x800 then [(0xC0 + n1) as char, Tail(n)]
    else if n < 0x1_0000 then [(0xE0 + n2) as char, Tail(n1), Tail(n)]
    else [(0xF0 + n2 / 64) as char, Tail(n2), Tail(n1), Tail(n)]
  }

  function Encode(s: string): string {
    if s == "" then "" else EncodeChar(s[0]) + Encode(s[1..])
  }

  function Point(n: int, width: nat): Option<(char, nat)> {
    if 0 <= n < 0xD800 || 0xE000 <= n < 0x11_0000 then Some((n as char, width)) else None
  }

  /** The first character of a byte string and how many bytes it takes. */
  function DecodeChar(b: string): (r: Option<(char, nat)>)
    requires b != ""
    ensures r.Some? ==> 0 < r.value.1 <= |b|
  {
    var n := b[0] as int;
    if n < 0x80 then Some((b[0], 1))
    else if n < 0xE0 then if |b| < 2 then None else Point((n - 0xC0) * 64 + Low(b[1]), 2)
    else if n < 0xF0 then if |b| < 3 then None else Point(((n - 0xE0) * 64 + Low(b[1])) * 64 + Low(b[2]), 3)
    else if |b| < 4 then None
    else Point((((n - 0xF0) * 64 + Low(b[1])) * 64 + Low(b[2])) * 64 + Low(b[3]), 4)
  }

  function Low(c: char): int {
    c as int - 0x80
  }

  function Decode(b: string): Option<string> {
    if b == "" then Some("")
    else
      match DecodeChar(b)
      case None => None
      case Some((c, width)) =>
        match Decode(b[width..])
        case None => None
        case Some(s) => Some([c] + s)
  }

  lemma {:induction false} DecodeEncodeChar(c: char, rest: string)
    ensures DecodeChar(EncodeChar(c) + rest) == Some((c, |EncodeChar(c)|))
  {
    var n, b := c as int, EncodeChar(c) + rest;
    var n1, n2 := n / 64, n / 64 / 64;
    assert 0 <= n < 0xD800 || 0xE000 <= n < 0x11_0000;
    if n >= 0x1_0000 {
      assert b[0] == (0xF0 + n2 / 64) as char && b[1] == Tail(n2) && b[2] == Tail(n1) && b[3] == Tail(n);
    }
  }

  lemma {:induction false} DecodeEncode(s: string)
    ensures Decode(Encode(s)) == Some(s)
  {
    if s != "" {
      DecodeEncodeChar(s[0], Encode(s[1..]));
      DecodeEncode(s[1..]);
      assert Encode(s)[|EncodeChar(s[0])|..] == Encode(s[1..]);
      assert [s[0]] + s[1..] == s;
    }
  }

  lemma {:induction false} EncodeAscii(s: string)
    requires Ascii(s)
    ensures Encode(s) == s
  {
    if s != "" {
      EncodeAscii(s[1..]);
      assert [s[0]] + s[1..] == s;
    }
  }

  lemma {:induction false} EncodeAppend(s: string, t: string)
    ensures Encode(s + t) == Encode(s) + Encode(t)
  {
    if s == "" {
      assert s + t == t;
    } else {
      EncodeAppend(s[1..], t);
      assert (s + t)[1..] == s[1..] + t;
      Assoc(EncodeChar(s[0]), Encode(s[1..]), Encode(t));
    }
  }
}
