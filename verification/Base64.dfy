/** The base64 encoding of section 4 of RFC 4648, which the mails use for
    bodies that may not be sent as they are. Characters are octets. */
module Base64 {
  import opened Options

  type Digit = d: nat | d < 64

  predicate Octets(s: string) {
    forall i :: 0 <= i < |s| ==> s[i] as int < 256
  }

  function Letter(d: Digit): char {
    if d < 26 then ('A' as int + d) as char
    else if d < 52 then ('a' as int + d - 26) as char
    else if d < 62 then ('0' as int + d - 52) as char
    else if d == 62 then '+'
    else '/'
  }

  function DigitOf(c: char): Option<Digit> {
    if 'A' <= c <= 'Z' then Some(c as int - 'A' as int)
    else if 'a' <= c <= 'z' then Some(c as int - 'a' as int + 26)
    else if '0' <= c <= '9' then Some(c as int - '0' as int + 52)
    else if c == '+' then Some(62)
    else if c == '/' then Some(63)
    else None
  }

  lemma LetterIsItsDigit(d: Digit)
    ensures DigitOf(Letter(d)) == Some(d) && Letter(d) != '='
  {
  }

  predicate Octet(c: char) {
    c as int < 256
  }

  function First(a: char): char
    requires Octet(a)
  {
    Letter(a as int / 4)
  }

  function Second(a: char, b: char): char
    requires Octet(a) && Octet(b)
  {
    Letter(a as int % 4 * 16 + b as int / 16)
  }

  function Third(b: char, c: char): char
    requires Octet(b) && Octet(c)
  {
    Letter(b as int % 16 * 4 + c as int / 64)
  }

  /** Three octets in four letters; one or two left over are padded. */
  function Head(s: string): (four: string)
    requires Octets(s) && s != ""
    ensures |four| == 4
  {
    if |s| == 1 then [First(s[0]), Second(s[0], 0 as char), '=', '=']
    else if |s| == 2 then [First(s[0]), Second(s[0], s[1]), Third(s[1], 0 as char), '=']
    else [First(s[0]), Second(s[0], s[1]), Third(s[1], s[2]), Letter(s[2] as int % 64)]
  }

  function Tail(s: string): string {
    if |s| <= 3 then "" else s[3..]
  }

  function Encode(s: string): string
    requires Octets(s)
    decreases |s|
  {
    if s == "" then "" else Head(s) + Encode(Tail(s))
  }

  /** The octets of four letters, the last two of which may be padding. */
  function DecodeFour(w: char, x: char, y: char, z: char): Option<string> {
    var p, q, r, t := DigitOf(w), DigitOf(x), DigitOf(y), DigitOf(z);
    if p.None? || q.None? then None
    else
      var first := (p.value * 4 + q.value / 16) as char;
      if y == '=' && z == '=' && q.value % 16 == 0 then Some([first])
      else if r.None? then None
      else
        var second := (q.value % 16 * 16 + r.value / 4) as char;
        if z == '=' && r.value % 4 == 0 then Some([first, second])
        else if t.None? then None
        else Some([first, second, (r.value % 4 * 64 + t.value) as char])
  }

  /** Padding ends the text. */
  function Decode(e: string): Option<string> {
    if e == "" then Some("")
    else if |e| < 4 then None
    else
      var first := DecodeFour(e[0], e[1], e[2], e[3]);
      var rest := Decode(e[4..]);
      if first.None? || rest.None? || (e[3] == '=' && |e| > 4) then None else Some(first.value + rest.value)
  }

  /** Three octets cut into four digits and put together again. */
  lemma CutApart(a: nat, b: nat, c: nat)
    requires a < 256 && b < 256 && c < 256
    ensures a / 4 * 4 + (a % 4 * 16 + b / 16) / 16 == a
    ensures (a % 4 * 16 + b / 16) % 16 * 16 + (b % 16 * 4 + c / 64) / 4 == b
    ensures (b % 16 * 4 + c / 64) % 4 * 64 + c % 64 == c
  {
  }

  lemma OneDecodes(a: char)
    requires Octet(a)
    ensures DecodeFour(First(a), Second(a, 0 as char), '=', '=') == Some([a])
  {
    CutApart(a as int, 0, 0);
    LetterIsItsDigit(a as int / 4);
    LetterIsItsDigit(a as int % 4 * 16);
  }

  lemma TwoDecode(a: char, b: char)
    requires Octet(a) && Octet(b)
    ensures DecodeFour(First(a), Second(a, b), Third(b, 0 as char), '=') == Some([a, b])
  {
    CutApart(a as int, b as int, 0);
    LetterIsItsDigit(a as int / 4);
    LetterIsItsDigit(a as int % 4 * 16 + b as int / 16);
    LetterIsItsDigit(b as int % 16 * 4);
  }

  lemma ThreeDecode(a: char, b: char, c: char)
    requires Octet(a) && Octet(b) && Octet(c)
    ensures DecodeFour(First(a), Second(a, b), Third(b, c), Letter(c as int % 64)) == Some([a, b, c])
    ensures Letter(c as int % 64) != '='
  {
    CutApart(a as int, b as int, c as int);
    LetterIsItsDigit(a as int / 4);
    LetterIsItsDigit(a as int % 4 * 16 + b as int / 16);
    LetterIsItsDigit(b as int % 16 * 4 + c as int / 64);
    LetterIsItsDigit(c as int % 64);
  }

  lemma DecodeHead(four: string, rest: string, octets: string, more: string)
    requires |four| == 4 && DecodeFour(four[0], four[1], four[2], four[3]) == Some(octets)
    requires Decode(rest) == Some(more) && (rest != "" ==> four[3] != '=')
    ensures Decode(four + rest) == Some(octets + more)
  {
    var e := four + rest;
    assert e[4..] == rest && e[0] == four[0] && e[1] == four[1] && e[2] == four[2] && e[3] == four[3];
  }

  lemma HeadDecodes(s: string)
    requires Octets(s) && s != ""
    ensures var four := Head(s); DecodeFour(four[0], four[1], four[2], four[3]) == Some(if |s| <= 3 then s else s[..3])
    ensures |s| > 3 ==> Head(s)[3] != '='
  {
    if |s| == 1 {
      OneDecodes(s[0]);
      assert s == [s[0]];
    } else if |s| == 2 {
      TwoDecode(s[0], s[1]);
      assert s == [s[0], s[1]];
    } else {
      ThreeDecode(s[0], s[1], s[2]);
      assert s[..3] == [s[0], s[1], s[2]];
      assert |s| == 3 ==> s == s[..3];
    }
  }

  /** Decoding gives back what was encoded. */
  lemma {:induction false} DecodeEncode(s: string)
    requires Octets(s)
    ensures Decode(Encode(s)) == Some(s)
    decreases |s|
  {
    if s != "" {
      HeadDecodes(s);
      DecodeEncode(Tail(s));
      DecodeHead(Head(s), Encode(Tail(s)), if |s| <= 3 then s else s[..3], Tail(s));
      assert (if |s| <= 3 then s else s[..3]) + Tail(s) == s;
    }
  }

  // --- The alphabet and the bits, table 1 of RFC 4648 ---

  /** Capitals, small letters, digits, plus and slash. */
  lemma LetterCode(d: Digit)
    ensures Letter(d) as int == if d < 26 then 65 + d else if d < 52 then 71 + d else if d < 62 then d - 4 else if d == 62 then 43 else 47
  {
  }

  lemma CutBits(a: nat, b: nat, c: nat)
    requires a < 256 && b < 256 && c < 256
    ensures a / 4 * 262144 + (a % 4 * 16 + b / 16) * 4096 + (b % 16 * 4 + c / 64) * 64 + c % 64 == a * 65536 + b * 256 + c
  {
  }

  function OctetAt(s: string, i: nat): nat {
    if i < |s| then s[i] as int else 0
  }

  /** Group by group: the 24 bits of three octets, missing ones as zero, six at
      a time and the first ones first; padding stands for a missing octet, and
      the rest of the text follows. */
  lemma EncodeExactly(s: string) returns (p: Digit, q: Digit, r: Digit, t: Digit)
    requires Octets(s)
    ensures s == "" ==> Encode(s) == ""
    ensures p * 262144 + q * 4096 + r * 64 + t == OctetAt(s, 0) * 65536 + OctetAt(s, 1) * 256 + OctetAt(s, 2)
    ensures s != "" ==>
      Encode(s) == [Letter(p), Letter(q), if |s| > 1 then Letter(r) else '=', if |s| > 2 then Letter(t) else '=']
                   + (if |s| > 3 then Encode(s[3..]) else "")
  {
    var a, b, c := OctetAt(s, 0), OctetAt(s, 1), OctetAt(s, 2);
    p, q, r, t := a / 4, a % 4 * 16 + b / 16, b % 16 * 4 + c / 64, c % 64;
    CutBits(a, b, c);
  }

  lemma LetterIsPrintable(d: Digit)
    ensures ' ' < Letter(d)
  {
  }

  lemma HeadIsPrintable(s: string)
    requires Octets(s) && s != ""
    ensures forall i :: 0 <= i < 4 ==> ' ' < Head(s)[i]
  {
    forall d: Digit
      ensures ' ' < Letter(d)
    {
      LetterIsPrintable(d);
    }
  }

  /** The text holds no control character. */
  lemma {:induction false} EncodeIsPrintable(s: string)
    requires Octets(s)
    ensures forall c :: c in Encode(s) ==> ' ' < c
    decreases |s|
  {
    if s != "" {
      HeadIsPrintable(s);
      EncodeIsPrintable(Tail(s));
    }
  }
}
