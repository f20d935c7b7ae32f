/** The string functions the source takes from Go's strings package, on ASCII
    text. */
module Text {
  import opened Options

  predicate IsSpace(c: char) {
    c in {' ', '\t', '\n', '\r', '\U{000B}', '\U{000C}'}
  }

  function TrimLeft(s: string): string {
    if s != "" && IsSpace(s[0]) then TrimLeft(s[1..]) else s
  }

  function TrimRight(s: string): string {
    if s != "" && IsSpace(s[|s| - 1]) then TrimRight(s[..|s| - 1]) else s
  }

  function TrimSpace(s: string): string {
    TrimRight(TrimLeft(s))
  }

  function LowerChar(c: char): char {
    if 'A' <= c <= 'Z' then (c as int + 32) as char else c
  }

  function ToLower(s: string): string {
    seq(|s|, i requires 0 <= i < |s| => LowerChar(s[i]))
  }

  predicate EqualFold(a: string, b: string) {
    ToLower(a) == ToLower(b)
  }

  // --- What trimming and lowering leave ---

  /** White space around the text goes, and nothing else. */
  predicate IsTrimOf(r: string, s: string) {
    exists i, j :: 0 <= i <= j <= |s| && SpaceAround(s, i, j) && r == s[i..j]
  }

  predicate SpaceAround(s: string, i: int, j: int)
    requires 0 <= i <= j <= |s|
  {
    forall k :: 0 <= k < |s| && !(i <= k < j) ==> s[k] as int == 32 || 9 <= s[k] as int <= 13
  }

  lemma {:induction false} TrimLeftExactly(s: string)
    ensures |TrimLeft(s)| <= |s| && TrimLeft(s) == s[|s| - |TrimLeft(s)|..]
    ensures SpaceAround(s, |s| - |TrimLeft(s)|, |s|)
    ensures TrimLeft(s) != "" ==> !IsSpace(TrimLeft(s)[0])
  {
    if s != "" && IsSpace(s[0]) {
      TrimLeftExactly(s[1..]);
      var n := |s| - |TrimLeft(s)|;
      assert forall k :: 0 < k < n ==> s[k] == s[1..][k - 1];
    }
  }

  lemma {:induction false} TrimRightExactly(s: string)
    ensures |TrimRight(s)| <= |s| && TrimRight(s) == s[..|TrimRight(s)|]
    ensures SpaceAround(s, 0, |TrimRight(s)|)
    ensures TrimRight(s) != "" ==> !IsSpace(TrimRight(s)[|TrimRight(s)| - 1])
  {
    if s != "" && IsSpace(s[|s| - 1]) {
      TrimRightExactly(s[..|s| - 1]);
    }
  }

  /** TrimSpace takes the white space off both ends: what is left has none
      there, and what goes is nothing else. */
  lemma TrimSpaceExactly(s: string)
    ensures Trimmed(TrimSpace(s)) && IsTrimOf(TrimSpace(s), s)
  {
    var l := TrimLeft(s);
    TrimLeftExactly(s);
    TrimRightExactly(l);
    var i, j := |s| - |l|, |s| - |l| + |TrimRight(l)|;
    assert forall k :: 0 <= k < |l| ==> l[k] == s[i + k];
    assert SpaceAround(s, i, j) by {
      forall k | 0 <= k < |s| && !(i <= k < j)
        ensures s[k] as int == 32 || 9 <= s[k] as int <= 13
      {
        if k >= i {
          assert l[k - i] == s[k];
        }
      }
    }
    assert TrimSpace(s) == s[i..j];
  }

  lemma {:induction false} TrimLeftTo(s: string, i: nat)
    requires i <= |s| && SpaceAround(s, i, |s|) && (i < |s| ==> !IsSpace(s[i]))
    ensures TrimLeft(s) == s[i..]
  {
    if i > 0 {
      assert forall k :: 0 <= k < i - 1 ==> s[1..][k] == s[k + 1];
      TrimLeftTo(s[1..], i - 1);
    }
  }

  lemma {:induction false} TrimRightTo(s: string, j: nat)
    requires j <= |s| && SpaceAround(s, 0, j) && (j > 0 ==> !IsSpace(s[j - 1]))
    ensures TrimRight(s) == s[..j]
  {
    if j < |s| {
      TrimRightTo(s[..|s| - 1], j);
    }
  }

  /** So there is one way to trim a text. */
  lemma TrimTo(s: string, i: nat, j: nat)
    requires i <= j <= |s| && SpaceAround(s, i, j) && Trimmed(s[i..j])
    ensures TrimSpace(s) == s[i..j]
  {
    if i == j {
      assert SpaceAround(s, |s|, |s|);
      TrimLeftTo(s, |s|);
    } else {
      assert s[i..j][0] == s[i] && s[i..j][|s[i..j]| - 1] == s[j - 1];
      TrimLeftTo(s, i);
      var l := s[i..];
      assert forall k :: 0 <= k < |l| ==> l[k] == s[i + k];
      TrimRightTo(l, j - i);
    }
  }

  predicate IsCapital(c: char) {
    65 <= c as int <= 90
  }

  /** The same character but for the case of a letter. */
  predicate SameLetter(x: char, y: char) {
    || x == y
    || (IsCapital(x) && y as int == x as int + 32)
    || (IsCapital(y) && x as int == y as int + 32)
  }

  predicate SameLetters(a: string, b: string) {
    |a| == |b| && forall i :: 0 <= i < |a| ==> SameLetter(a[i], b[i])
  }

  /** Lowering changes the case of capitals only and leaves none. */
  lemma LowerExactly(s: string)
    ensures SameLetters(s, ToLower(s)) && forall c :: c in ToLower(s) ==> !IsCapital(c)
  {
  }

  /** Two texts are lowered to the same one exactly when they agree up to the
      case of letters. */
  lemma EqualFoldExactly(a: string, b: string)
    ensures ToLower(a) == ToLower(b) <==> SameLetters(a, b)
    ensures EqualFold(a, b) <==> SameLetters(a, b)
  {
    if ToLower(a) == ToLower(b) {
      forall i | 0 <= i < |a|
        ensures SameLetter(a[i], b[i])
      {
        assert |a| == |ToLower(a)| == |b| && ToLower(a)[i] == ToLower(b)[i];
      }
    }
    if SameLetters(a, b) {
      assert forall i :: 0 <= i < |a| ==> SameLetter(a[i], b[i]) && ToLower(a)[i] == ToLower(b)[i];
    }
  }

  // --- Splitting and joining ---

  function Split(s: string, c: char): (parts: seq<string>)
    ensures parts != []
  {
    if s == "" then [""]
    else
      var rest := Split(s[1..], c);
      if s[0] == c then [""] + rest else [[s[0]] + rest[0]] + rest[1..]
  }

  function Join(parts: seq<string>, c: char): string {
    if parts == [] then ""
    else if |parts| == 1 then parts[0]
    else parts[0] + [c] + Join(parts[1..], c)
  }

  /** What comes before the first c, and what comes after it. */
  function Cut(s: string, c: char): (r: Option<(string, string)>) {
    if s == "" then None
    else if s[0] == c then Some(("", s[1..]))
    else
      var rest := Cut(s[1..], c);
      if rest.None? then None else Some(([s[0]] + rest.value.0, rest.value.1))
  }

  /** The text is cut at the first c, when there is one. */
  lemma {:induction false} CutExactly(s: string, c: char)
    ensures Cut(s, c).Some? <==> c in s
    ensures Cut(s, c).Some? ==> c !in Cut(s, c).value.0 && s == Cut(s, c).value.0 + [c] + Cut(s, c).value.1
  {
    if s != "" && s[0] != c {
      CutExactly(s[1..], c);
      assert s == [s[0]] + s[1..];
    }
  }

  lemma {:induction false} SplitWhole(s: string, c: char)
    requires c !in s
    ensures Split(s, c) == [s]
  {
    if s != "" {
      SplitWhole(s[1..], c);
      assert [s[0]] + s[1..] == s;
    }
  }

  lemma {:induction false} SplitFirst(p: string, rest: string, c: char)
    requires c !in p
    ensures Split(p + [c] + rest, c) == [p] + Split(rest, c)
  {
    var s := p + [c] + rest;
    if p == "" {
      assert s[1..] == rest;
    } else {
      assert s[1..] == p[1..] + [c] + rest;
      SplitFirst(p[1..], rest, c);
      assert [p[0]] + p[1..] == p;
    }
  }

  /** Splitting undoes joining. */
  lemma {:induction false} SplitJoin(parts: seq<string>, c: char)
    requires parts != [] && forall i :: 0 <= i < |parts| ==> c !in parts[i]
    ensures Split(Join(parts, c), c) == parts
  {
    if |parts| == 1 {
      SplitWhole(parts[0], c);
    } else {
      SplitJoin(parts[1..], c);
      SplitFirst(parts[0], Join(parts[1..], c), c);
      assert [parts[0]] + parts[1..] == parts;
    }
  }

  lemma {:induction false} CutFirst(p: string, rest: string, c: char)
    requires c !in p
    ensures Cut(p + [c] + rest, c) == Some((p, rest))
  {
    var s := p + [c] + rest;
    if p == "" {
      assert s[1..] == rest;
    } else {
      assert s[1..] == p[1..] + [c] + rest;
      CutFirst(p[1..], rest, c);
      assert [p[0]] + p[1..] == p;
    }
  }

  /** Nothing to trim. */
  predicate Trimmed(s: string) {
    s != "" ==> !IsSpace(s[0]) && !IsSpace(s[|s| - 1])
  }

  lemma TrimTrimmed(s: string)
    requires Trimmed(s)
    ensures TrimSpace(s) == s
  {
  }

  // --- Numbers ---

  predicate IsDigit(c: char) {
    '0' <= c <= '9'
  }

  function Digit(n: nat): char
    requires n < 10
  {
    '0' + n as char
  }

  function Itoa(n: nat): string {
    if n < 10 then [Digit(n)] else Itoa(n / 10) + [Digit(n % 10)]
  }

  function DigitsValue(s: string): nat
    requires forall i :: 0 <= i < |s| ==> IsDigit(s[i])
  {
    if s == "" then 0
    else
      assert IsDigit(s[|s| - 1]);
      DigitsValue(s[..|s| - 1]) * 10 + (s[|s| - 1] as int - '0' as int)
  }

  predicate AllDigits(s: string) {
    s != "" && forall i :: 0 <= i < |s| ==> IsDigit(s[i])
  }

  /** An optional sign and at least one digit. */
  function Atoi(s: string): Option<int> {
    if s != "" && (s[0] == '+' || s[0] == '-') then
      if AllDigits(s[1..]) then
        var n: int := DigitsValue(s[1..]);
        Some(if s[0] == '-' then -n else n)
      else None
    else if AllDigits(s) then Some(DigitsValue(s))
    else None
  }

  /** A number is digits, with or without a sign; the sign decides whether it
      is negative. */
  lemma AtoiExactly(s: string)
    ensures var signed := s != "" && (s[0] as int == 43 || s[0] as int == 45);
      var digits := if signed then s[1..] else s;
      && (Atoi(s).Some? <==> digits != "" && forall i :: 0 <= i < |digits| ==> 48 <= digits[i] as int <= 57)
      && (Atoi(s).Some? ==> Atoi(s).value == if signed && s[0] as int == 45 then 0 - DigitsValue(digits) else DigitsValue(digits))
  {
  }

  lemma {:induction false} AtoiItoa(n: nat)
    ensures AllDigits(Itoa(n)) && DigitsValue(Itoa(n)) == n && Atoi(Itoa(n)) == Some(n)
  {
    if n < 10 {
      assert Itoa(n)[..0] == "";
    } else {
      AtoiItoa(n / 10);
      assert Itoa(n)[..|Itoa(n)| - 1] == Itoa(n / 10);
    }
  }
}
