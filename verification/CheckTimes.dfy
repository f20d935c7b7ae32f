/** Check times as text: what is printed is parsed back (ParseCheckTimes and
    FormatCheckTimes in app/modules/settings.go). A normalized HH:MM stands for
    its minute of the day. */
module CheckTimes {
  import opened Options
  import opened Text
  import opened ProbeTiming

  const MIDNIGHT_WRAP := 1440

  predicate IsClock(t: int) {
    0 <= t < MIDNIGHT_WRAP
  }

  /** %02d */
  function Two(n: nat): string
    requires n < 100
  {
    [Digit(n / 10), Digit(n % 10)]
  }

  function TextOf(t: int): string
    requires IsClock(t)
  {
    Two(t / 60) + ":" + Two(t % 60)
  }

  /** One entry, already trimmed: H:MM or HH:MM. */
  function ParseTime(s: string): Option<int> {
    var cut := Cut(s, ':');
    if cut.None? then None
    else
      var hh, mm := cut.value.0, cut.value.1;
      var h, m := Atoi(hh), Atoi(mm);
      if h.None? || m.None? || |mm| != 2 || |hh| == 0 || |hh| > 2 || h.value < 0 || h.value > 23 || m.value < 0 || m.value > 59 then None
      else Some(h.value * 60 + m.value)
  }

  /** The text of a number of one or two characters, and its range. */
  predicate Numbered(s: string, n: int, max: int) {
    1 <= |s| <= 2 && Atoi(s) == Some(n) && 0 <= n <= max
  }

  /** A time is an hour of one or two characters and a minute of two, with a
      colon between them. */
  lemma ParseTimeExactly(s: string, t: int)
    ensures ParseTime(s) == Some(t) <==>
      exists hh, mm, h, m :: s == hh + ":" + mm && Numbered(hh, h, 23) && Numbered(mm, m, 59) && |mm| == 2 && t == 60 * h + m
  {
    CutExactly(s, ':');
    if ParseTime(s) == Some(t) {
      var hh, mm := Cut(s, ':').value.0, Cut(s, ':').value.1;
      assert s == hh + ":" + mm && Numbered(hh, Atoi(hh).value, 23) && Numbered(mm, Atoi(mm).value, 59);
    }
    if hh, mm, h, m :| s == hh + ":" + mm && Numbered(hh, h, 23) && Numbered(mm, m, 59) && |mm| == 2 && t == 60 * h + m {
      NoColon(hh);
      CutFirst(hh, mm, ':');
    }
  }

  lemma NoColon(s: string)
    requires Atoi(s).Some?
    ensures ':' !in s
  {
    AtoiExactly(s);
  }

  lemma ParseTimeText(t: int)
    requires IsClock(t)
    ensures ParseTime(TextOf(t)) == Some(t) && Trimmed(TextOf(t)) && TextOf(t) != "" && ',' !in TextOf(t)
  {
    var h, m := t / 60, t % 60;
    assert TextOf(t) == Two(h) + [':'] + Two(m);
    CutFirst(Two(h), Two(m), ':');
    AtoiTwo(h);
    AtoiTwo(m);
  }

  lemma AtoiTwo(n: nat)
    requires n < 100
    ensures Atoi(Two(n)) == Some(n) && AllDigits(Two(n))
  {
    var s := Two(n);
    assert s[..1] == [Digit(n / 10)] && s[..1][..0] == "";
    assert DigitsValue(s[..1]) == n / 10;
  }

  /** The order of the texts is the order of the times. */
  lemma TextOrder(a: int, b: int)
    requires IsClock(a) && IsClock(b) && a != b
    ensures exists k :: 0 <= k < 5 && TextOf(a)[..k] == TextOf(b)[..k] && (TextOf(a)[k] < TextOf(b)[k] <==> a < b) && TextOf(a)[k] != TextOf(b)[k]
  {
    var x, y := TextOf(a), TextOf(b);
    if a / 60 / 10 != b / 60 / 10 {
      assert x[..0] == y[..0] && x[0] != y[0];
    } else if a / 60 % 10 != b / 60 % 10 {
      assert x[..1] == y[..1] && x[1] != y[1];
    } else if a % 60 / 10 != b % 60 / 10 {
      assert x[..3] == y[..3] && x[3] != y[3];
    } else {
      assert x[..4] == y[..4] && x[4] != y[4];
    }
  }

  // --- The lists ---

  /** The pieces of the inputs between commas. */
  function Pieces(inputs: seq<string>): seq<string> {
    if inputs == [] then [] else Pieces(inputs[..|inputs| - 1]) + Split(inputs[|inputs| - 1], ',')
  }

  /** A piece holds nothing, a time, or something that is no time. */
  datatype Piece = Blank | At(t: int) | Bad

  function PieceOf(raw: string): Piece {
    var s := TrimSpace(raw);
    if s == "" then Blank else if ParseTime(s).Some? then At(ParseTime(s).value) else Bad
  }

  /** White space around a piece does not matter: what it holds is decided by
      the text inside. */
  lemma PieceExactly(raw: string, i: nat, j: nat, t: int)
    requires i <= j <= |raw| && SpaceAround(raw, i, j) && Trimmed(raw[i..j])
    ensures PieceOf(raw) == Blank <==> i == j
    ensures PieceOf(raw) == At(t) <==> exists hh, mm, h, m ::
      raw[i..j] == hh + ":" + mm && Numbered(hh, h, 23) && Numbered(mm, m, 59) && |mm| == 2 && t == 60 * h + m
  {
    TrimTo(raw, i, j);
    ParseTimeExactly(raw[i..j], t);
  }

  predicate Ascending(times: seq<int>) {
    forall i, j :: 0 <= i < j < |times| ==> times[i] < times[j]
  }

  /** The pieces hold exactly these times and nothing that is no time. */
  ghost predicate Holds(read: string -> Piece, pieces: seq<string>, times: set<int>) {
    && (forall raw :: raw in pieces ==> !read(raw).Bad? && (read(raw).At? ==> read(raw).t in times))
    && (forall t :: t in times ==> exists raw :: raw in pieces && read(raw) == At(t))
  }

  /** Every piece is blank or a time, and the result holds the times, each once
      and in order; an error means that some piece is no time. */
  ghost predicate IsParsed(read: string -> Piece, r: Result<seq<int>, string>, pieces: seq<string>) {
    match r
    case Ok(times) => Ascending(times) && Holds(read, pieces, Elements(times))
    case Err(raw) => raw in pieces && read(raw).Bad?
  }

  function Elements(s: seq<int>): set<int> {
    set t | t in s
  }

  /** The times gathered so far, as the set seen and the list of them. */
  ghost predicate Gathered(read: string -> Piece, pieces: seq<string>, seen: set<int>, out: seq<int>) {
    Holds(read, pieces, seen) && Listed(out, seen)
  }

  lemma GatherOne(read: string -> Piece, pieces: seq<string>, seen: set<int>, out: seq<int>, raw: string)
    requires Gathered(read, pieces, seen, out) && !read(raw).Bad?
    ensures if read(raw).Blank? || read(raw).t in seen then Gathered(read, pieces + [raw], seen, out)
            else Gathered(read, pieces + [raw], seen + {read(raw).t}, out + [read(raw).t])
  {
  }

  lemma {:induction false} PiecesOfPrefix(inputs: seq<string>, i: nat)
    requires i <= |inputs|
    ensures Pieces(inputs[..i]) <= Pieces(inputs)
  {
    if i < |inputs| {
      var n := |inputs| - 1;
      PiecesOfPrefix(inputs[..n], i);
      assert inputs[..n][..i] == inputs[..i];
    } else {
      assert inputs[..i] == inputs;
    }
  }

  method ParseCheckTimes(inputs: seq<string>) returns (r: Result<seq<int>, string>)
    ensures IsParsed(PieceOf, r, Pieces(inputs))
  {
    var seen: set<int> := {};
    var out: seq<int> := [];
    for i := 0 to |inputs|
      invariant Gathered(PieceOf, Pieces(inputs[..i]), seen, out)
    {
      var raws := Split(inputs[i], ',');
      ghost var before := Pieces(inputs[..i]);
      PiecesOfNext(inputs, i);
      var bad;
      bad, seen, out := ParseInput(raws, before, seen, out);
      if bad.Some? {
        assert bad.value in Pieces(inputs);
        return Err(bad.value);
      }
    }
    assert inputs[..|inputs|] == inputs;
    GatheredIsParsed(PieceOf, Pieces(inputs), seen, out);
    r := Ok(Sort(out));
  }

  lemma PiecesOfNext(inputs: seq<string>, i: nat)
    requires i < |inputs|
    ensures Pieces(inputs[..i + 1]) == Pieces(inputs[..i]) + Split(inputs[i], ',')
    ensures Pieces(inputs[..i]) + Split(inputs[i], ',') <= Pieces(inputs)
  {
    var next := inputs[..i + 1];
    assert next[..|next| - 1] == inputs[..i] && next[|next| - 1] == inputs[i];
    PiecesOfPrefix(inputs, i + 1);
  }

  lemma GatheredIsParsed(read: string -> Piece, pieces: seq<string>, seen: set<int>, out: seq<int>)
    requires Gathered(read, pieces, seen, out)
    ensures IsParsed(read, Ok(Sort(out)), pieces)
  {
    SortListed(out, seen);
    var sorted := Sort(out);
    forall t
      ensures t in Elements(sorted) <==> t in seen
    {
      assert t in sorted <==> t in seen;
    }
    assert Elements(sorted) == seen;
  }

  /** The pieces of one input. */
  method ParseInput(raws: seq<string>, ghost before: seq<string>, seen0: set<int>, out0: seq<int>)
    returns (bad: Option<string>, seen: set<int>, out: seq<int>)
    requires Gathered(PieceOf, before, seen0, out0)
    ensures bad.None? ==> Gathered(PieceOf, before + raws, seen, out)
    ensures bad.Some? ==> bad.value in before + raws && PieceOf(bad.value).Bad?
  {
    seen, out := seen0, out0;
    assert before + raws[..0] == before;
    for j := 0 to |raws|
      invariant Gathered(PieceOf, before + raws[..j], seen, out)
    {
      assert before + raws[..j + 1] == before + raws[..j] + [raws[j]];
      var piece := ReadPiece(raws[j]);
      if piece.Bad? {
        assert raws[j] in before + raws;
        return Some(raws[j]), seen, out;
      }
      GatherOne(PieceOf, before + raws[..j], seen, out, raws[j]);
      if piece.At? && piece.t !in seen {
        seen := seen + {piece.t};
        out := out + [piece.t];
      }
    }
    assert before + raws[..|raws|] == before + raws;
    bad := None;
  }

  method ReadPiece(raw: string) returns (piece: Piece)
    ensures piece == PieceOf(raw)
  {
    var s := TrimSpace(raw);
    if s == "" {
      return Blank;
    }
    var t := ParseTime(s);
    return if t.None? then Bad else At(t.value);
  }

  ghost predicate Listed(out: seq<int>, seen: set<int>) {
    (forall t :: t in out <==> t in seen) && forall i, j :: 0 <= i < j < |out| ==> out[i] != out[j]
  }

  lemma SortListed(out: seq<int>, seen: set<int>)
    requires Listed(out, seen)
    ensures Ascending(Sort(out)) && forall t :: t in Sort(out) <==> t in seen
  {
    SortSorts(out);
    var sorted := Sort(out);
    forall t
      ensures t in sorted <==> t in seen
    {
      assert t in multiset(sorted) <==> t in multiset(out);
    }
    forall i, j | 0 <= i < j < |sorted|
      ensures sorted[i] < sorted[j]
    {
      if sorted[i] == sorted[j] {
        TwiceInMultiset(sorted, i, j);
        OnceInMultiset(out, sorted[i]);
      }
    }
  }

  lemma TwiceInMultiset(s: seq<int>, i: nat, j: nat)
    requires i < j < |s| && s[i] == s[j]
    ensures multiset(s)[s[i]] >= 2
  {
    assert s == s[..i] + [s[i]] + s[i + 1..j] + [s[j]] + s[j + 1..];
  }

  lemma {:induction false} OnceInMultiset(s: seq<int>, t: int)
    requires forall i, j :: 0 <= i < j < |s| ==> s[i] != s[j]
    ensures multiset(s)[t] <= 1
  {
    if s != [] {
      OnceInMultiset(s[1..], t);
      assert s == [s[0]] + s[1..];
      if s[0] == t {
        assert t !in s[1..];
      }
    }
  }

  // --- Round trip ---

  function Texts(times: seq<int>): seq<string>
    requires forall i :: 0 <= i < |times| ==> IsClock(times[i])
  {
    seq(|times|, i requires 0 <= i < |times| => TextOf(times[i]))
  }

  function FormatCheckTimes(times: seq<int>): string
    requires forall i :: 0 <= i < |times| ==> IsClock(times[i])
  {
    Join(Texts(times), ',')
  }

  /** The pieces of a printed list are the printed times. */
  lemma PiecesOfFormat(times: seq<int>)
    requires forall i :: 0 <= i < |times| ==> IsClock(times[i])
    ensures Pieces([FormatCheckTimes(times)]) == if times == [] then [""] else Texts(times)
  {
    var printed := FormatCheckTimes(times);
    assert [printed][..0] == [];
    assert Pieces([printed]) == Split(printed, ',');
    if times != [] {
      forall i | 0 <= i < |times|
        ensures ',' !in Texts(times)[i]
      {
        ParseTimeText(times[i]);
      }
      SplitJoin(Texts(times), ',');
    }
  }

  lemma PieceOfText(t: int)
    requires IsClock(t)
    ensures PieceOf(TextOf(t)) == At(t)
  {
    ParseTimeText(t);
    TrimTrimmed(TextOf(t));
  }

  /** Pieces that are the texts of a normalized list, one each, have one
      result. */
  lemma ParseTexts(read: string -> Piece, pieces: seq<string>, times: seq<int>, r: Result<seq<int>, string>)
    requires Ascending(times) && IsParsed(read, r, pieces)
    requires if times == [] then forall raw :: raw in pieces ==> read(raw).Blank?
             else |pieces| == |times| && forall i :: 0 <= i < |times| ==> read(pieces[i]) == At(times[i])
    ensures r == Ok(times)
  {
    if r.Ok? {
      forall t
        ensures t in r.value <==> t in times
      {
        if t in r.value {
          assert t in Elements(r.value);
          var raw :| raw in pieces && read(raw) == At(t);
        }
        if t in times {
          var i :| 0 <= i < |times| && times[i] == t;
          assert pieces[i] in pieces;
          assert t in Elements(r.value);
        }
      }
      AscendingUnique(r.value, times);
    }
  }

  /** Parsing what was printed gives the list back, for every normalized list. */
  lemma ParseFormat(times: seq<int>, r: Result<seq<int>, string>)
    requires (forall i :: 0 <= i < |times| ==> IsClock(times[i])) && Ascending(times)
    requires IsParsed(PieceOf, r, Pieces([FormatCheckTimes(times)]))
    ensures r == Ok(times)
  {
    PiecesOfFormat(times);
    forall i | 0 <= i < |times|
      ensures PieceOf(Texts(times)[i]) == At(times[i])
    {
      PieceOfText(times[i]);
    }
    ParseTexts(PieceOf, Pieces([FormatCheckTimes(times)]), times, r);
  }

  lemma {:induction false} AscendingUnique(a: seq<int>, b: seq<int>)
    requires Ascending(a) && Ascending(b) && forall t :: t in a <==> t in b
    ensures a == b
  {
    assert b != [] ==> b[0] in b;
    if a != [] {
      assert a[0] in a && a[0] in b;
      assert b[0] in b && b[0] in a;
      assert a[0] == b[0];
      forall t
        ensures t in a[1..] <==> t in b[1..]
      {
        TailIsLater(a, t);
        TailIsLater(b, t);
      }
      AscendingUnique(a[1..], b[1..]);
      assert a == [a[0]] + a[1..] && b == [b[0]] + b[1..];
    }
  }

  lemma TailIsLater(s: seq<int>, t: int)
    requires s != [] && Ascending(s)
    ensures t in s[1..] <==> t in s && t != s[0]
  {
  }
}
