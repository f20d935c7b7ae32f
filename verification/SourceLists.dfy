/** Lists saved one entry per line: a list accepted from a person is read back
    from its saved form as it is (listSetting and normalizeSourceHost in
    app/modules/settings.go). */
module SourceLists {
  import opened Options
  import opened Text

  /** An entry that normalizing leaves alone and a line can hold. */
  predicate Clean(s: string) {
    s != "" && Trimmed(s) && '\n' !in s
  }

  /** Normalizing twice is normalizing once, and gives something a line can
      hold. */
  ghost predicate IsNormalizer(normalize: string -> Option<string>) {
    forall s :: normalize(s).Some? ==> Clean(normalize(s).value) && normalize(normalize(s).value) == normalize(s)
  }

  /** The lines of the inputs. */
  function LinesOf(inputs: seq<string>): seq<string> {
    if inputs == [] then [] else LinesOf(inputs[..|inputs| - 1]) + Split(inputs[|inputs| - 1], '\n')
  }

  /** The entries that are valid, normalized, each once, in order. */
  function Kept(lines: seq<string>, normalize: string -> Option<string>): seq<string> {
    if lines == [] then []
    else
      var before, s := Kept(lines[..|lines| - 1], normalize), TrimSpace(lines[|lines| - 1]);
      if s == "" || normalize(s).None? || normalize(s).value in before then before else before + [normalize(s).value]
  }

  predicate AllValid(lines: seq<string>, normalize: string -> Option<string>) {
    forall i :: 0 <= i < |lines| && TrimSpace(lines[i]) != "" ==> normalize(TrimSpace(lines[i])).Some?
  }

  /** Strictly, input with an invalid entry or too many is refused; a saved
      list loses what is not valid any more and what is over the bound. */
  function Collected(lines: seq<string>, normalize: string -> Option<string>, max: nat, strict: bool): Option<seq<string>> {
    var kept := Kept(lines, normalize);
    if strict then
      if AllValid(lines, normalize) && |kept| <= max then Some(kept) else None
    else Some(if |kept| <= max then kept else kept[..max])
  }

  method Collect(inputs: seq<string>, normalize: string -> Option<string>, max: nat, strict: bool) returns (r: Option<seq<string>>)
    ensures r == Collected(LinesOf(inputs), normalize, max, strict)
  {
    var lines := Lines(inputs);
    var out, valid := Normalized(lines, normalize, strict);
    if !valid {
      return None;
    }
    if |out| > max {
      if strict {
        return None;
      }
      out := out[..max];
    }
    r := Some(out);
  }

  /** Normalizes the entries; strictly, it stops at an invalid one. */
  method Normalized(lines: seq<string>, normalize: string -> Option<string>, strict: bool) returns (out: seq<string>, valid: bool)
    ensures valid <==> !strict || AllValid(lines, normalize)
    ensures valid ==> out == Kept(lines, normalize)
  {
    var seen: set<string> := {};
    out := [];
    for i := 0 to |lines|
      invariant out == Kept(lines[..i], normalize)
      invariant forall s :: s in seen <==> s in out
      invariant strict ==> forall k :: 0 <= k < i && TrimSpace(lines[k]) != "" ==> normalize(TrimSpace(lines[k])).Some?
    {
      assert lines[..i + 1][..i] == lines[..i];
      var s := TrimSpace(lines[i]);
      if s == "" {
        continue;
      }
      var norm := normalize(s);
      if norm.None? {
        if strict {
          return out, false;
        }
        continue;
      }
      if norm.value !in seen {
        seen := seen + {norm.value};
        out := out + [norm.value];
      }
    }
    assert lines[..|lines|] == lines;
    valid := true;
  }

  method Lines(inputs: seq<string>) returns (lines: seq<string>)
    ensures lines == LinesOf(inputs)
  {
    lines := [];
    for i := 0 to |inputs|
      invariant lines == LinesOf(inputs[..i])
    {
      assert inputs[..i + 1][..i] == inputs[..i];
      lines := lines + Split(inputs[i], '\n');
    }
    assert inputs[..|inputs|] == inputs;
  }

  /** A list of normalized entries, each once. */
  ghost predicate IsNormal(list: seq<string>, normalize: string -> Option<string>) {
    && (forall i :: 0 <= i < |list| ==> Clean(list[i]) && normalize(list[i]) == Some(list[i]))
    && (forall i, j :: 0 <= i < j < |list| ==> list[i] != list[j])
  }

  lemma {:induction false} KeptIsNormal(lines: seq<string>, normalize: string -> Option<string>)
    requires IsNormalizer(normalize)
    ensures IsNormal(Kept(lines, normalize), normalize)
  {
    if lines != [] {
      KeptIsNormal(lines[..|lines| - 1], normalize);
    }
  }

  lemma {:induction false} KeptOfNormal(list: seq<string>, normalize: string -> Option<string>)
    requires IsNormal(list, normalize)
    ensures Kept(list, normalize) == list
  {
    if list != [] {
      var n := |list| - 1;
      KeptOfNormal(list[..n], normalize);
      TrimTrimmed(list[n]);
      assert list == list[..n] + [list[n]];
    }
  }

  /** A list accepted from a person, saved one entry per line, is read back as
      it is. */
  lemma SavedListResolves(lines: seq<string>, normalize: string -> Option<string>, max: nat)
    requires IsNormalizer(normalize) && Collected(lines, normalize, max, true).Some?
    ensures var list := Collected(lines, normalize, max, true).value;
      Collected(LinesOf([Join(list, '\n')]), normalize, max, false) == Some(list)
  {
    var list := Collected(lines, normalize, max, true).value;
    KeptIsNormal(lines, normalize);
    assert [Join(list, '\n')][..0] == [];
    assert LinesOf([Join(list, '\n')]) == Split(Join(list, '\n'), '\n');
    if list == [] {
      assert [""][..0] == [];
      assert Kept([""], normalize) == [];
    } else {
      SplitJoin(list, '\n');
      KeptOfNormal(list, normalize);
    }
  }

  // --- Host names ---

  predicate IsLabelChar(c: char) {
    'a' <= c <= 'z' || 'A' <= c <= 'Z' || '0' <= c <= '9' || c == '-'
  }

  predicate ValidHostLabel(part: string) {
    && part != "" && |part| <= 63 && part[0] != '-' && part[|part| - 1] != '-'
    && forall i :: 0 <= i < |part| ==> IsLabelChar(part[i])
  }

  predicate IsLoopback(h: string) {
    h == "localhost" || (|h| >= 10 && h[|h| - 10..] == ".localhost") || h == "localhost.localdomain"
  }

  function TrimDot(s: string): string {
    if s != "" && s[|s| - 1] == '.' then s[..|s| - 1] else s
  }

  predicate ValidLabels(labels: seq<string>) {
    labels != [] && (forall i :: 0 <= i < |labels| ==> ValidHostLabel(labels[i])) && !AllDigits(labels[|labels| - 1])
  }

  function NormalizeSourceHost(s: string): Option<string> {
    var h := TrimDot(s);
    if h == "" || |h| > 253 || !ValidLabels(Split(h, '.')) then None
    else if IsLoopback(ToLower(h)) then None
    else Some(ToLower(h))
  }

  // --- Which names are hosts ---

  /** A letter, a digit or a hyphen. */
  ghost predicate LabelCode(c: int) {
    97 <= c <= 122 || 65 <= c <= 90 || 48 <= c <= 57 || c == 45
  }

  /** At most 63 of them, with no hyphen at either end. */
  ghost predicate HostLabel(part: string) {
    && 1 <= |part| <= 63
    && (forall i :: 0 <= i < |part| ==> LabelCode(part[i] as int))
    && part[0] as int != 45 && part[|part| - 1] as int != 45
  }

  /** A name of this machine, in any case of letters. */
  ghost predicate NamesThisMachine(h: string) {
    || SameLetters(h, "localhost")
    || (|h| >= 10 && SameLetters(h[|h| - 10..], ".localhost"))
    || SameLetters(h, "localhost.localdomain")
  }

  ghost predicate HasMoreThanDigits(part: string) {
    exists i :: 0 <= i < |part| && !(48 <= part[i] as int <= 57)
  }

  ghost predicate IsHostName(h: string) {
    var labels := Split(h, '.');
    && 1 <= |h| <= 253
    && (forall i :: 0 <= i < |labels| ==> HostLabel(labels[i]))
    && HasMoreThanDigits(labels[|labels| - 1])
    && !NamesThisMachine(h)
  }

  /** One dot at the end is dropped; what is left is accepted exactly when it
      is the name of another machine, and comes out in lower case. */
  lemma NormalizedExactly(s: string)
    ensures var h := if |s| > 0 && s[|s| - 1] == '.' then s[..|s| - 1] else s;
      && (NormalizeSourceHost(s).Some? <==> IsHostName(h))
      && (NormalizeSourceHost(s).Some? ==>
            && SameLetters(h, NormalizeSourceHost(s).value)
            && forall c :: c in NormalizeSourceHost(s).value ==> !IsCapital(c))
  {
    var h := TrimDot(s);
    LabelsExactly(Split(h, '.'));
    LoopbackExactly(h);
    LowerExactly(h);
  }

  lemma LabelsExactly(labels: seq<string>)
    requires labels != []
    ensures ValidLabels(labels) <==>
      (forall i :: 0 <= i < |labels| ==> HostLabel(labels[i])) && HasMoreThanDigits(labels[|labels| - 1])
  {
    forall i | 0 <= i < |labels|
      ensures ValidHostLabel(labels[i]) <==> HostLabel(labels[i])
    {
      LabelExactly(labels[i]);
    }
    NotAllDigits(labels[|labels| - 1]);
  }

  lemma LabelExactly(part: string)
    ensures ValidHostLabel(part) <==> HostLabel(part)
  {
    assert forall i :: 0 <= i < |part| ==> (IsLabelChar(part[i]) <==> LabelCode(part[i] as int));
  }

  lemma NotAllDigits(part: string)
    ensures part != "" ==> (!AllDigits(part) <==> HasMoreThanDigits(part))
  {
  }

  lemma LoopbackExactly(h: string)
    ensures IsLoopback(ToLower(h)) <==> NamesThisMachine(h)
  {
    EqualFoldExactly(h, "localhost");
    EqualFoldExactly(h, "localhost.localdomain");
    assert ToLower("localhost") == "localhost";
    assert ToLower("localhost.localdomain") == "localhost.localdomain";
    if |h| >= 10 {
      EqualFoldExactly(h[|h| - 10..], ".localhost");
      assert ToLower(".localhost") == ".localhost";
      assert ToLower(h)[|h| - 10..] == ToLower(h[|h| - 10..]);
    }
  }

  function LowerAll(parts: seq<string>): seq<string> {
    seq(|parts|, i requires 0 <= i < |parts| => ToLower(parts[i]))
  }

  lemma LowerFirst(first: string, rest: seq<string>)
    ensures LowerAll([first] + rest) == [ToLower(first)] + LowerAll(rest)
  {
  }

  lemma LowerString(c: char, s: string)
    ensures ToLower([c] + s) == [LowerChar(c)] + ToLower(s)
  {
  }

  /** Letters do not move dots. */
  lemma {:induction false} SplitLower(h: string)
    ensures Split(ToLower(h), '.') == LowerAll(Split(h, '.'))
  {
    if h != "" {
      SplitLower(h[1..]);
      LowerString(h[0], h[1..]);
      assert h == [h[0]] + h[1..];
      var low, rest := ToLower(h), Split(h[1..], '.');
      assert low[1..] == ToLower(h[1..]) && (low[0] == '.' <==> h[0] == '.');
      if h[0] == '.' {
        assert Split(h, '.') == [""] + rest && Split(low, '.') == [""] + LowerAll(rest);
        assert ToLower("") == "";
        LowerFirst("", rest);
      } else {
        var head := [h[0]] + rest[0];
        LowerString(h[0], rest[0]);
        LowerFirst(head, rest[1..]);
        LowerFirst(rest[0], rest[1..]);
        assert rest == [rest[0]] + rest[1..];
        assert LowerAll(rest)[1..] == LowerAll(rest[1..]);
        assert Split(low, '.') == [[low[0]] + LowerAll(rest)[0]] + LowerAll(rest)[1..];
      }
    }
  }

  lemma LowerChars(c: char)
    ensures IsDigit(LowerChar(c)) <==> IsDigit(c)
    ensures IsLabelChar(LowerChar(c)) <==> IsLabelChar(c)
    ensures LowerChar(c) == '-' <==> c == '-'
    ensures LowerChar(LowerChar(c)) == LowerChar(c)
  {
  }

  lemma LowerLabel(part: string)
    ensures ValidHostLabel(part) ==> ValidHostLabel(ToLower(part))
    ensures AllDigits(ToLower(part)) <==> AllDigits(part)
  {
    forall i | 0 <= i < |part|
      ensures IsDigit(ToLower(part)[i]) <==> IsDigit(part[i])
      ensures IsLabelChar(ToLower(part)[i]) <==> IsLabelChar(part[i])
      ensures ToLower(part)[i] == '-' <==> part[i] == '-'
    {
      LowerChars(part[i]);
    }
  }

  lemma LowerTwice(h: string)
    ensures ToLower(ToLower(h)) == ToLower(h)
  {
  }

  lemma LowerLabels(h: string)
    requires ValidLabels(Split(h, '.'))
    ensures ValidLabels(Split(ToLower(h), '.'))
  {
    SplitLower(h);
    var labels := Split(h, '.');
    forall i | 0 <= i < |labels|
      ensures ValidHostLabel(LowerAll(labels)[i])
    {
      LowerLabel(labels[i]);
    }
    LowerLabel(labels[|labels| - 1]);
  }

  predicate LabelChars(part: string) {
    forall j :: 0 <= j < |part| ==> IsLabelChar(part[j])
  }

  /** Every character of a host is a dot or belongs to a label. */
  lemma {:induction false} HostChars(h: string)
    requires forall p :: p in Split(h, '.') ==> LabelChars(p)
    ensures forall k :: 0 <= k < |h| ==> h[k] == '.' || IsLabelChar(h[k])
  {
    if h != "" {
      var parts, rest := Split(h, '.'), Split(h[1..], '.');
      forall p | p in rest
        ensures LabelChars(p)
      {
        if h[0] == '.' {
          assert parts == [""] + rest && p in parts;
        } else {
          assert parts == [[h[0]] + rest[0]] + rest[1..] && parts[0] in parts;
          assert parts[0][0] == h[0] && parts[0][1..] == rest[0];
          assert p == rest[0] || p in parts;
        }
      }
      if h[0] != '.' {
        assert parts[0] in parts && parts[0][0] == h[0];
      }
      HostChars(h[1..]);
    }
  }

  /** The last part ends where the text ends. */
  lemma {:induction false} LastPart(h: string)
    ensures var last := Split(h, '.')[|Split(h, '.')| - 1];
      last == "" <==> h == "" || h[|h| - 1] == '.'
  {
    if h != "" {
      LastPart(h[1..]);
    }
  }

  /** A text of valid labels ends in one, and a line can hold it. */
  lemma LabelsAreClean(n: string)
    requires ValidLabels(Split(n, '.'))
    ensures n != "" && TrimDot(n) == n && Clean(n)
  {
    LastPart(n);
    assert forall p :: p in Split(n, '.') ==> LabelChars(p);
    HostChars(n);
    assert forall k :: 0 <= k < |n| ==> n[k] == '.' || IsLabelChar(n[k]);
  }

  /** A normalized host name normalizes to itself, and a line can hold it. */
  lemma HostsNormalize(s: string)
    ensures NormalizeSourceHost(s).Some? ==>
      var n := NormalizeSourceHost(s).value;
      NormalizeSourceHost(n) == Some(n) && Clean(n)
  {
    if NormalizeSourceHost(s).Some? {
      var h := TrimDot(s);
      LowerLabels(h);
      LabelsAreClean(ToLower(h));
      LowerTwice(h);
    }
  }

  lemma HostsAreNormalized()
    ensures IsNormalizer(NormalizeSourceHost)
  {
    forall s | NormalizeSourceHost(s).Some?
      ensures Clean(NormalizeSourceHost(s).value) && NormalizeSourceHost(NormalizeSourceHost(s).value) == NormalizeSourceHost(s)
    {
      HostsNormalize(s);
    }
  }

  const MAX_ENTRIES := 500

  /** So a list of sending source hosts is read back as it was saved. */
  lemma SavedHostsResolve(lines: seq<string>)
    requires Collected(lines, NormalizeSourceHost, MAX_ENTRIES, true).Some?
    ensures var list := Collected(lines, NormalizeSourceHost, MAX_ENTRIES, true).value;
      Collected(LinesOf([Join(list, '\n')]), NormalizeSourceHost, MAX_ENTRIES, false) == Some(list)
  {
    HostsAreNormalized();
    SavedListResolves(lines, NormalizeSourceHost, MAX_ENTRIES);
  }
}
