/** Re-check days as text: the saved differences from the defaults resolve to
    the whole map again (app/modules/settings.go). The categories and their
    defaults are parameters. */
module RecheckDays {
  import opened Options
  import opened Text

  const MIN_DAYS := 1
  const MAX_DAYS := 365

  type Days = map<string, int>

  predicate IsName(c: string) {
    c != "" && Trimmed(c) && ',' !in c && '=' !in c
  }

  predicate InRange(n: int) {
    MIN_DAYS <= n <= MAX_DAYS
  }

  /** The categories are distinct plain names, each with a default. */
  ghost predicate IsTable(categories: seq<string>, defaults: string -> int) {
    && (forall i :: 0 <= i < |categories| ==> IsName(categories[i]) && InRange(defaults(categories[i])))
    && (forall i, j :: 0 <= i < j < |categories| ==> categories[i] != categories[j])
  }

  /** Days of every category. */
  ghost predicate IsFull(days: Days, categories: seq<string>) {
    (forall c :: c in days <==> c in categories) && forall c :: c in days ==> InRange(days[c])
  }

  // --- Printing ---

  /** The differences, in the order of the categories. */
  function Parts(days: Days, categories: seq<string>, defaults: string -> int): seq<string> {
    if categories == [] then []
    else
      var before, c := Parts(days, categories[..|categories| - 1], defaults), categories[|categories| - 1];
      if c in days && days[c] != defaults(c) && days[c] >= 0 then before + [c + "=" + Itoa(days[c])] else before
  }

  /** Only values in range are ever printed. */
  method FormatRecheckDays(days: Days, categories: seq<string>, defaults: string -> int) returns (s: string)
    requires forall c :: c in days ==> InRange(days[c])
    ensures s == Join(Parts(days, categories, defaults), ',')
  {
    var parts: seq<string> := [];
    for i := 0 to |categories|
      invariant parts == Parts(days, categories[..i], defaults)
    {
      var c := categories[i];
      assert categories[..i + 1][..i] == categories[..i];
      if c in days && days[c] != defaults(c) {
        parts := parts + [c + "=" + Itoa(days[c])];
      }
    }
    assert categories[..|categories|] == categories;
    s := Join(parts, ',');
  }

  // --- Parsing ---

  /** One entry added to the days read so far: category=days, or nothing. */
  function WithPart(days: Days, raw: string): Option<Days> {
    var part := TrimSpace(raw);
    if part == "" then Some(days)
    else
      var cut := Cut(part, '=');
      if cut.None? then None
      else
        var n := Atoi(TrimSpace(cut.value.1));
        if n.None? then None else Some(days[TrimSpace(cut.value.0) := n.value])
  }

  /** The text names a category and a number of days, with white space allowed
      around both. */
  ghost predicate IsEntry(text: string, name: string, n: int) {
    exists left, right :: text == left + "=" + right && '=' !in left && name == TrimSpace(left) && Atoi(TrimSpace(right)) == Some(n)
  }

  /** White space around an entry does not matter; a blank one adds nothing,
      and one that names no days is refused. */
  lemma WithPartExactly(days: Days, raw: string, i: nat, j: nat)
    requires i <= j <= |raw| && SpaceAround(raw, i, j) && Trimmed(raw[i..j])
    ensures i == j ==> WithPart(days, raw) == Some(days)
    ensures i < j && WithPart(days, raw).Some? ==>
      exists name, n :: IsEntry(raw[i..j], name, n) && WithPart(days, raw) == Some(days[name := n])
    ensures i < j && WithPart(days, raw).None? ==> forall name, n :: !IsEntry(raw[i..j], name, n)
  {
    TrimTo(raw, i, j);
    var part := raw[i..j];
    CutExactly(part, '=');
    if i < j {
      if WithPart(days, raw).Some? {
        var left, right := Cut(part, '=').value.0, Cut(part, '=').value.1;
        assert part == left + "=" + right;
        assert IsEntry(part, TrimSpace(left), Atoi(TrimSpace(right)).value);
      }
      forall name, n | IsEntry(part, name, n)
        ensures WithPart(days, raw).Some?
      {
        var left, right :| part == left + "=" + right && '=' !in left && name == TrimSpace(left) && Atoi(TrimSpace(right)) == Some(n);
        CutFirst(left, right, '=');
      }
    }
  }

  function WithParts(raws: seq<string>): Option<Days> {
    if raws == [] then Some(map[])
    else
      var before := WithParts(raws[..|raws| - 1]);
      if before.None? then None else WithPart(before.value, raws[|raws| - 1])
  }

  predicate Validated(days: Days, categories: seq<string>) {
    forall c :: c in days ==> c in categories && InRange(days[c])
  }

  function Parse(s: string, categories: seq<string>): Option<Days> {
    var days := WithParts(Split(s, ','));
    if days.Some? && Validated(days.value, categories) then days else None
  }

  method ParseRecheckDays(s: string, categories: seq<string>) returns (r: Option<Days>)
    ensures r == Parse(s, categories)
    ensures r == var days := WithParts(Split(s, ','));
      if days.Some? && forall c :: c in days.value ==> c in categories && 1 <= days.value[c] <= 365 then days else None
  {
    var days: Days := map[];
    var raws := Split(s, ',');
    for i := 0 to |raws|
      invariant WithParts(raws[..i]) == Some(days)
    {
      assert raws[..i + 1][..i] == raws[..i];
      var next := WithPart(days, raws[i]);
      if next.None? {
        NoneStays(raws, i + 1);
        return None;
      }
      days := next.value;
    }
    assert raws[..|raws|] == raws;
    return if Validated(days, categories) then Some(days) else None;
  }

  lemma {:induction false} NoneStays(raws: seq<string>, i: nat)
    requires i <= |raws| && WithParts(raws[..i]).None?
    ensures WithParts(raws).None?
  {
    if i == |raws| {
      assert raws[..i] == raws;
    } else {
      var n := |raws| - 1;
      assert raws[..n][..i] == raws[..i];
      NoneStays(raws[..n], i);
    }
  }

  // --- Round trip ---

  function DefaultDays(categories: seq<string>, defaults: string -> int): Days {
    map c | c in categories :: defaults(c)
  }

  /** The saved text read over the defaults. */
  function Resolve(saved: string, categories: seq<string>, defaults: string -> int): Days {
    var days := DefaultDays(categories, defaults);
    if saved == "" then days
    else
      var parsed := Parse(saved, categories);
      if parsed.None? then days else days + parsed.value
  }

  function Deltas(days: Days, categories: seq<string>, defaults: string -> int): Days {
    map c | c in categories && c in days && days[c] != defaults(c) :: days[c]
  }

  /** One printed entry read back. */
  lemma ReadPart(days: Days, c: string, n: nat)
    requires IsName(c)
    ensures WithPart(days, c + "=" + Itoa(n)) == Some(days[c := n])
    ensures ',' !in c + "=" + Itoa(n)
  {
    var part := c + "=" + Itoa(n);
    AtoiItoa(n);
    assert part == c + ['='] + Itoa(n);
    assert part[0] == c[0] && part[|part| - 1] == Itoa(n)[|Itoa(n)| - 1];
    TrimTrimmed(part);
    CutFirst(c, Itoa(n), '=');
    TrimTrimmed(Itoa(n));
    TrimTrimmed(c);
  }

  lemma DeltasStep(days: Days, before: seq<string>, c: string, defaults: string -> int)
    ensures Deltas(days, before + [c], defaults) ==
            if c in days && days[c] != defaults(c) then Deltas(days, before, defaults)[c := days[c]] else Deltas(days, before, defaults)
  {
  }

  lemma WithPartsStep(parts: seq<string>, part: string, days: Days)
    requires WithParts(parts) == Some(days)
    ensures WithParts(parts + [part]) == WithPart(days, part)
  {
  }

  predicate AllNames(categories: seq<string>) {
    forall i :: 0 <= i < |categories| ==> IsName(categories[i])
  }

  lemma {:induction false} ReadParts(days: Days, categories: seq<string>, defaults: string -> int)
    requires AllNames(categories) && forall c :: c in days ==> InRange(days[c])
    ensures WithParts(Parts(days, categories, defaults)) == Some(Deltas(days, categories, defaults))
  {
    if categories == [] {
      assert Deltas(days, categories, defaults) == map[];
    } else {
      var n := |categories| - 1;
      var before, c := categories[..n], categories[n];
      ReadParts(days, before, defaults);
      assert categories == before + [c];
      PartsStep(days, before, c, defaults);
      DeltasStep(days, before, c, defaults);
      if c in days && days[c] != defaults(c) {
        ReadPart(Deltas(days, before, defaults), c, days[c]);
        WithPartsStep(Parts(days, before, defaults), c + "=" + Itoa(days[c]), Deltas(days, before, defaults));
      }
    }
  }

  lemma PartsStep(days: Days, before: seq<string>, c: string, defaults: string -> int)
    requires forall c :: c in days ==> InRange(days[c])
    ensures c in days && days[c] != defaults(c) ==>
      days[c] >= 0 && Parts(days, before + [c], defaults) == Parts(days, before, defaults) + [c + "=" + Itoa(days[c])]
    ensures !(c in days && days[c] != defaults(c)) ==> Parts(days, before + [c], defaults) == Parts(days, before, defaults)
  {
    assert (before + [c])[..|before|] == before;
  }

  lemma {:induction false} PartsHoldNoComma(days: Days, categories: seq<string>, defaults: string -> int)
    requires AllNames(categories) && forall c :: c in days ==> InRange(days[c])
    ensures forall part :: part in Parts(days, categories, defaults) ==> ',' !in part
  {
    if categories != [] {
      var n := |categories| - 1;
      var before, c := categories[..n], categories[n];
      PartsHoldNoComma(days, before, defaults);
      assert categories == before + [c];
      PartsStep(days, before, c, defaults);
      if c in days && days[c] != defaults(c) {
        ReadPart(map[], c, days[c]);
      }
    }
  }

  lemma JoinedIsNotEmpty(parts: seq<string>)
    requires parts != [] && parts[0] != ""
    ensures Join(parts, ',') != ""
  {
  }

  lemma {:induction false} PartsNotEmpty(days: Days, categories: seq<string>, defaults: string -> int)
    ensures forall i :: 0 <= i < |Parts(days, categories, defaults)| ==> Parts(days, categories, defaults)[i] != ""
  {
    if categories != [] {
      PartsNotEmpty(days, categories[..|categories| - 1], defaults);
    }
  }

  /** What is printed of a full map resolves to the map. */
  lemma ResolveFormat(days: Days, categories: seq<string>, defaults: string -> int)
    requires IsTable(categories, defaults) && IsFull(days, categories)
    ensures Resolve(Join(Parts(days, categories, defaults), ','), categories, defaults) == days
  {
    var parts := Parts(days, categories, defaults);
    ReadParts(days, categories, defaults);
    PartsHoldNoComma(days, categories, defaults);
    OverDefaults(days, categories, defaults);
    if parts == [] {
      assert Deltas(days, categories, defaults) == map[];
    } else {
      SplitJoin(parts, ',');
      PartsNotEmpty(days, categories, defaults);
      JoinedIsNotEmpty(parts);
    }
  }

  lemma OverDefaults(days: Days, categories: seq<string>, defaults: string -> int)
    requires IsFull(days, categories)
    ensures DefaultDays(categories, defaults) + Deltas(days, categories, defaults) == days
    ensures Validated(Deltas(days, categories, defaults), categories)
  {
  }

  /** Changing some days: the saved text resolves to the old map with the
      changes, the other categories unchanged. */
  lemma SavedChangeResolves(saved: string, changes: Days, categories: seq<string>, defaults: string -> int)
    requires IsTable(categories, defaults) && Validated(changes, categories)
    ensures var merged := Resolve(saved, categories, defaults) + changes;
      Resolve(Join(Parts(merged, categories, defaults), ','), categories, defaults) == merged
  {
    var resolved := Resolve(saved, categories, defaults);
    assert IsFull(DefaultDays(categories, defaults), categories);
    assert IsFull(resolved + changes, categories);
    ResolveFormat(resolved + changes, categories, defaults);
  }
}
