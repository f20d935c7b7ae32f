/** The lookups of one run over the shared store, call by call, for host names
    of any number of kinds (sourceCache in app/modules/sourcecache.go). */
module SourceCaches {
  import opened Options
  import opened SourceRuns

  datatype Kind = SmtpHost | GlobalHost | Spf | Reporter

  type Name = string

  datatype Key = Key(kind: Kind, name: Name)

  type Rows = map<Key, Row>

  // --- Choosing a stored row ---

  /** The rows of a name, kind by kind. */
  predicate HasRow(rows: Rows, kinds: seq<Kind>, name: Name, row: Row) {
    exists k :: k in kinds && Key(k, name) in rows && rows[Key(k, name)] == row
  }

  function NonEmptyRow(): Row -> bool {
    (row: Row) => row.entries != []
  }

  function FreshRow(now: int): Row -> bool {
    (row: Row) => InAge(row, true, now)
  }

  function AnyRow(now: int): Row -> bool {
    (row: Row) => InAge(row, false, now)
  }

  predicate InAge(row: Row, recent: bool, now: int) {
    recent ==> 0 <= now - row.fetchedAt <= FRESH_AGE
  }

  /** best is the most recently fetched of the rows that qualify, none when
      there is none. */
  ghost predicate IsLatest(best: Option<Row>, rows: Rows, kinds: seq<Kind>, name: Name, qualifies: Row -> bool) {
    && (best.None? ==> forall row :: HasRow(rows, kinds, name, row) ==> !qualifies(row))
    && (best.Some? ==> HasRow(rows, kinds, name, best.value) && qualifies(best.value))
    && (best.Some? ==> forall row :: HasRow(rows, kinds, name, row) && qualifies(row) ==> row.fetchedAt <= best.value.fetchedAt)
  }

  method StoredRow(rows: Rows, kinds: seq<Kind>, name: Name, recent: bool, now: int) returns (best: Option<Row>)
    ensures IsLatest(best, rows, kinds, name, if recent then FreshRow(now) else AnyRow(now))
  {
    best := None;
    ghost var qualifies := if recent then FreshRow(now) else AnyRow(now);
    for i := 0 to |kinds|
      invariant IsLatest(best, rows, kinds[..i], name, qualifies)
    {
      OneMoreKind(rows, kinds, i, name);
      if Key(kinds[i], name) !in rows {
        continue;
      }
      var row := rows[Key(kinds[i], name)];
      var age := now - row.fetchedAt;
      if recent && (age > FRESH_AGE || age < 0) {
        continue;
      }
      if best.None? || row.fetchedAt > best.value.fetchedAt {
        best := Some(row);
      }
    }
    assert kinds[..|kinds|] == kinds;
  }

  method KeptRow(rows: Rows, kinds: seq<Kind>, name: Name) returns (best: Option<Row>)
    ensures IsLatest(best, rows, kinds, name, NonEmptyRow())
  {
    best := None;
    ghost var qualifies := NonEmptyRow();
    for i := 0 to |kinds|
      invariant IsLatest(best, rows, kinds[..i], name, qualifies)
    {
      OneMoreKind(rows, kinds, i, name);
      if Key(kinds[i], name) !in rows {
        continue;
      }
      var row := rows[Key(kinds[i], name)];
      if row.entries == [] {
        continue;
      }
      if best.None? || row.fetchedAt > best.value.fetchedAt {
        best := Some(row);
      }
    }
    assert kinds[..|kinds|] == kinds;
  }

  lemma OneMoreKind(rows: Rows, kinds: seq<Kind>, i: nat, name: Name)
    requires i < |kinds|
    ensures forall row :: HasRow(rows, kinds[..i + 1], name, row) <==>
      HasRow(rows, kinds[..i], name, row) || (Key(kinds[i], name) in rows && rows[Key(kinds[i], name)] == row)
  {
    assert kinds[..i + 1] == kinds[..i] + [kinds[i]];
    assert forall k :: k in kinds[..i + 1] <==> k in kinds[..i] || k == kinds[i];
  }

  // --- The store and the runs ---

  /** The rows of the name are all empty or all non-empty. */
  ghost predicate Uniform(rows: Rows, kinds: seq<Kind>, name: Name) {
    forall a, b :: HasRow(rows, kinds, name, a) && HasRow(rows, kinds, name, b) ==> (a.entries == [] <==> b.entries == [])
  }

  ghost predicate AllNonEmpty(rows: Rows, kinds: seq<Kind>, name: Name) {
    (exists row :: HasRow(rows, kinds, name, row)) && forall row :: HasRow(rows, kinds, name, row) ==> row.entries != []
  }

  /** What StoreAll leaves. */
  ghost predicate StoredAll(before: Rows, after: Rows, kinds: seq<Kind>, host: Name, row: Row) {
    && (row.entries != [] ==> forall k :: k in kinds ==> Key(k, host) in after && after[Key(k, host)] == row)
    && (forall key: Key :: key in after <==> key in before || (key.name == host && key.kind in kinds))
    && (forall key: Key :: key in after ==>
          (key.name == host && key.kind in kinds && after[key] == row) || (key in before && after[key] == before[key]))
  }

  /** An answer with something makes every row of the name non-empty, one with
      nothing is stored only where all of them are empty. */
  lemma StoredAllIsUniform(before: Rows, after: Rows, kinds: seq<Kind>, host: Name, row: Row)
    requires StoredAll(before, after, kinds, host, row)
    requires row.entries == [] ==> forall r :: HasRow(before, kinds, host, r) ==> r.entries == []
    ensures Uniform(after, kinds, host)
    ensures AllNonEmpty(before, kinds, host) ==> AllNonEmpty(after, kinds, host)
  {
    forall r | HasRow(after, kinds, host, r)
      ensures r.entries == [] <==> row.entries == []
    {
      var k :| k in kinds && Key(k, host) in after && after[Key(k, host)] == r;
      if row.entries == [] && r != row {
        assert HasRow(before, kinds, host, r);
      }
    }
    if AllNonEmpty(before, kinds, host) {
      var r :| HasRow(before, kinds, host, r);
      var k :| k in kinds && Key(k, host) in before && before[Key(k, host)] == r;
      assert HasRow(after, kinds, host, after[Key(k, host)]);
    }
  }

  /** What a lookup that had to be made comes to: something complete is stored
      for every kind and used; nothing complete keeps and uses the latest
      non-empty row, or is stored; anything else changes no row and falls back
      to the latest one. */
  ghost predicate Asked(answer: Answer, before: Rows, after: Rows, kinds: seq<Kind>, host: Name, now: int, found: Answer) {
    if found.complete && found.entries != [] then
      answer == found && StoredAll(before, after, kinds, host, Row(found.entries, false, now))
    else if found.complete then
      exists kept :: IsLatest(kept, before, kinds, host, NonEmptyRow()) &&
        if kept.Some? then answer == Answer(kept.value.entries, true) && after == before
        else answer == found && StoredAll(before, after, kinds, host, Row([], false, now))
    else
      after == before &&
      exists row :: IsLatest(row, before, kinds, host, AnyRow(now)) && answer == if row.Some? then Answer(row.value.entries, true) else found
  }

  /** A call with nothing remembered: a fresh row is used without asking. */
  ghost predicate Resolved(answer: Answer, row: Option<Row>, before: Rows, after: Rows, kinds: seq<Kind>, host: Name, now: int,
                           found: Answer, canceled: bool) {
    if row.Some? then answer == Answer(row.value.entries, true) && after == before
    else if canceled then answer == Answer(found.entries, false) && after == before
    else Asked(answer, before, after, kinds, host, now, found)
  }

  class SourceStore {
    var rows: Rows

    method Replace(key: Key, row: Row, keepNonEmpty: bool) returns (written: bool)
      modifies this
      ensures var before := if key in old(rows) then Some(old(rows)[key]) else None;
        && written == Written(before, row.entries, !keepNonEmpty)
        && rows == if written then old(rows)[key := row] else old(rows)
    {
      written := !(keepNonEmpty && row.entries == [] && key in rows && rows[key].entries != []);
      if written {
        rows := rows[key := row];
      }
    }
  }

  class SourceCache {
    const store: SourceStore
    const hostKinds: map<Name, seq<Kind>>
    var hosts: map<Name, Answer>

    function KindsOf(host: Name): seq<Kind> {
      if host in hostKinds then hostKinds[host] else []
    }

    constructor (store: SourceStore, hostKinds: map<Name, seq<Kind>>)
      ensures this.store == store && this.hostKinds == hostKinds && hosts == map[]
    {
      this.store, this.hostKinds, this.hosts := store, hostKinds, map[];
    }

    /** One whole call. Rows of the name that are all empty or all non-empty
        stay so, and with only non-empty ones stored, whatever the lookup
        found, they stay non-empty and the answer is good unless the call was
        canceled or the run repeats an older answer. Rows of other names and
        remembered answers for other names stay. */
    method ResolveHost(host: Name, now: int, found: Answer, canceled: bool) returns (answer: Answer)
      modifies this, store
      ensures host in old(hosts) ==> answer == old(hosts)[host] && hosts == old(hosts) && store.rows == old(store.rows)
      ensures host !in old(hosts) ==> hosts == old(hosts) || hosts == old(hosts)[host := answer]
      ensures !canceled ==> host in hosts
      ensures Uniform(old(store.rows), KindsOf(host), host) ==> Uniform(store.rows, KindsOf(host), host)
      ensures AllNonEmpty(old(store.rows), KindsOf(host), host) ==>
        && AllNonEmpty(store.rows, KindsOf(host), host)
        && (Good(answer) <==> if host in old(hosts) then Good(old(hosts)[host]) else host in hosts)
      ensures SameForOthers(old(store.rows), store.rows, host)
      ensures host !in old(hosts) ==> exists row ::
        IsLatest(row, old(store.rows), KindsOf(host), host, FreshRow(now))
        && Resolved(answer, row, old(store.rows), store.rows, KindsOf(host), host, now, found, canceled)
    {
      if host in hosts {
        return hosts[host];
      }
      var kinds := KindsOf(host);
      var row := StoredRow(store.rows, kinds, host, true, now);
      if row.Some? {
        answer := Answer(row.value.entries, true);
      } else {
        if canceled {
          return Answer(found.entries, false);
        }
        answer := AskedHost(kinds, host, now, found);
      }
      hosts := hosts[host := answer];
    }

    /** What a lookup found, with the stored rows behind it. */
    method AskedHost(kinds: seq<Kind>, host: Name, now: int, found: Answer) returns (answer: Answer)
      modifies store
      ensures Uniform(old(store.rows), kinds, host) ==> Uniform(store.rows, kinds, host)
      ensures AllNonEmpty(old(store.rows), kinds, host) ==> AllNonEmpty(store.rows, kinds, host) && Good(answer)
      ensures Asked(answer, old(store.rows), store.rows, kinds, host, now, found)
      ensures SameForOthers(old(store.rows), store.rows, host)
    {
      answer := found;
      var kept: Option<Row> := None;
      if found.complete && found.entries == [] {
        kept := KeptRow(store.rows, kinds, host);
      }
      if kept.Some? {
        answer := Answer(kept.value.entries, true);
      } else if found.complete {
        ghost var before := store.rows;
        var refused := StoreAll(kinds, host, Row(found.entries, false, now));
        StoredAllIsUniform(before, store.rows, kinds, host, Row(found.entries, false, now));
        if refused && found.entries == [] {
          kept := KeptRow(store.rows, kinds, host);
          if kept.Some? {
            answer := Answer(kept.value.entries, true);
          }
        }
      } else {
        var row := StoredRow(store.rows, kinds, host, false, now);
        if row.Some? {
          answer := Answer(row.value.entries, true);
        }
      }
    }

    /** Stores a lookup for every kind of the name. */
    method StoreAll(kinds: seq<Kind>, host: Name, row: Row) returns (refused: bool)
      modifies store
      ensures row.entries != [] ==> !refused
      ensures StoredAll(old(store.rows), store.rows, kinds, host, row)
    {
      refused := false;
      for i := 0 to |kinds|
        invariant row.entries != [] ==> !refused
        invariant StoredAll(old(store.rows), store.rows, kinds[..i], host, row)
      {
        assert kinds[..i + 1] == kinds[..i] + [kinds[i]];
        var written := store.Replace(Key(kinds[i], host), row, true);
        if !written {
          refused := true;
        }
      }
      assert kinds[..|kinds|] == kinds;
    }
  }

  predicate SameForOthers(before: Rows, after: Rows, host: Name) {
    && (forall key: Key :: key in before && key.name != host ==> key in after && after[key] == before[key])
    && (forall key: Key :: key in after && key.name != host ==> key in before)
  }
}
