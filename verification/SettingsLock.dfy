/** Changes of the settings by several requests at once, under the settings
    lock (app/modules/settingslock.go): each reads the saved values, validates
    the combination its change gives and writes, before the next one reads. */
module SettingsLock {
  import opened Options
  import opened ProbeTiming
  import opened SettingsTable
  import Dns = DnsSettings
  import Smtp = SmtpSettings
  import Probe = ProbeSettings

  /** What one request asks to change: any of the groups together, and any
      other settings. */
  datatype Request = Request(dns: Option<Dns.Input>, smtp: Option<Smtp.Input>, probe: Option<Probe.Input>, hasKey: bool)

  /** No row of the group is written. */
  predicate LeavesOut(writes: Writes, group: Group) {
    forall k :: k in writes ==> GroupOf(k) != group
  }

  /** What a request writes when every group of it is accepted against what
      was read. */
  predicate IsFill(read: Table, request: Request, writes: Writes) {
    && (if request.dns.Some? then Dns.IsChange(read, request.dns.value, writes) else LeavesOut(writes, DnsGroup))
    && (if request.smtp.Some? then Smtp.IsChange(read, request.smtp.value, writes, request.hasKey) else LeavesOut(writes, SmtpGroup))
    && (if request.probe.Some? then Probe.IsChange(read, request.probe.value, writes, request.hasKey) else LeavesOut(writes, ProbeGroup))
  }

  /** The passwords typed are for the servers that will be saved with them. */
  predicate TypedFor(stored: Table, request: Request) {
    && (request.smtp.Some? ==> Smtp.TypedFor(Smtp.SmtpOf(stored), request.smtp.value))
    && (request.probe.Some? ==> Probe.TypedFor(Probe.ProbeOf(stored), request.probe.value))
  }

  predicate GoodDns(t: Table) {
    Dns.Valid(Dns.ConfigOf(t))
  }

  predicate GoodSmtp(t: Table) {
    Smtp.Valid(Smtp.SmtpOf(t))
  }

  predicate GoodProbe(t: Table) {
    Probe.Plain(t) && Probe.Valid(Probe.ProbeOf(t))
  }

  /** What the settings promise. */
  predicate Good(t: Table) {
    GoodDns(t) && GoodSmtp(t) && GoodProbe(t)
  }

  /** The rows of the group are the same. */
  ghost predicate SameRows(a: Table, b: Table, group: Group) {
    forall k :: GroupOf(k) == group ==> Stored(a, k) == Stored(b, k)
  }

  lemma RowsKept(t: Table, writes: Writes, group: Group)
    requires LeavesOut(writes, group)
    ensures SameRows(t, Persisted(t, writes), group)
  {
  }

  lemma DnsKept(a: Table, b: Table)
    requires SameRows(a, b, DnsGroup)
    ensures GoodDns(a) ==> GoodDns(b)
  {
  }

  lemma SmtpKept(a: Table, b: Table)
    requires SameRows(a, b, SmtpGroup)
    ensures GoodSmtp(a) ==> GoodSmtp(b)
  {
  }

  lemma ProbeKept(a: Table, b: Table)
    requires SameRows(a, b, ProbeGroup)
    ensures GoodProbe(a) ==> GoodProbe(b)
  {
    Probe.SameRowsSameProbe(a, b);
  }

  /** What was read stands in for what is stored. */
  ghost predicate Harmless(t: Table, unread: set<Key>) {
    && Dns.Harmless(t, unread)
    && Smtp.Harmless(Smtp.SmtpOf(t), Smtp.SmtpOf(ReadBut(t, unread)))
    && Probe.Harmless(Probe.ProbeOf(t), Probe.ProbeOf(ReadBut(t, unread)))
  }

  lemma HarmlessFillKeepsGood(t: Table, unread: set<Key>, request: Request, writes: Writes)
    requires Good(t) && Harmless(t, unread) && TypedFor(t, request) && IsFill(ReadBut(t, unread), request, writes)
    ensures Good(Persisted(t, writes))
  {
    var after := Persisted(t, writes);
    if request.dns.Some? {
      Dns.ChangeKeepsValid(t, unread, request.dns.value, writes);
    } else {
      RowsKept(t, writes, DnsGroup);
      DnsKept(t, after);
    }
    if request.smtp.Some? {
      Smtp.ChangeKeepsValid(t, unread, request.smtp.value, writes, request.hasKey);
    } else {
      RowsKept(t, writes, SmtpGroup);
      SmtpKept(t, after);
    }
    if request.probe.Some? {
      Probe.ChangeKeepsValid(t, unread, request.probe.value, writes, request.hasKey);
    } else {
      RowsKept(t, writes, ProbeGroup);
      ProbeKept(t, after);
    }
  }

  lemma HarmfulFillBreaks(t: Table, unread: set<Key>) returns (request: Request, writes: Writes)
    requires Good(t) && !Harmless(t, unread)
    ensures TypedFor(t, request) && IsFill(ReadBut(t, unread), request, writes) && !Good(Persisted(t, writes))
  {
    if !Dns.Harmless(t, unread) {
      var input;
      input, writes := Dns.HarmfulReadBreaks(t, unread);
      request := Request(Some(input), None, None, false);
    } else if !Smtp.Harmless(Smtp.SmtpOf(t), Smtp.SmtpOf(ReadBut(t, unread))) {
      var input;
      input, writes := Smtp.HarmfulReadBreaks(t, unread, false);
      request := Request(None, Some(input), None, false);
    } else {
      var input;
      input, writes := Probe.HarmfulReadBreaks(t, unread, false);
      request := Request(None, None, Some(input), false);
    }
  }

  /** Every request accepted against what was read keeps every promise of the
      stored settings, exactly when the rows that could not be read are
      harmless. */
  lemma HarmlessExactly(t: Table, unread: set<Key>)
    requires Good(t)
    ensures Harmless(t, unread) <==>
      forall request, writes :: TypedFor(t, request) && IsFill(ReadBut(t, unread), request, writes) ==> Good(Persisted(t, writes))
  {
    if Harmless(t, unread) {
      forall request, writes | TypedFor(t, request) && IsFill(ReadBut(t, unread), request, writes)
        ensures Good(Persisted(t, writes))
      {
        HarmlessFillKeepsGood(t, unread, request, writes);
      }
    } else {
      var request, writes := HarmfulFillBreaks(t, unread);
    }
  }

  /** A request that could read everything is harmless. */
  lemma NothingUnreadIsHarmless(t: Table)
    requires Good(t)
    ensures Harmless(t, {})
  {
    assert ReadBut(t, {}) == t;
  }

  /** Where a request is: it holds the lock from its first read to its last
      write. */
  datatype Pc = Outside | Locked | HasRead(saved: Table) | Filled(writes: Writes)

  type Thread = nat

  /** `locking` is false for requests that would not take the lock. */
  datatype State = State(table: Table, pcs: map<Thread, Pc>, locking: bool)

  /** The rows a read could not get count as absent. */
  datatype Step =
    | Arrive(r: Thread)
    | Lock(r: Thread)
    | Read(r: Thread, unread: set<Key>)
    | Fill(r: Thread, request: Request, writes: Writes)
    | Save(r: Thread, ok: bool)
    | Refuse(r: Thread)

  function PcOf(s: State, r: Thread): Pc {
    if r in s.pcs then s.pcs[r] else Outside
  }

  ghost predicate Enabled(s: State, step: Step) {
    match step
    case Arrive(r) => r !in s.pcs
    case Lock(r) => r in s.pcs && s.pcs[r].Outside? && (s.locking ==> forall q :: q in s.pcs ==> s.pcs[q].Outside?)
    case Read(r, _) => PcOf(s, r).Locked?
    case Fill(r, request, writes) => PcOf(s, r).HasRead? && TypedFor(s.table, request) && IsFill(s.pcs[r].saved, request, writes)
    case Save(r, _) => PcOf(s, r).Filled?
    case Refuse(r) => PcOf(s, r).HasRead?
  }

  function Apply(s: State, step: Step): State {
    match step
    case Arrive(r) => s.(pcs := s.pcs[r := Outside])
    case Lock(r) => s.(pcs := s.pcs[r := Locked])
    case Read(r, unread) => s.(pcs := s.pcs[r := HasRead(ReadBut(s.table, unread))])
    case Fill(r, _, writes) => s.(pcs := s.pcs[r := Filled(writes)])
    case Save(r, ok) =>
      State(if ok && PcOf(s, r).Filled? then Persisted(s.table, s.pcs[r].writes) else s.table, s.pcs[r := Outside], s.locking)
    case Refuse(r) => s.(pcs := s.pcs[r := Outside])
  }

  ghost predicate IsRun(states: seq<State>, steps: seq<Step>) {
    && |states| == |steps| + 1
    && (forall r :: r in states[0].pcs ==> states[0].pcs[r].Outside?)
    && forall i :: 0 <= i < |steps| ==> Enabled(states[i], steps[i]) && states[i + 1] == Apply(states[i], steps[i])
  }

  /** A step whose read, if it is one, missed nothing that matters. */
  ghost predicate ReadsHarmlessly(s: State, step: Step) {
    step.Read? ==> Harmless(s.table, step.unread)
  }

  /** What the request wants written is accepted against what it read of the
      table as it is, where nothing that matters was missed if `careful`. */
  ghost predicate FillsNow(t: Table, unread: set<Key>, request: Request, writes: Writes, careful: bool) {
    (careful ==> Harmless(t, unread)) && TypedFor(t, request) && IsFill(ReadBut(t, unread), request, writes)
  }

  ghost predicate Fits(t: Table, pc: Pc, careful: bool) {
    && (pc.HasRead? ==> exists unread :: (careful ==> Harmless(t, unread)) && pc.saved == ReadBut(t, unread))
    && (pc.Filled? ==> exists unread, request :: FillsNow(t, unread, request, pc.writes, careful))
  }

  /** One request at a time, and what it read and wants written fits the table
      as it is. */
  ghost predicate Serialized(s: State, careful: bool) {
    && s.locking
    && (forall q, r :: q in s.pcs && r in s.pcs && !s.pcs[q].Outside? && !s.pcs[r].Outside? ==> q == r)
    && (forall r :: r in s.pcs ==> Fits(s.table, s.pcs[r], careful))
  }

  lemma StepSerialized(s: State, step: Step, careful: bool)
    requires Serialized(s, careful) && Enabled(s, step) && (careful ==> ReadsHarmlessly(s, step))
    ensures Serialized(Apply(s, step), careful)
  {
    match step
    case Fill(r, request, writes) => FillSerialized(s, r, request, writes, careful);
    case Save(r, ok) => LeaveSerialized(s, Apply(s, step), r, careful);
    case Refuse(r) => LeaveSerialized(s, Apply(s, step), r, careful);
    case _ =>
  }

  lemma LeaveSerialized(s: State, s': State, r: Thread, careful: bool)
    requires Serialized(s, careful) && r in s.pcs && !s.pcs[r].Outside? && s'.locking && s'.pcs == s.pcs[r := Outside]
    ensures Serialized(s', careful)
  {
    assert forall q :: q in s'.pcs ==> s'.pcs[q].Outside?;
  }

  lemma FillSerialized(s: State, r: Thread, request: Request, writes: Writes, careful: bool)
    requires Serialized(s, careful) && PcOf(s, r).HasRead? && TypedFor(s.table, request) && IsFill(s.pcs[r].saved, request, writes)
    ensures Serialized(s.(pcs := s.pcs[r := Filled(writes)]), careful)
  {
    FillFits(s.table, s.pcs[r], request, writes, careful);
  }

  lemma FillFits(t: Table, pc: Pc, request: Request, writes: Writes, careful: bool)
    requires pc.HasRead? && Fits(t, pc, careful) && TypedFor(t, request) && IsFill(pc.saved, request, writes)
    ensures Fits(t, Filled(writes), careful)
  {
    var unread :| (careful ==> Harmless(t, unread)) && pc.saved == ReadBut(t, unread);
    assert FillsNow(t, unread, request, writes, careful);
  }

  lemma StepGood(s: State, step: Step)
    requires Serialized(s, true) && Good(s.table) && Enabled(s, step)
    ensures Good(Apply(s, step).table)
  {
    if step.Save? {
      var writes := s.pcs[step.r].writes;
      assert Fits(s.table, s.pcs[step.r], true);
      var unread, request :| FillsNow(s.table, unread, request, writes, true);
      HarmlessFillKeepsGood(s.table, unread, request, writes);
    }
  }

  // --- One request after the other ---

  lemma {:induction false} LockedIsSerialized(states: seq<State>, steps: seq<Step>, i: nat)
    requires IsRun(states, steps) && i <= |steps| && states[0].locking
    ensures Serialized(states[i], false)
  {
    if i > 0 {
      LockedIsSerialized(states, steps, i - 1);
      StepSerialized(states[i - 1], steps[i - 1], false);
    }
  }

  /** The table after the request: row by row what it wrote, the rest as it was. */
  ghost predicate Rewritten(before: Table, after: Table, writes: Writes) {
    forall key :: Stored(after, key) == if key in writes then writes[key] else Stored(before, key)
  }

  /** Under the lock the requests take effect one after the other: only a save
      that works changes the table, and what it writes is accepted against the
      table it changes, but for the rows its read missed. */
  lemma SavesAreSerial(states: seq<State>, steps: seq<Step>, i: nat)
    requires IsRun(states, steps) && i < |steps| && states[0].locking
    ensures if steps[i].Save? && steps[i].ok then
        exists unread, request, writes ::
          FillsNow(states[i].table, unread, request, writes, false) && Rewritten(states[i].table, states[i + 1].table, writes)
      else states[i + 1].table == states[i].table
  {
    if steps[i].Save? && steps[i].ok {
      LockedIsSerialized(states, steps, i);
      var t, writes := states[i].table, states[i].pcs[steps[i].r].writes;
      assert Fits(t, states[i].pcs[steps[i].r], false);
      var unread, request :| FillsNow(t, unread, request, writes, false);
      forall key
        ensures Stored(Persisted(t, writes), key) == if key in writes then writes[key] else Stored(t, key)
      {
        PersistedRow(t, writes, key);
      }
      assert Rewritten(t, states[i + 1].table, writes);
    }
  }

  /** However the requests interleave, failed saves and harmless failed reads
      included, the settings keep every promise: the verification has a
      resolver, notifications a host and a sender, the probe is set up with a
      delay before its failure and its next send, and each stored password is
      for the server saved with it. */
  lemma {:induction false} SettingsStayGood(states: seq<State>, steps: seq<Step>, i: nat)
    requires IsRun(states, steps) && i <= |steps| && states[0].locking && Good(states[0].table)
    requires forall n :: 0 <= n < i ==> ReadsHarmlessly(states[n], steps[n])
    ensures Serialized(states[i], true) && Good(states[i].table)
  {
    if i > 0 {
      SettingsStayGood(states, steps, i - 1);
      StepSerialized(states[i - 1], steps[i - 1], true);
      StepGood(states[i - 1], steps[i - 1]);
    }
  }

  lemma Extend(states: seq<State>, steps: seq<Step>, step: Step)
    returns (states': seq<State>, steps': seq<Step>)
    requires IsRun(states, steps) && Enabled(states[|steps|], step)
    ensures IsRun(states', steps') && |steps'| == |steps| + 1
    ensures states'[0] == states[0] && states'[|steps'|] == Apply(states[|steps|], step)
  {
    states', steps' := states + [Apply(states[|steps|], step)], steps + [step];
  }

  /** After any other read the run has a continuation that breaks a promise:
      a request that is accepted and saved. */
  lemma HarmfulReadBreaks(states: seq<State>, steps: seq<Step>, r: Thread, unread: set<Key>)
    returns (states': seq<State>, steps': seq<Step>)
    requires IsRun(states, steps) && Good(states[|steps|].table) && PcOf(states[|steps|], r).Locked?
    requires !Harmless(states[|steps|].table, unread)
    ensures IsRun(states', steps') && states'[0] == states[0] && !Good(states'[|steps'|].table)
  {
    var request, writes := HarmfulFillBreaks(states[|steps|].table, unread);
    states', steps' := Extend(states, steps, Read(r, unread));
    states', steps' := Extend(states', steps', Fill(r, request, writes));
    states', steps' := Extend(states', steps', Save(r, true));
  }

  /** A new installation, with nothing saved, is good. */
  lemma NothingSavedIsGood()
    ensures Good(map[])
  {
    var times := Probe.DEFAULT_TIMES;
    assert Insert(1140, []) == [1140];
    assert Sort(times[3..]) == [1140];
    assert Sort(times[2..]) == [900, 1140];
    assert Sort(times[1..]) == [660, 900, 1140];
    assert Sort(times) == times;
  }

  // --- A read that fails ---

  /** A password saved for one server, and a table that keeps every promise. */
  function WithPassword(): Table {
    map[SmtpHost := Words("a"), SmtpUsername := Words("u"), SmtpPassword := Secret(Connection("a", 587, StartTls, "u"))]
  }

  lemma WithPasswordIsGood()
    ensures Good(WithPassword())
  {
    SmtpRowsOnly(WithPassword());
    WithPasswordSmtp();
  }

  lemma SmtpRowsOnly(t: Table)
    requires forall k :: k in t ==> GroupOf(k) == SmtpGroup
    ensures GoodDns(t) && GoodProbe(t)
  {
    NothingSavedIsGood();
    DnsKept(map[], t);
    ProbeKept(map[], t);
  }

  lemma WithPasswordSmtp()
    ensures var server := Connection("a", 587, StartTls, "u"); Smtp.SmtpOf(WithPassword()) == Smtp.Smtp(false, server, Some(server), "")
    ensures var server := Connection("a", 587, StartTls, "u");
      Smtp.SmtpOf(ReadBut(WithPassword(), {SmtpPassword})) == Smtp.Smtp(false, server, None, "")
  {
  }

  /** With the password not read, another host is accepted. */
  lemma MoveIsAccepted(input: Smtp.Input, writes: Writes)
    requires input == Smtp.UNCHANGED.(host := To("b")) && writes == map[SmtpHost := Some(Words("b"))]
    ensures var request := Request(None, Some(input), None, false);
      TypedFor(WithPassword(), request) && IsFill(ReadBut(WithPassword(), {SmtpPassword}), request, writes)
    ensures var s := Smtp.SmtpOf(Persisted(WithPassword(), writes)); s.password.Some? && s.password.value != s.server
  {
    WithPasswordSmtp();
    Smtp.WritesGiveChange(WithPassword(), Smtp.SmtpOf(ReadBut(WithPassword(), {SmtpPassword})), input, writes);
  }

  /** A run from a table that keeps every promise: the row of the password
      could not be read, the host is changed, and the password is pointed at a
      server it was not typed for. */
  lemma UnreadPasswordMoves() returns (states: seq<State>, steps: seq<Step>)
    ensures IsRun(states, steps) && states[0].locking && Good(states[0].table)
    ensures var s := Smtp.SmtpOf(states[|steps|].table); s.password.Some? && s.password.value != s.server
  {
    var input := Smtp.UNCHANGED.(host := To("b"));
    var writes: Writes := map[SmtpHost := Some(Words("b"))];
    WithPasswordIsGood();
    MoveIsAccepted(input, writes);
    states, steps := OneRequest(WithPassword(), {SmtpPassword}, Request(None, Some(input), None, false), writes);
  }

  /** A single request, from its lock to its save. */
  lemma OneRequest(t: Table, unread: set<Key>, request: Request, writes: Writes) returns (states: seq<State>, steps: seq<Step>)
    requires TypedFor(t, request) && IsFill(ReadBut(t, unread), request, writes)
    ensures IsRun(states, steps) && states[0] == State(t, map[0 := Outside], true) && states[|steps|].table == Persisted(t, writes)
  {
    states, steps := [State(t, map[0 := Outside], true)], [];
    states, steps := Extend(states, steps, Lock(0));
    states, steps := Extend(states, steps, Read(0, unread));
    states, steps := Extend(states, steps, Fill(0, request, writes));
    states, steps := Extend(states, steps, Save(0, true));
  }

  // --- Without the lock ---

  /** Two requests that read before either of them saves. */
  lemma BothRead(t: Table) returns (states: seq<State>, steps: seq<Step>)
    ensures IsRun(states, steps) && states[0].table == t
    ensures states[|steps|] == State(t, map[0 := HasRead(t), 1 := HasRead(t)], false)
  {
    assert ReadBut(t, {}) == t;
    states, steps := [State(t, map[0 := Outside, 1 := Outside], false)], [];
    states, steps := Extend(states, steps, Lock(0));
    states, steps := Extend(states, steps, Lock(1));
    states, steps := Extend(states, steps, Read(0, {}));
    states, steps := Extend(states, steps, Read(1, {}));
  }

  lemma FillOne(states: seq<State>, steps: seq<Step>, r: Thread, t: Table, input: Dns.Input, writes: Writes)
    returns (states': seq<State>, steps': seq<Step>)
    requires IsRun(states, steps) && Dns.IsChange(t, input, writes) && Within(writes, DnsGroup)
    requires r in states[|steps|].pcs && states[|steps|].pcs[r] == HasRead(t)
    ensures IsRun(states', steps') && states'[0] == states[0]
    ensures states'[|steps'|] == states[|steps|].(pcs := states[|steps|].pcs[r := Filled(writes)])
  {
    states', steps' := Extend(states, steps, Fill(r, Request(Some(input), None, None, false), writes));
  }

  lemma BothFill(t: Table, first: Dns.Input, w1: Writes, second: Dns.Input, w2: Writes) returns (states: seq<State>, steps: seq<Step>)
    requires Dns.IsChange(t, first, w1) && Dns.IsChange(t, second, w2) && Within(w1, DnsGroup) && Within(w2, DnsGroup)
    ensures IsRun(states, steps) && states[0].table == t
    ensures states[|steps|] == State(t, map[0 := Filled(w1), 1 := Filled(w2)], false)
  {
    states, steps := BothRead(t);
    states, steps := FillOne(states, steps, 0, t, first, w1);
    states, steps := FillOne(states, steps, 1, t, second, w2);
  }

  lemma BothSave(t: Table, first: Dns.Input, w1: Writes, second: Dns.Input, w2: Writes) returns (states: seq<State>, steps: seq<Step>)
    requires Dns.IsChange(t, first, w1) && Dns.IsChange(t, second, w2) && Within(w1, DnsGroup) && Within(w2, DnsGroup)
    ensures IsRun(states, steps) && states[0].table == t
    ensures states[|steps|].table == Persisted(Persisted(t, w1), w2)
  {
    states, steps := BothFill(t, first, w1, second, w2);
    states, steps := Extend(states, steps, Save(0, true));
    states, steps := Extend(states, steps, Save(1, true));
  }

  /** Without the lock the promise breaks: one request empties the resolvers
      while only the system resolver is asked, another one, which read before,
      turns that off. */
  lemma WithoutTheLockItBreaks() returns (states: seq<State>, steps: seq<Step>)
    ensures IsRun(states, steps) && GoodDns(states[0].table) && !GoodDns(states[|steps|].table)
  {
    var t: Table := map[DnsSystemOnly := On];
    var first, second := Dns.Input(None, Some(Ok([])), None), Dns.Input(None, None, Some(false));
    var emptied: Writes := map[DnsResolvers := Some(Addresses([]))];
    var asked: Writes := map[DnsSystemOnly := None];
    Dns.WritesGiveChange(t, first, emptied);
    Dns.WritesGiveChange(t, second, asked);
    states, steps := BothSave(t, first, emptied, second, asked);
    BothSaved(t, emptied, asked);
  }

  lemma BothSaved(t: Table, emptied: Writes, asked: Writes)
    requires t == map[DnsSystemOnly := On]
    requires emptied == map[DnsResolvers := Some(Addresses([]))] && asked == map[DnsSystemOnly := None]
    ensures GoodDns(t) && !GoodDns(Persisted(Persisted(t, emptied), asked))
  {
  }
}
