/** The settings of the delivery probe (SettingsUpdate.Probe in
    app/modules/probe.go). */
module ProbeSettings {
  import opened Numbers
  import opened Options
  import opened ProbeTiming
  import opened SettingsTable
  import Text

  const DEFAULT_PORT := 993
  const DEFAULT_TIMES := [420, 660, 900, 1140]
  const DEFAULT_DELAY := 15
  const DEFAULT_FAILURE_MINUTES := 60
  const MIN_MINUTES := 1
  const MAX_MINUTES := 7 * 24 * 60
  const MAX_TIMES := 24
  const MIN_GAP := 15

  datatype Probe = Probe(enabled: bool, address: string, server: Connection, password: Option<Connection>,
                         times: seq<int>, delay: int, failure: int)

  /** The fields of a request; a password typed is named by the connection it
      is for. */
  datatype Input = Input(
    enabled: Option<bool>,
    address: Field<string>,
    host: Field<string>,
    port: Option<int>,
    security: Field<Security>,
    username: Option<string>,
    password: Option<Connection>,
    clearPassword: bool,
    times: Field<seq<int>>,
    delay: Option<int>,
    failure: Option<int>)

  predicate ValidMinutes(n: int) {
    MIN_MINUTES <= n <= MAX_MINUTES
  }

  function RawDelay(t: Table): int {
    NumberOf(Stored(t, ProbeDelay), DEFAULT_DELAY)
  }

  function RawFailure(t: Table): int {
    NumberOf(Stored(t, ProbeFailure), DEFAULT_FAILURE_MINUTES)
  }

  function ProbeOf(t: Table): Probe {
    var delay := if ValidMinutes(RawDelay(t)) then RawDelay(t) else DEFAULT_DELAY;
    var failure := if !ValidMinutes(RawFailure(t)) || RawFailure(t) <= delay then Max(DEFAULT_FAILURE_MINUTES, delay + 1) else RawFailure(t);
    Probe(SwitchOf(Stored(t, ProbeEnabled), false),
          TextOf(Stored(t, ProbeAddress)),
          Connection(TextOf(Stored(t, ProbeHost)), NumberOf(Stored(t, ProbePort), DEFAULT_PORT),
                     SecurityOf(Stored(t, ProbeSecurity), Ssl), TextOf(Stored(t, ProbeUsername))),
          SecretOf(Stored(t, ProbePassword)),
          TimesOf(Stored(t, ProbeSendTimes), DEFAULT_TIMES),
          delay, failure)
  }

  /** The thresholds are stored as they are read: none had to be replaced. */
  predicate Plain(t: Table) {
    ValidMinutes(RawDelay(t)) && ValidMinutes(RawFailure(t)) && RawDelay(t) < RawFailure(t)
  }

  /** The settings are read from their ten rows alone. */
  lemma SameRowsSameProbe(a: Table, b: Table)
    requires forall k :: GroupOf(k) == ProbeGroup ==> Stored(a, k) == Stored(b, k)
    ensures ProbeOf(a) == ProbeOf(b) && (Plain(a) <==> Plain(b))
  {
    assert RawDelay(a) == RawDelay(b) by {
      assert Stored(a, ProbeDelay) == Stored(b, ProbeDelay);
    }
    assert RawFailure(a) == RawFailure(b) by {
      assert Stored(a, ProbeFailure) == Stored(b, ProbeFailure);
    }
    assert Stored(a, ProbeEnabled) == Stored(b, ProbeEnabled) && Stored(a, ProbeAddress) == Stored(b, ProbeAddress);
    assert Stored(a, ProbeHost) == Stored(b, ProbeHost) && Stored(a, ProbePort) == Stored(b, ProbePort);
    assert Stored(a, ProbeSecurity) == Stored(b, ProbeSecurity) && Stored(a, ProbeUsername) == Stored(b, ProbeUsername);
    assert Stored(a, ProbePassword) == Stored(b, ProbePassword) && Stored(a, ProbeSendTimes) == Stored(b, ProbeSendTimes);
  }

  predicate Configured(p: Probe) {
    p.address != "" && p.server.host != "" && p.server.username != "" && p.password.Some?
  }

  /** An address to send to, and a server, a user and a password to read with. */
  predicate HasAll(p: Probe) {
    p.address != "" && p.server.host != "" && p.server.username != "" && p.password != None
  }

  /** A threshold stored out of range counts as the default one, a failure that
      does not come after the delay as the default or the minute after it: what
      is read is in order. */
  lemma ResolvedInOrder(t: Table)
    ensures var p, delay, failure := ProbeOf(t), RawDelay(t), RawFailure(t);
      && p.delay == (if 1 <= delay <= 10080 then delay else 15)
      && p.failure == (if p.delay < failure <= 10080 then failure else if p.delay < 60 then 60 else p.delay + 1)
      && 1 <= p.delay < p.failure
  {
  }

  /** Every two of the times are at least so many minutes apart, past midnight
      too. */
  predicate Apart(times: seq<int>, minutes: int) {
    times != [] ==> minutes <= MINUTES_A_DAY && forall i, j :: 0 <= i < j < |times| ==> minutes <= Circular(times[i], times[j])
  }

  predicate SendTimesOk(times: seq<int>) {
    OfDay(times) && |times| <= MAX_TIMES && Apart(Sort(times), MIN_GAP)
  }

  function ServerAfter(p: Probe, input: Input): Connection {
    Connection(Get(input.host, p.server.host), input.port.GetOr(p.server.port), Get(input.security, p.server.security),
               input.username.GetOr(p.server.username))
  }

  /** What the saved values become. */
  function Changed(p: Probe, input: Input): Probe {
    var server := ServerAfter(p, input);
    Probe(input.enabled.GetOr(p.enabled), Get(input.address, p.address), server,
          if input.password.Some? then input.password else if input.clearPassword then None else p.password,
          Get(input.times, p.times), input.delay.GetOr(p.delay), input.failure.GetOr(p.failure))
  }

  predicate ServerOk(input: Input) {
    !input.host.Invalid? && !input.security.Invalid? && (input.port.Some? ==> 1 <= input.port.value <= 65535)
  }

  predicate LoginOk(input: Input, hasKey: bool) {
    !input.address.Invalid? && (input.password.Some? ==> hasKey)
  }

  predicate TimingOk(input: Input) {
    && !input.times.Invalid? && (input.times.To? ==> SendTimesOk(input.times.value))
    && (input.delay.Some? ==> 1 <= input.delay.value <= 10080)
    && (input.failure.Some? ==> 1 <= input.failure.value <= 10080)
  }

  /** The combination with the saved values is one to save. */
  predicate Agrees(p: Probe, input: Input) {
    var after := Changed(p, input);
    && after.delay < after.failure
    && (input.times.To? || input.delay.Some? ==> Apart(Sort(after.times), after.delay + 1))
    && (!input.password.Some? && p.password.Some? ==> SameServer(p.server, after.server))
    && (after.enabled ==> HasAll(after))
  }

  /** When a change is saved. */
  predicate Accepts(p: Probe, input: Input, hasKey: bool) {
    ServerOk(input) && LoginOk(input, hasKey) && TimingOk(input) && Agrees(p, input)
  }

  /** The probe is on only when it is set up; a delay comes before a failure
      and before the next send; the stored password is for the saved server. */
  predicate Valid(p: Probe) {
    && (p.enabled ==> HasAll(p))
    && p.delay < p.failure
    && Apart(Sort(p.times), p.delay + 1)
    && (p.password.Some? ==> SameServer(p.password.value, p.server))
  }

  /** A password typed is for the server that will be saved with it. */
  predicate TypedFor(stored: Probe, input: Input) {
    input.password.Some? ==> input.password.value == ServerAfter(stored, input)
  }

  // --- The shortest gap ---

  function Given(times: seq<int>): seq<Option<int>> {
    seq(|times|, i requires 0 <= i < |times| => Some(times[i]))
  }

  lemma {:induction false} ParsedGiven(times: seq<int>)
    ensures Parsed(Given(times)) == times
  {
    if times != [] {
      var n := |times| - 1;
      assert Given(times)[..n] == Given(times[..n]);
      ParsedGiven(times[..n]);
    }
  }

  lemma GivenOfDay(times: seq<int>)
    requires OfDay(times)
    ensures forall t :: t in Given(times) && t.Some? ==> 0 <= t.value < MINUTES_A_DAY
  {
  }

  /** The times are so far apart exactly when the shortest gap is that long. */
  method GapAtLeast(times: seq<int>, minutes: int) returns (ok: bool)
    requires OfDay(times)
    ensures ok <==> Apart(Sort(times), minutes)
  {
    ParsedGiven(times);
    GivenOfDay(times);
    SortOfDay(times);
    var gap, found := MinProbeSendGap(Given(times));
    ok := !found || gap >= minutes;
    if found {
      ShortestIsApart(gap, Sort(times), minutes);
    }
  }

  lemma ShortestIsApart(gap: int, mins: seq<int>, minutes: int)
    requires mins != [] && IsShortestGap(gap, mins) && OfDay(mins)
    ensures gap >= minutes <==> Apart(mins, minutes)
  {
  }

  // --- The writes ---

  predicate SaysServer(writes: Writes, input: Input) {
    && Says(writes, ProbeHost, !input.host.Keep?, RowOf(Words(Get(input.host, "")), Get(input.host, "") == ""))
    && Says(writes, ProbePort, input.port.Some?, RowOf(Number(input.port.GetOr(0)), input.port == Some(DEFAULT_PORT)))
    && Says(writes, ProbeSecurity, !input.security.Keep?, RowOf(Secure(Get(input.security, Ssl)), input.security == To(Ssl)))
    && Says(writes, ProbeUsername, input.username.Some?, RowOf(Words(input.username.GetOr("")), input.username == Some("")))
  }

  predicate SaysLogin(writes: Writes, input: Input) {
    && Says(writes, ProbePassword, input.password.Some? || input.clearPassword, if input.password.Some? then Some(Secret(input.password.value)) else None)
    && Says(writes, ProbeAddress, !input.address.Keep?, RowOf(Words(Get(input.address, "")), Get(input.address, "") == ""))
    && Says(writes, ProbeEnabled, input.enabled.Some?, RowOf(On, input.enabled == Some(false)))
  }

  predicate SaysTiming(writes: Writes, input: Input) {
    && Says(writes, ProbeSendTimes, !input.times.Keep?, RowOf(Times(Get(input.times, [])), input.times == To(DEFAULT_TIMES)))
    && Says(writes, ProbeDelay, input.delay.Some?, RowOf(Number(input.delay.GetOr(0)), input.delay == Some(DEFAULT_DELAY)))
    && Says(writes, ProbeFailure, input.failure.Some?, RowOf(Number(input.failure.GetOr(0)), input.failure == Some(DEFAULT_FAILURE_MINUTES)))
  }

  lemma ServerGiven(t: Table, input: Input, writes: Writes)
    requires SaysServer(writes, input) && ServerOk(input)
    ensures ProbeOf(Persisted(t, writes)).server == ServerAfter(ProbeOf(t), input)
  {
  }

  lemma LoginGiven(t: Table, input: Input, writes: Writes)
    requires SaysLogin(writes, input) && !input.address.Invalid?
    ensures var p, q := Changed(ProbeOf(t), input), ProbeOf(Persisted(t, writes));
      q.password == p.password && q.address == p.address && q.enabled == p.enabled
  {
  }

  lemma TimingGiven(t: Table, input: Input, writes: Writes)
    requires SaysTiming(writes, input) && TimingOk(input)
    ensures ProbeOf(Persisted(t, writes)).times == Changed(ProbeOf(t), input).times
    ensures RawDelay(Persisted(t, writes)) == input.delay.GetOr(RawDelay(t))
    ensures RawFailure(Persisted(t, writes)) == input.failure.GetOr(RawFailure(t))
  {
    PersistedRow(t, writes, ProbeSendTimes);
    PersistedRow(t, writes, ProbeDelay);
    PersistedRow(t, writes, ProbeFailure);
  }

  /** What a change writes of this group when it is accepted against what was
      read. */
  predicate IsChange(read: Table, input: Input, writes: Writes, hasKey: bool) {
    Accepts(ProbeOf(read), input, hasKey) && SaysServer(writes, input) && SaysLogin(writes, input) && SaysTiming(writes, input)
  }

  /** The settings after the writes are the ones asked for; the thresholds,
      row by row, are those given or stored. */
  ghost predicate Gives(t: Table, input: Input, after: Table) {
    var p, q := Changed(ProbeOf(t), input), ProbeOf(after);
    && q.(delay := p.delay, failure := p.failure) == p
    && RawDelay(after) == input.delay.GetOr(RawDelay(t))
    && RawFailure(after) == input.failure.GetOr(RawFailure(t))
  }

  /** Applied to any table, the writes give the change asked for. */
  lemma WritesGiveChange(t: Table, input: Input, writes: Writes)
    requires ServerOk(input) && !input.address.Invalid? && TimingOk(input)
    requires SaysServer(writes, input) && SaysLogin(writes, input) && SaysTiming(writes, input)
    ensures Gives(t, input, Persisted(t, writes))
  {
    ServerGiven(t, input, writes);
    LoginGiven(t, input, writes);
    TimingGiven(t, input, writes);
  }

  /** Thresholds stored as they are read stay so when they stay in order. */
  lemma GivesPlain(t: Table, input: Input, after: Table)
    requires Plain(t) && TimingOk(input) && Gives(t, input, after)
    ensures Plain(after) <==> Changed(ProbeOf(t), input).delay < Changed(ProbeOf(t), input).failure
    ensures Plain(after) ==> ProbeOf(after) == Changed(ProbeOf(t), input)
  {
  }

  // --- Reads that fail ---

  /** A delay that fits the times read fits the times stored. */
  ghost predicate GapsKept(stored: Probe, read: Probe) {
    forall d :: ValidMinutes(d) && Apart(Sort(read.times), d + 1) ==> Apart(Sort(stored.times), d + 1)
  }

  /** What was read stands in for what is stored: the switch was not missed,
      nor the password and its server, the delay read is no shorter, the
      failure no later and the times leave no longer gap. */
  ghost predicate Harmless(stored: Probe, read: Probe) {
    && (stored.enabled ==> read.enabled)
    && (stored.password.Some? ==> read.password.Some? && SameServer(read.server, stored.server))
    && stored.delay <= read.delay && read.failure <= stored.failure
    && GapsKept(stored, read)
  }

  lemma FewerMinutesApart(times: seq<int>, n: int, m: int)
    requires n <= m && Apart(times, m)
    ensures Apart(times, n)
  {
  }

  lemma ReadTimingKeeps(stored: Probe, read: Probe, input: Input)
    requires Valid(stored) && Harmless(stored, read) && TimingOk(input) && Agrees(read, input)
    ensures var after := Changed(stored, input); after.delay < after.failure && Apart(Sort(after.times), after.delay + 1)
  {
    assert input.delay.Some? ==> ValidMinutes(input.delay.value);
    if input.times.To? && input.delay.None? {
      FewerMinutesApart(Sort(input.times.value), stored.delay + 1, read.delay + 1);
    }
  }

  lemma ReadLoginKeeps(t: Table, unread: set<Key>, input: Input)
    requires Valid(ProbeOf(t)) && TypedFor(ProbeOf(t), input)
    requires var read := ProbeOf(ReadBut(t, unread)); Harmless(ProbeOf(t), read) && Agrees(read, input)
    ensures var after := Changed(ProbeOf(t), input);
      && (after.enabled ==> HasAll(after))
      && (after.password.Some? ==> SameServer(after.password.value, after.server))
  {
  }

  /** A change accepted against what was read keeps what the settings promise. */
  lemma ChangeKeepsValid(t: Table, unread: set<Key>, input: Input, writes: Writes, hasKey: bool)
    requires Plain(t) && Valid(ProbeOf(t)) && TypedFor(ProbeOf(t), input)
    requires Harmless(ProbeOf(t), ProbeOf(ReadBut(t, unread))) && IsChange(ReadBut(t, unread), input, writes, hasKey)
    ensures Plain(Persisted(t, writes)) && Valid(ProbeOf(Persisted(t, writes)))
  {
    ReadTimingKeeps(ProbeOf(t), ProbeOf(ReadBut(t, unread)), input);
    ReadLoginKeeps(t, unread, input);
    WritesGiveChange(t, input, writes);
    GivesPlain(t, input, Persisted(t, writes));
  }

  const UNCHANGED := Input(None, Keep, Keep, None, Keep, None, None, false, Keep, None, None)

  /** An accepted change that leaves what the settings do not promise. */
  ghost predicate Breaks(t: Table, unread: set<Key>, input: Input, writes: Writes, hasKey: bool) {
    && TypedFor(ProbeOf(t), input) && IsChange(ReadBut(t, unread), input, writes, hasKey) && Within(writes, ProbeGroup)
    && (!Plain(Persisted(t, writes)) || !Valid(ProbeOf(Persisted(t, writes))))
  }

  lemma ItBreaks(t: Table, unread: set<Key>, input: Input, writes: Writes, hasKey: bool)
    requires Plain(t) && input.password.None?
    requires IsChange(ReadBut(t, unread), input, writes, hasKey) && Within(writes, ProbeGroup)
    requires !Valid(Changed(ProbeOf(t), input))
    ensures Breaks(t, unread, input, writes, hasKey)
  {
    WritesGiveChange(t, input, writes);
    GivesPlain(t, input, Persisted(t, writes));
  }

  predicate Says3(writes: Writes, input: Input) {
    SaysServer(writes, input) && SaysLogin(writes, input) && SaysTiming(writes, input)
  }

  lemma MissedSwitchBreaks(t: Table, unread: set<Key>, hasKey: bool) returns (input: Input, writes: Writes)
    requires Plain(t) && ProbeOf(t).enabled && !ProbeOf(ReadBut(t, unread)).enabled
    ensures Breaks(t, unread, input, writes, hasKey)
  {
    input := UNCHANGED.(address := To(""));
    writes := map[ProbeAddress := None];
    assert Says3(writes, input);
    ItBreaks(t, unread, input, writes, hasKey);
  }

  /** The probe is switched off and one field of its server changed. */
  lemma OffAccepted(read: Probe, input: Input, hasKey: bool)
    requires read.delay < read.failure
    requires input == UNCHANGED.(enabled := Some(false), host := input.host, port := input.port, security := input.security, username := input.username)
    requires ServerOk(input) && (read.password.Some? ==> SameServer(read.server, ServerAfter(read, input)))
    ensures Accepts(read, input, hasKey)
  {
  }

  lemma MissedPasswordBreaks(t: Table, unread: set<Key>, hasKey: bool) returns (input: Input, writes: Writes)
    requires Plain(t) && Valid(ProbeOf(t)) && ProbeOf(t).password.Some? && ProbeOf(ReadBut(t, unread)).password.None?
    ensures Breaks(t, unread, input, writes, hasKey)
  {
    var port := if ProbeOf(t).server.port == 1 then 2 else 1;
    input := UNCHANGED.(enabled := Some(false), port := Some(port));
    writes := map[ProbeEnabled := None, ProbePort := Some(Number(port))];
    PortWrites(input, writes, port);
    OffAccepted(ProbeOf(ReadBut(t, unread)), input, hasKey);
    PortBreaks(ProbeOf(t), input);
    ItBreaks(t, unread, input, writes, hasKey);
  }

  lemma PortWrites(input: Input, writes: Writes, port: int)
    requires input == UNCHANGED.(enabled := Some(false), port := Some(port)) && port != DEFAULT_PORT
    requires writes == map[ProbeEnabled := None, ProbePort := Some(Number(port))]
    ensures Says3(writes, input) && Within(writes, ProbeGroup)
  {
  }

  lemma PortBreaks(stored: Probe, input: Input)
    requires stored.password.Some? && SameServer(stored.password.value, stored.server)
    requires input.password.None? && !input.clearPassword && input.port.Some? && input.port.value != stored.server.port
    ensures !Valid(Changed(stored, input))
  {
  }

  /** The change of one field of the server to the default that was read for
      it. */
  predicate Resets(input: Input, writes: Writes) {
    || (input == UNCHANGED.(enabled := Some(false), host := To("")) && writes == map[ProbeEnabled := None, ProbeHost := None])
    || (input == UNCHANGED.(enabled := Some(false), port := Some(DEFAULT_PORT)) && writes == map[ProbeEnabled := None, ProbePort := None])
    || (input == UNCHANGED.(enabled := Some(false), security := To(Ssl)) && writes == map[ProbeEnabled := None, ProbeSecurity := None])
    || (input == UNCHANGED.(enabled := Some(false), username := Some("")) && writes == map[ProbeEnabled := None, ProbeUsername := None])
  }

  lemma ResetWrites(input: Input, writes: Writes)
    requires Resets(input, writes)
    ensures Says3(writes, input) && Within(writes, ProbeGroup)
  {
  }

  /** The field that was missed, set to what was read. */
  function MissedField(read: Connection, stored: Connection): (Input, Writes) {
    var off := UNCHANGED.(enabled := Some(false));
    if !Text.EqualFold(read.host, stored.host) then (off.(host := To("")), map[ProbeEnabled := None, ProbeHost := None])
    else if read.port != stored.port then (off.(port := Some(DEFAULT_PORT)), map[ProbeEnabled := None, ProbePort := None])
    else if read.security != stored.security then (off.(security := To(Ssl)), map[ProbeEnabled := None, ProbeSecurity := None])
    else (off.(username := Some("")), map[ProbeEnabled := None, ProbeUsername := None])
  }

  lemma MissedFieldBreaks(stored: Probe, read: Probe, hasKey: bool)
    requires stored.password.Some? && SameServer(stored.password.value, stored.server) && read.delay < read.failure
    requires !SameServer(read.server, stored.server)
    requires read.server.host == stored.server.host || read.server.host == ""
    requires read.server.port == stored.server.port || read.server.port == DEFAULT_PORT
    requires read.server.security == stored.server.security || read.server.security == Ssl
    requires read.server.username == stored.server.username || read.server.username == ""
    ensures var (input, writes) := MissedField(read.server, stored.server);
      Resets(input, writes) && Accepts(read, input, hasKey) && !Valid(Changed(stored, input))
  {
    OffAccepted(read, MissedField(read.server, stored.server).0, hasKey);
  }

  lemma MissedServerBreaks(t: Table, unread: set<Key>, hasKey: bool) returns (input: Input, writes: Writes)
    requires Plain(t) && Valid(ProbeOf(t)) && ProbeOf(t).password.Some?
    requires !SameServer(ProbeOf(ReadBut(t, unread)).server, ProbeOf(t).server)
    ensures Breaks(t, unread, input, writes, hasKey)
  {
    var stored, read := ProbeOf(t), ProbeOf(ReadBut(t, unread));
    MissedFieldBreaks(stored, read, hasKey);
    input, writes := MissedField(read.server, stored.server).0, MissedField(read.server, stored.server).1;
    ResetWrites(input, writes);
    ItBreaks(t, unread, input, writes, hasKey);
  }

  /** The probe is switched off and its timing changed. */
  lemma TimingAccepted(read: Probe, input: Input, hasKey: bool)
    requires input == UNCHANGED.(enabled := Some(false), times := input.times, delay := input.delay, failure := input.failure)
    requires input.times == Keep || input.times == To([])
    requires input.delay.Some? && ValidMinutes(input.delay.value) && (input.failure.Some? ==> ValidMinutes(input.failure.value))
    requires input.delay.value < input.failure.GetOr(read.failure) && Apart(Sort(Get(input.times, read.times)), input.delay.value + 1)
    ensures Accepts(read, input, hasKey)
  {
  }

  lemma DelayWrites(input: Input, writes: Writes, d: int)
    requires input == UNCHANGED.(enabled := Some(false), delay := Some(d), failure := Some(MAX_MINUTES))
    requires writes == map[ProbeEnabled := None, ProbeDelay := RowOf(Number(d), d == DEFAULT_DELAY), ProbeFailure := Some(Number(MAX_MINUTES))]
    ensures Says3(writes, input) && Within(writes, ProbeGroup)
  {
  }

  lemma GapBreaks(stored: Probe, input: Input, d: int)
    requires input.times == Keep && input.delay == Some(d) && !Apart(Sort(stored.times), d + 1)
    ensures !Valid(Changed(stored, input))
  {
  }

  lemma NoTimesWrites(input: Input, writes: Writes, d: int)
    requires input == UNCHANGED.(enabled := Some(false), times := To([]), delay := Some(d))
    requires writes == map[ProbeEnabled := None, ProbeSendTimes := Some(Times([])), ProbeDelay := RowOf(Number(d), d == DEFAULT_DELAY)]
    ensures Says3(writes, input) && Within(writes, ProbeGroup)
  {
  }

  lemma LateFailureBreaks(t: Table, unread: set<Key>, hasKey: bool) returns (input: Input, writes: Writes)
    requires Plain(t) && ProbeOf(t).failure < ProbeOf(ReadBut(t, unread)).failure
    ensures Breaks(t, unread, input, writes, hasKey)
  {
    var d := ProbeOf(t).failure;
    input := UNCHANGED.(enabled := Some(false), times := To([]), delay := Some(d));
    writes := map[ProbeEnabled := None, ProbeSendTimes := Some(Times([])), ProbeDelay := RowOf(Number(d), d == DEFAULT_DELAY)];
    NoTimesWrites(input, writes, d);
    TimingAccepted(ProbeOf(ReadBut(t, unread)), input, hasKey);
    ItBreaks(t, unread, input, writes, hasKey);
  }

  lemma ShortDelayBreaks(t: Table, unread: set<Key>, hasKey: bool) returns (input: Input, writes: Writes)
    requires Plain(t) && ProbeOf(ReadBut(t, unread)).delay < ProbeOf(t).delay
    ensures Breaks(t, unread, input, writes, hasKey)
  {
    var f := ProbeOf(t).delay;
    input := UNCHANGED.(enabled := Some(false), failure := Some(f));
    writes := map[ProbeEnabled := None, ProbeFailure := RowOf(Number(f), f == DEFAULT_FAILURE_MINUTES)];
    assert Says3(writes, input);
    ItBreaks(t, unread, input, writes, hasKey);
  }

  lemma LongGapBreaks(t: Table, unread: set<Key>, hasKey: bool) returns (input: Input, writes: Writes)
    requires Plain(t) && !GapsKept(ProbeOf(t), ProbeOf(ReadBut(t, unread)))
    ensures Breaks(t, unread, input, writes, hasKey)
  {
    var stored, read := ProbeOf(t), ProbeOf(ReadBut(t, unread));
    var d :| ValidMinutes(d) && Apart(Sort(read.times), d + 1) && !Apart(Sort(stored.times), d + 1);
    input := UNCHANGED.(enabled := Some(false), delay := Some(d), failure := Some(MAX_MINUTES));
    writes := map[ProbeEnabled := None, ProbeDelay := RowOf(Number(d), d == DEFAULT_DELAY), ProbeFailure := Some(Number(MAX_MINUTES))];
    DelayWrites(input, writes, d);
    ReadTimesGap(t, unread, d);
    TimingAccepted(read, input, hasKey);
    GapBreaks(stored, input, d);
    ItBreaks(t, unread, input, writes, hasKey);
  }

  lemma ReadTimesGap(t: Table, unread: set<Key>, d: int)
    requires Apart(Sort(ProbeOf(ReadBut(t, unread)).times), d + 1) && !Apart(Sort(ProbeOf(t).times), d + 1)
    ensures d < MAX_MINUTES
  {
    var read := ProbeOf(ReadBut(t, unread)).times;
    assert read == ProbeOf(t).times || read == DEFAULT_TIMES;
    SortLength(DEFAULT_TIMES);
  }

  lemma {:induction false} SortLength(s: seq<int>)
    ensures |Sort(s)| == |s|
  {
    if s != [] {
      SortLength(s[1..]);
      InsertLength(s[0], Sort(s[1..]));
    }
  }

  lemma {:induction false} InsertLength(x: int, s: seq<int>)
    ensures |Insert(x, s)| == |s| + 1
  {
    if s != [] {
      InsertLength(x, s[1..]);
    }
  }

  /** Else some change is accepted that breaks a promise. */
  lemma HarmfulReadBreaks(t: Table, unread: set<Key>, hasKey: bool) returns (input: Input, writes: Writes)
    requires Plain(t) && Valid(ProbeOf(t)) && !Harmless(ProbeOf(t), ProbeOf(ReadBut(t, unread)))
    ensures Breaks(t, unread, input, writes, hasKey)
  {
    var stored, read := ProbeOf(t), ProbeOf(ReadBut(t, unread));
    if stored.enabled && !read.enabled {
      input, writes := MissedSwitchBreaks(t, unread, hasKey);
    } else if stored.password.Some? && read.password.None? {
      input, writes := MissedPasswordBreaks(t, unread, hasKey);
    } else if stored.password.Some? && !SameServer(read.server, stored.server) {
      input, writes := MissedServerBreaks(t, unread, hasKey);
    } else if read.failure > stored.failure {
      input, writes := LateFailureBreaks(t, unread, hasKey);
    } else if read.delay < stored.delay {
      input, writes := ShortDelayBreaks(t, unread, hasKey);
    } else {
      input, writes := LongGapBreaks(t, unread, hasKey);
    }
  }

  method SetServer(u: SettingsUpdate, input: Input) returns (ok: bool)
    requires u.writes == map[]
    modifies u
    ensures ok <==> ServerOk(input)
    ensures ok ==> SameBut(map[], u.writes, SERVER_KEYS) && SaysServer(u.writes, input)
  {
    ok := SetAddress(u, input);
    if ok {
      ok := SetUser(u, input);
    }
  }

  method SetAddress(u: SettingsUpdate, input: Input) returns (ok: bool)
    requires u.writes == map[]
    modifies u
    ensures ok <==> !input.host.Invalid? && (input.port.Some? ==> 1 <= input.port.value <= 65535)
    ensures ok ==> SameBut(map[], u.writes, {ProbeHost, ProbePort})
    ensures ok ==> Says(u.writes, ProbeHost, !input.host.Keep?, RowOf(Words(Get(input.host, "")), Get(input.host, "") == ""))
    ensures ok ==> Says(u.writes, ProbePort, input.port.Some?, RowOf(Number(input.port.GetOr(0)), input.port == Some(DEFAULT_PORT)))
  {
    if !input.host.Keep? {
      if input.host.Invalid? {
        return false;
      }
      u.Set(ProbeHost, Words(input.host.value), input.host.value == "");
    }
    if input.port.Some? {
      if input.port.value < 1 || input.port.value > 65535 {
        return false;
      }
      u.Set(ProbePort, Number(input.port.value), input.port.value == DEFAULT_PORT);
    }
    ok := true;
  }

  method SetUser(u: SettingsUpdate, input: Input) returns (ok: bool)
    requires ProbeSecurity !in u.writes && ProbeUsername !in u.writes
    modifies u
    ensures ok <==> !input.security.Invalid?
    ensures ok ==> SameBut(old(u.writes), u.writes, {ProbeSecurity, ProbeUsername})
    ensures ok ==> Says(u.writes, ProbeSecurity, !input.security.Keep?, RowOf(Secure(Get(input.security, Ssl)), input.security == To(Ssl)))
    ensures ok ==> Says(u.writes, ProbeUsername, input.username.Some?, RowOf(Words(input.username.GetOr("")), input.username == Some("")))
  {
    if !input.security.Keep? {
      if input.security.Invalid? {
        return false;
      }
      u.Set(ProbeSecurity, Secure(input.security.value), input.security.value == Ssl);
    }
    if input.username.Some? {
      u.Set(ProbeUsername, Words(input.username.value), input.username.value == "");
    }
    ok := true;
  }

  method SetLogin(u: SettingsUpdate, input: Input, hasKey: bool) returns (ok: bool)
    requires ProbePassword !in u.writes && ProbeAddress !in u.writes && ProbeEnabled !in u.writes
    modifies u
    ensures ok <==> LoginOk(input, hasKey)
    ensures ok ==> SameBut(old(u.writes), u.writes, LOGIN_KEYS) && SaysLogin(u.writes, input)
  {
    if !input.address.Keep? {
      if input.address.Invalid? {
        return false;
      }
      u.Set(ProbeAddress, Words(input.address.value), input.address.value == "");
    }
    if input.clearPassword && !input.password.Some? {
      u.Set(ProbePassword, Off, true);
    }
    if input.password.Some? {
      if !hasKey {
        return false;
      }
      u.Set(ProbePassword, Secret(input.password.value), false);
    }
    if input.enabled.Some? {
      u.Set(ProbeEnabled, On, !input.enabled.value);
    }
    ok := true;
  }

  method SetTiming(u: SettingsUpdate, input: Input) returns (ok: bool)
    requires ProbeSendTimes !in u.writes && ProbeDelay !in u.writes && ProbeFailure !in u.writes
    requires input.times.To? ==> OfDay(input.times.value)
    modifies u
    ensures ok <==> TimingOk(input)
    ensures ok ==> SameBut(old(u.writes), u.writes, TIMING_KEYS) && SaysTiming(u.writes, input)
  {
    if !input.times.Keep? {
      if input.times.Invalid? {
        return false;
      }
      if |input.times.value| > MAX_TIMES {
        return false;
      }
      var apart := GapAtLeast(input.times.value, MIN_GAP);
      if !apart {
        return false;
      }
      u.Set(ProbeSendTimes, Times(input.times.value), input.times.value == DEFAULT_TIMES);
    }
    if input.delay.Some? {
      if !ValidMinutes(input.delay.value) {
        return false;
      }
      u.Set(ProbeDelay, Number(input.delay.value), input.delay.value == DEFAULT_DELAY);
    }
    if input.failure.Some? {
      if !ValidMinutes(input.failure.value) {
        return false;
      }
      u.Set(ProbeFailure, Number(input.failure.value), input.failure.value == DEFAULT_FAILURE_MINUTES);
    }
    ok := true;
  }

  const SERVER_KEYS := {ProbeHost, ProbePort, ProbeSecurity, ProbeUsername}
  const LOGIN_KEYS := {ProbePassword, ProbeAddress, ProbeEnabled}
  const TIMING_KEYS := {ProbeSendTimes, ProbeDelay, ProbeFailure}

  lemma StepsKeepWrites(w1: Writes, w2: Writes, w3: Writes, input: Input)
    requires SameBut(map[], w1, SERVER_KEYS) && SaysServer(w1, input)
    requires SameBut(w1, w2, LOGIN_KEYS) && SaysLogin(w2, input)
    requires SameBut(w2, w3, TIMING_KEYS)
    ensures SaysServer(w3, input) && SaysLogin(w3, input)
  {
  }

  lemma StepsStayWithin(w1: Writes, w2: Writes, w3: Writes)
    requires SameBut(map[], w1, SERVER_KEYS) && SameBut(w1, w2, LOGIN_KEYS) && SameBut(w2, w3, TIMING_KEYS)
    ensures Within(w3, ProbeGroup)
  {
  }

  /** The checks of the combination, against the saved values. */
  method Combines(saved: Probe, input: Input) returns (ok: bool)
    requires TimingOk(input) && OfDay(saved.times)
    ensures ok <==> Agrees(saved, input)
  {
    var next := Changed(saved, input);
    if next.failure <= next.delay {
      return false;
    }
    if input.times.To? || input.delay.Some? {
      var apart := GapAtLeast(next.times, next.delay + 1);
      if !apart {
        return false;
      }
    }
    if !input.password.Some? && saved.password.Some? && !SameServer(saved.server, next.server) {
      return false;
    }
    if input.enabled == Some(true) && !Configured(next) {
      return false;
    }
    if saved.enabled && input.enabled.None? && !Configured(next) {
      return false;
    }
    ok := true;
  }

  method Gather(u: SettingsUpdate, saved: Probe, input: Input, hasKey: bool) returns (ok: bool)
    requires u.writes == map[] && OfDay(saved.times) && (input.times.To? ==> OfDay(input.times.value))
    modifies u
    ensures ok <==> Accepts(saved, input, hasKey)
    ensures ok ==> SaysServer(u.writes, input) && SaysLogin(u.writes, input) && SaysTiming(u.writes, input)
    ensures ok ==> Within(u.writes, ProbeGroup)
  {
    ok := SetServer(u, input);
    if !ok {
      return false;
    }
    ghost var w1 := u.writes;
    ok := SetLogin(u, input, hasKey);
    if !ok {
      return false;
    }
    ghost var w2 := u.writes;
    ok := SetTiming(u, input);
    if !ok {
      return false;
    }
    StepsKeepWrites(w1, w2, u.writes, input);
    StepsStayWithin(w1, w2, u.writes);
    ok := Combines(saved, input);
  }

  lemma SavedTimesOfDay(t: Table)
    ensures OfDay(ProbeOf(t).times)
  {
  }

  /** An update is refused exactly when the combination it gives with what was
      read is not one to save; else its writes are the rows given, which give
      just that combination (for thresholds stored out of order, the rows). */
  method ProbeUpdate(u: SettingsUpdate, t: Table, input: Input, hasKey: bool) returns (ok: bool)
    requires u.writes == map[] && (input.times.To? ==> OfDay(input.times.value))
    modifies u
    ensures ok <==> Accepts(ProbeOf(t), input, hasKey)
    ensures ok ==> IsChange(t, input, u.writes, hasKey) && Within(u.writes, ProbeGroup)
    ensures ok ==> Gives(t, input, Persisted(t, u.writes))
    ensures ok && Plain(t) ==> ProbeOf(Persisted(t, u.writes)) == Changed(ProbeOf(t), input)
  {
    SavedTimesOfDay(t);
    ok := Gather(u, ProbeOf(t), input, hasKey);
    if ok {
      WritesGiveChange(t, input, u.writes);
      if Plain(t) {
        GivesPlain(t, input, Persisted(t, u.writes));
      }
    }
  }
}
