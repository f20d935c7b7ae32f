/** The resource keys a job holds while it runs (app/modules/jobs.go). */
module JobKeys {
  import opened Options
  import Text

  datatype Kind =
    | Sync | Fetch | Group | Analyze | Reindex | Reclassify
    | Notify | Cleanup | ProbeSend | ProbeCheck

  /** The columns of a mailbox row the keys depend on. */
  datatype Mailbox = Mailbox(address: string, imapHost: string, enabled: bool, serverKeepDays: int)

  type Key = string

  const LOCK_AGENT: Key := "agent"
  const LOCK_NOTIFY: Key := "notify"
  const LOCK_PROBE: Key := "probe"

  function HostKey(host: string): Key {
    "host:" + Text.ToLower(Text.TrimSpace(host))
  }

  /** The host settings name one server: the same text up to white space around
      it and the case of letters. */
  predicate SameHostName(a: string, b: string) {
    Text.SameLetters(Text.TrimSpace(a), Text.TrimSpace(b))
  }

  /** Two hosts have one key exactly when they name one server. */
  lemma HostKeyExactly(a: string, b: string)
    ensures HostKey(a) == HostKey(b) <==> SameHostName(a, b)
  {
    Text.EqualFoldExactly(Text.TrimSpace(a), Text.TrimSpace(b));
    assert HostKey(a)[5..] == Text.ToLower(Text.TrimSpace(a)) && HostKey(b)[5..] == Text.ToLower(Text.TrimSpace(b));
  }

  function MailboxKey(mb: Mailbox): Key {
    "mailbox:" + mb.address
  }

  /** Kinds that never have a mailbox and are never expanded. */
  predicate Mailboxless(kind: Kind) {
    kind.Notify? || kind.ProbeSend? || kind.ProbeCheck?
  }

  predicate ServerRetentionApplies(mb: Mailbox) {
    mb.enabled && mb.serverKeepDays > 0
  }

  function JobResourceKeys(kind: Kind, mb: Mailbox): seq<Key> {
    match kind
    case Sync | Fetch => [HostKey(mb.imapHost), MailboxKey(mb)]
    case Group | Reclassify => [MailboxKey(mb)]
    case Analyze => [LOCK_AGENT, "analyze:" + mb.address]
    case Reindex => [MailboxKey(mb), LOCK_AGENT]
    case Cleanup =>
      if ServerRetentionApplies(mb) then [HostKey(mb.imapHost), MailboxKey(mb), LOCK_AGENT]
      else [MailboxKey(mb), LOCK_AGENT]
    case Notify | ProbeSend | ProbeCheck => []
  }

  /** What the claimer read to compute the keys of a job: its mailbox row (None
      without a mailbox, or when the row could not be read) and the host
      setting of the probe server ("" when it could not be read). */
  datatype Reading = Reading(kind: Kind, row: Option<Mailbox>, probeHost: string)

  function KeysOf(r: Reading): seq<Key> {
    match r.kind
    case Notify => [LOCK_NOTIFY]
    case ProbeSend => [LOCK_PROBE]
    case ProbeCheck =>
      if Text.TrimSpace(r.probeHost) != "" then [LOCK_PROBE, HostKey(r.probeHost)] else [LOCK_PROBE]
    case _ =>
      if r.row.None? then [] else JobResourceKeys(r.kind, r.row.value)
  }

  /** The two readings share a key. */
  predicate Conflict(a: Reading, b: Reading) {
    exists k :: k in KeysOf(a) && k in KeysOf(b)
  }

  /** The job connects to the IMAP server the host names; a cleanup does while
      its mailbox is on and keeps mails on the server for a time. */
  predicate OnHost(r: Reading, host: string) {
    match r.kind
    case Sync | Fetch => r.row.Some? && SameHostName(r.row.value.imapHost, host)
    case Cleanup => r.row.Some? && r.row.value.enabled && r.row.value.serverKeepDays > 0 && SameHostName(r.row.value.imapHost, host)
    case ProbeCheck => Text.TrimSpace(r.probeHost) != "" && SameHostName(r.probeHost, host)
    case _ => false
  }

  predicate OnMailbox(r: Reading, address: string) {
    r.row.Some? && r.row.value.address == address && !Mailboxless(r.kind) && !r.kind.Analyze?
  }

  predicate NeedsAgent(r: Reading) {
    r.row.Some? && (r.kind.Analyze? || r.kind.Reindex? || r.kind.Cleanup?)
  }

  /** The two jobs use one IMAP server, write one mailbox index, run or disturb
      the agent, use the probe mails or send the notification. */
  ghost predicate SharedResource(a: Reading, b: Reading) {
    || (exists host :: OnHost(a, host) && OnHost(b, host))
    || (exists address :: OnMailbox(a, address) && OnMailbox(b, address))
    || (NeedsAgent(a) && NeedsAgent(b))
    || ((a.kind.ProbeSend? || a.kind.ProbeCheck?) && (b.kind.ProbeSend? || b.kind.ProbeCheck?))
    || (a.kind.Notify? && b.kind.Notify?)
  }

  /** The keys keep apart exactly the jobs that share a resource: no pair that
      shares one runs together, and no other pair waits for each other. */
  lemma ConflictIsSharedResource(a: Reading, b: Reading)
    ensures Conflict(a, b) <==> SharedResource(a, b)
  {
    if SharedResource(a, b) {
      SharedResourceConflicts(a, b);
    }
    if Conflict(a, b) {
      var k :| k in KeysOf(a) && k in KeysOf(b);
      ConflictSharesResource(a, b, k);
    }
  }

  function HostOf(r: Reading): string {
    if r.kind.ProbeCheck? || r.row.None? then r.probeHost else r.row.value.imapHost
  }

  lemma OnHostKey(r: Reading, host: string)
    requires OnHost(r, host)
    ensures HostKey(host) in KeysOf(r)
  {
    HostKeyExactly(HostOf(r), host);
    assert HostKey(HostOf(r)) in KeysOf(r);
  }

  lemma SharedResourceConflicts(a: Reading, b: Reading)
    requires SharedResource(a, b)
    ensures Conflict(a, b)
  {
    if host :| OnHost(a, host) && OnHost(b, host) {
      OnHostKey(a, host);
      OnHostKey(b, host);
      assert HostKey(host) in KeysOf(a) && HostKey(host) in KeysOf(b);
    } else if address :| OnMailbox(a, address) && OnMailbox(b, address) {
      assert "mailbox:" + address in KeysOf(a) && "mailbox:" + address in KeysOf(b);
    } else if NeedsAgent(a) && NeedsAgent(b) {
      assert LOCK_AGENT in KeysOf(a) && LOCK_AGENT in KeysOf(b);
    } else if a.kind.Notify? {
      assert LOCK_NOTIFY in KeysOf(a) && LOCK_NOTIFY in KeysOf(b);
    } else {
      assert LOCK_PROBE in KeysOf(a) && LOCK_PROBE in KeysOf(b);
    }
  }

  lemma ConflictSharesResource(a: Reading, b: Reading, k: Key)
    requires k in KeysOf(a) && k in KeysOf(b)
    ensures SharedResource(a, b)
  {
    // The fixed keys and the prefixes differ in their first two characters.
    KeyForm(a, k);
    KeyForm(b, k);
    if k[0] == 'h' {
      var host := HostOf(a);
      HostKeyExactly(HostOf(b), host);
      assert OnHost(a, host) && OnHost(b, host);
    } else if k[0] == 'm' {
      var address := a.row.value.address;
      assert k[8..] == address == b.row.value.address;
      assert OnMailbox(a, address) && OnMailbox(b, address);
    }
  }

  lemma KeyForm(r: Reading, k: Key)
    requires k in KeysOf(r)
    ensures |k| >= 2
    ensures k[0] == 'h' ==> OnHost(r, HostOf(r)) && k == HostKey(HostOf(r))
    ensures k[0] == 'm' ==> r.row.Some? && |k| >= 8 && k[8..] == r.row.value.address && OnMailbox(r, r.row.value.address)
    ensures k[0] == 'a' ==> NeedsAgent(r)
    ensures k[0] == 'p' ==> r.kind.ProbeSend? || r.kind.ProbeCheck?
    ensures k[0] == 'n' ==> r.kind.Notify?
    ensures k[0] in {'h', 'm', 'a', 'p', 'n'}
  {
    HostKeyExactly(HostOf(r), HostOf(r));
  }
}
