/** The settings table: values equal to the default have no row, and the writes
    of one request are applied together (app/modules/settings.go). */
module SettingsTable {
  import opened Options
  import opened ProbeTiming
  import opened Text

  datatype Key =
    | SmtpHost | SmtpPort | SmtpSecurity | SmtpUsername | SmtpPassword | SmtpFrom | NotifyEnabled
    | ProbeEnabled | ProbeAddress | ProbeHost | ProbePort | ProbeSecurity | ProbeUsername | ProbePassword
    | ProbeSendTimes | ProbeDelay | ProbeFailure
    | DnsEnabled | DnsResolvers | DnsSystemOnly
    | Other(name: string)

  /** The settings validated together. */
  datatype Group = SmtpGroup | ProbeGroup | DnsGroup | NoGroup

  function GroupOf(key: Key): Group {
    match key
    case SmtpHost | SmtpPort | SmtpSecurity | SmtpUsername | SmtpPassword | SmtpFrom | NotifyEnabled => SmtpGroup
    case ProbeEnabled | ProbeAddress | ProbeHost | ProbePort | ProbeSecurity | ProbeUsername | ProbePassword => ProbeGroup
    case ProbeSendTimes | ProbeDelay | ProbeFailure => ProbeGroup
    case DnsEnabled | DnsResolvers | DnsSystemOnly => DnsGroup
    case Other(_) => NoGroup
  }

  datatype Security = Ssl | StartTls | Plain

  datatype Connection = Connection(host: string, port: int, security: Security, username: string)

  /** A stored password carries the connection it was typed for. */
  datatype Value =
    | Words(text: string)
    | Number(n: int)
    | Secure(security: Security)
    | On | Off
    | Times(minutes: seq<int>)
    | Addresses(list: seq<string>)
    | Secret(givenFor: Connection)

  type Table = map<Key, Value>

  /** What a request wants done: a row stored or removed. */
  type Writes = map<Key, Option<Value>>

  function Stored(t: Table, key: Key): Option<Value> {
    if key in t then Some(t[key]) else None
  }

  function Persisted(t: Table, writes: Writes): Table {
    map key | key in t.Keys + writes.Keys && (if key in writes then writes[key].Some? else true) ::
      if key in writes then writes[key].value else t[key]
  }

  /** What is read when the rows of some keys cannot be: an error counts as no
      row. */
  function ReadBut(t: Table, unread: set<Key>): Table {
    t - unread
  }

  lemma PersistedRow(t: Table, writes: Writes, key: Key)
    ensures Stored(Persisted(t, writes), key) == if key in writes then writes[key] else Stored(t, key)
  {
  }

  /** A field of a request after trimming and normalizing: unchanged, not
      valid, or a value. */
  datatype Field<+T> = Keep | Invalid | To(value: T)

  function Get<T>(f: Field<T>, saved: T): T {
    if f.To? then f.value else saved
  }

  /** The writes change the row of the key when it was given, and say how. */
  predicate Says(writes: Writes, key: Key, given: bool, row: Option<Value>) {
    (key in writes <==> given) && (given ==> writes[key] == row)
  }

  /** Every row written is of the group. */
  predicate Within(writes: Writes, group: Group) {
    forall k :: k in writes ==> GroupOf(k) == group
  }

  /** The same writes, but for some keys. */
  ghost predicate SameBut(before: Writes, after: Writes, keys: set<Key>) {
    forall k :: k !in keys ==> (k in after <==> k in before) && (k in after ==> after[k] == before[k])
  }

  lemma OnlyThese(writes: Writes, keys: set<Key>, group: Group)
    requires SameBut(map[], writes, keys) && forall k :: k in keys ==> GroupOf(k) == group
    ensures Within(writes, group)
  {
  }

  /** The row of a value: none for the default. */
  function RowOf(value: Value, isDefault: bool): Option<Value> {
    if isDefault then None else Some(value)
  }

  // --- Reading ---

  function TextOf(row: Option<Value>): string {
    if row.Some? && row.value.Words? then row.value.text else ""
  }

  /** resolveInt: a positive number, else the default. */
  function NumberOf(row: Option<Value>, default: int): int {
    if row.Some? && row.value.Number? && row.value.n > 0 then row.value.n else default
  }

  function SecurityOf(row: Option<Value>, default: Security): Security {
    if row.Some? && row.value.Secure? then row.value.security else default
  }

  function SwitchOf(row: Option<Value>, default: bool): bool {
    if row == Some(On) then true else if row == Some(Off) then false else default
  }

  function SecretOf(row: Option<Value>): Option<Connection> {
    if row.Some? && row.value.Secret? then Some(row.value.givenFor) else None
  }

  /** A saved list that does not parse counts as absent. */
  function TimesOf(row: Option<Value>, default: seq<int>): seq<int> {
    if row.Some? && row.value.Times? && OfDay(row.value.minutes) then row.value.minutes else default
  }

  function AddressesOf(row: Option<Value>, default: seq<string>): seq<string> {
    if row.Some? && row.value.Addresses? then row.value.list else default
  }

  /** probeConnectionChanged. */
  predicate SameServer(a: Connection, b: Connection) {
    EqualFold(a.host, b.host) && a.port == b.port && a.security == b.security && a.username == b.username
  }

  /** A number is read from a row that holds a positive one; any other row
      counts as none. Two connections are to the same server when they agree in
      all their parts, up to the case of letters in the host. */
  lemma ReadExactly(row: Option<Value>, default: int, a: Connection, b: Connection)
    ensures NumberOf(row, default) == default || row == Some(Number(NumberOf(row, default)))
    ensures forall n :: row == Some(Number(n)) ==> NumberOf(row, default) == if 1 <= n then n else default
    ensures SameServer(a, b) <==> SameLetters(a.host, b.host) && (a.port, a.security, a.username) == (b.port, b.security, b.username)
  {
    EqualFoldExactly(a.host, b.host);
  }

  /** The writes of one request; persistSettings applies them in one
      transaction. */
  class SettingsUpdate {
    var writes: Writes

    constructor ()
      ensures writes == map[]
    {
      writes := map[];
    }

    /** A value equal to its default removes the row. */
    method Set(key: Key, value: Value, isDefault: bool)
      modifies this
      ensures writes == old(writes)[key := RowOf(value, isDefault)]
    {
      writes := writes[key := if isDefault then None else Some(value)];
    }
  }
}
