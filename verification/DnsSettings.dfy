/** The switches and resolvers of the DNS check, changed together
    (app/modules/settings.go). */
module DnsSettings {
  import opened Options
  import opened SettingsTable

  function DefaultResolvers(): seq<string> {
    ["1.1.1.1", "8.8.8.8", "9.9.9.9"]
  }

  datatype Config = Config(enabled: bool, resolvers: seq<string>, systemOnly: bool)

  /** Unchanged, or the new value; the parsed resolvers may be invalid. */
  datatype Input = Input(enabled: Option<bool>, resolvers: Option<Result<seq<string>, string>>, systemOnly: Option<bool>)

  function ConfigOf(t: Table): Config {
    Config(SwitchOf(Stored(t, DnsEnabled), true), AddressesOf(Stored(t, DnsResolvers), DefaultResolvers()), SwitchOf(Stored(t, DnsSystemOnly), false))
  }

  predicate Valid(c: Config) {
    c.enabled && !c.systemOnly ==> c.resolvers != []
  }

  function Changed(c: Config, input: Input): Config {
    Config(input.enabled.GetOr(c.enabled),
           if input.resolvers.Some? && input.resolvers.value.Ok? then input.resolvers.value.value else c.resolvers,
           input.systemOnly.GetOr(c.systemOnly))
  }

  predicate Accepts(c: Config, input: Input) {
    (input.resolvers.Some? ==> input.resolvers.value.Ok?) && Valid(Changed(c, input))
  }

  /** The rows that were given, and how they are written. */
  predicate SaysChange(writes: Writes, input: Input) {
    var list := if input.resolvers.Some? && input.resolvers.value.Ok? then input.resolvers.value.value else [];
    && Says(writes, DnsEnabled, input.enabled.Some?, RowOf(Off, input.enabled == Some(true)))
    && Says(writes, DnsResolvers, input.resolvers.Some?, RowOf(Addresses(list), list == DefaultResolvers()))
    && Says(writes, DnsSystemOnly, input.systemOnly.Some?, RowOf(On, input.systemOnly == Some(false)))
  }

  /** What a change writes of this group when it is accepted against what was
      read. */
  predicate IsChange(read: Table, input: Input, writes: Writes) {
    Accepts(ConfigOf(read), input) && SaysChange(writes, input)
  }

  /** Applied to any table, the writes give the change asked for. */
  lemma WritesGiveChange(t: Table, input: Input, writes: Writes)
    requires (input.resolvers.Some? ==> input.resolvers.value.Ok?) && SaysChange(writes, input)
    ensures ConfigOf(Persisted(t, writes)) == Changed(ConfigOf(t), input)
  {
    PersistedRow(t, writes, DnsEnabled);
    PersistedRow(t, writes, DnsResolvers);
    PersistedRow(t, writes, DnsSystemOnly);
  }

  /** An empty list of resolvers was not read as the default one. */
  predicate Harmless(t: Table, unread: set<Key>) {
    ConfigOf(t).resolvers == [] ==> ConfigOf(ReadBut(t, unread)).resolvers == []
  }

  /** A change accepted against what was read keeps a resolver to ask. */
  lemma ChangeKeepsValid(t: Table, unread: set<Key>, input: Input, writes: Writes)
    requires Valid(ConfigOf(t)) && Harmless(t, unread) && IsChange(ReadBut(t, unread), input, writes)
    ensures Valid(ConfigOf(Persisted(t, writes)))
  {
    WritesGiveChange(t, input, writes);
  }

  /** Else a change that lets the listed resolvers be asked is accepted and
      leaves none. */
  lemma HarmfulReadBreaks(t: Table, unread: set<Key>) returns (input: Input, writes: Writes)
    requires !Harmless(t, unread)
    ensures IsChange(ReadBut(t, unread), input, writes) && Within(writes, DnsGroup)
    ensures !Valid(ConfigOf(Persisted(t, writes)))
  {
    input := Input(Some(true), None, Some(false));
    writes := map[DnsEnabled := None, DnsSystemOnly := None];
    WritesGiveChange(t, input, writes);
  }

  /** checkDNSCheckSettings: the configuration the change would give. */
  method Check(saved: Config, input: Input) returns (cfg: Config, ok: bool)
    ensures ok <==> Accepts(saved, input)
    ensures ok ==> cfg == Changed(saved, input)
  {
    cfg := saved;
    if input.enabled.Some? {
      cfg := cfg.(enabled := input.enabled.value);
    }
    if input.systemOnly.Some? {
      cfg := cfg.(systemOnly := input.systemOnly.value);
    }
    if input.resolvers.Some? {
      if input.resolvers.value.Err? {
        return cfg, false;
      }
      cfg := cfg.(resolvers := input.resolvers.value.value);
    }
    ok := !(cfg.enabled && !cfg.systemOnly && |cfg.resolvers| == 0);
  }

  method Gather(u: SettingsUpdate, ghost saved: Config, input: Input, cfg: Config)
    requires u.writes == map[] && Accepts(saved, input) && cfg == Changed(saved, input)
    modifies u
    ensures SaysChange(u.writes, input) && SameBut(map[], u.writes, {DnsEnabled, DnsResolvers, DnsSystemOnly})
  {
    if input.enabled.Some? {
      u.Set(DnsEnabled, Off, cfg.enabled);
    }
    if input.resolvers.Some? {
      u.Set(DnsResolvers, Addresses(cfg.resolvers), cfg.resolvers == DefaultResolvers());
    }
    if input.systemOnly.Some? {
      u.Set(DnsSystemOnly, On, !cfg.systemOnly);
    }
  }

  /** A change is refused exactly when the combination it gives with what was
      read is not one to save; else its writes are the rows given, which give
      just that combination. */
  method DnsCheck(u: SettingsUpdate, t: Table, input: Input) returns (ok: bool)
    requires u.writes == map[]
    modifies u
    ensures ok <==> Accepts(ConfigOf(t), input)
    ensures ok ==> IsChange(t, input, u.writes) && Within(u.writes, DnsGroup)
    ensures ok ==> ConfigOf(Persisted(t, u.writes)) == Changed(ConfigOf(t), input)
    ensures !ok ==> u.writes == map[]
  {
    var cfg;
    cfg, ok := Check(ConfigOf(t), input);
    if !ok {
      return false;
    }
    Gather(u, ConfigOf(t), input, cfg);
    OnlyThese(u.writes, {DnsEnabled, DnsResolvers, DnsSystemOnly}, DnsGroup);
    WritesGiveChange(t, input, u.writes);
  }
}
