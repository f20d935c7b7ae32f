/** The SMTP server of the notifications and its password
    (saveNotificationSettings in app/modules/notify.go). */
module SmtpSettings {
  import opened Options
  import opened SettingsTable

  const DEFAULT_PORT := 587

  datatype Smtp = Smtp(enabled: bool, server: Connection, password: Option<Connection>, from: string)

  /** The fields of a request; a password typed is named by the connection it
      is for. */
  datatype Input = Input(
    enabled: Option<bool>,
    host: Field<string>,
    port: Option<int>,
    security: Field<Security>,
    username: Option<string>,
    password: Option<Connection>,
    clearPassword: bool,
    from: Field<string>)

  function SmtpOf(t: Table): Smtp {
    Smtp(SwitchOf(Stored(t, NotifyEnabled), false),
         Connection(TextOf(Stored(t, SmtpHost)), NumberOf(Stored(t, SmtpPort), DEFAULT_PORT),
                    SecurityOf(Stored(t, SmtpSecurity), StartTls), TextOf(Stored(t, SmtpUsername))),
         SecretOf(Stored(t, SmtpPassword)),
         TextOf(Stored(t, SmtpFrom)))
  }

  function ServerAfter(s: Smtp, input: Input): Connection {
    Connection(Get(input.host, s.server.host), input.port.GetOr(s.server.port), Get(input.security, s.server.security),
               input.username.GetOr(s.server.username))
  }

  /** What the saved values become: without a username there is no password. */
  function Changed(s: Smtp, input: Input): Smtp {
    Applied(s, s, input)
  }

  /** What the stored values become when the change was worked out from the
      values read: a password is removed only where one was read. */
  function Applied(stored: Smtp, read: Smtp, input: Input): Smtp {
    Smtp(input.enabled.GetOr(stored.enabled), ServerAfter(stored, input),
         if ServerAfter(read, input).username == "" then if read.password.Some? then None else stored.password
         else if input.password.Some? then input.password else stored.password,
         Get(input.from, stored.from))
  }

  /** A password typed is for the server that will be saved with it. */
  predicate TypedFor(stored: Smtp, input: Input) {
    input.password.Some? ==> input.password.value == ServerAfter(stored, input)
  }

  predicate WellFormed(input: Input) {
    && !input.host.Invalid? && !input.security.Invalid? && !input.from.Invalid?
    && (input.port.Some? ==> 1 <= input.port.value <= 65535)
  }

  /** When a change is saved: with a username there is a password or nothing
      about it changes, and a stored password that stays is not pointed at
      another server. */
  predicate Accepts(s: Smtp, input: Input, hasKey: bool) {
    var after := Changed(s, input);
    && WellFormed(input)
    && (after.enabled ==> after.server.host != "" && after.from != "")
    && (after.server.username != "" && input.password.Some? ==> hasKey)
    && (after.server.username != "" && !input.password.Some? ==>
          && !input.clearPassword
          && (s.password.None? ==> input.username.None?)
          && (s.password.Some? ==> after.server == s.server))
  }

  /** Notifications are on only with a host and a sender, and the stored
      password is for the saved server. */
  predicate Valid(s: Smtp) {
    && (s.enabled ==> s.server.host != "" && s.from != "")
    && (s.password.Some? ==> s.password.value == s.server)
  }

  /** What was read stands in for what is stored: the switch was not missed,
      nor the password, and while a username says it is used, neither was its
      server. */
  predicate Harmless(stored: Smtp, read: Smtp) {
    && (stored.enabled ==> read.enabled)
    && (stored.password.Some? ==>
          && read.password.Some?
          && (read.server.username == "" || SameButUser(stored.server, read.server)))
  }

  predicate SameButUser(a: Connection, b: Connection) {
    a.host == b.host && a.port == b.port && a.security == b.security
  }

  lemma AppliedIsValid(t: Table, unread: set<Key>, input: Input, hasKey: bool)
    requires Valid(SmtpOf(t)) && TypedFor(SmtpOf(t), input)
    requires var read := SmtpOf(ReadBut(t, unread)); Harmless(SmtpOf(t), read) && Accepts(read, input, hasKey)
    ensures Valid(Applied(SmtpOf(t), SmtpOf(ReadBut(t, unread)), input))
  {
  }

  /** smtpConnectionChanged. */
  predicate ServerChanged(s: Smtp, input: Input) {
    || (input.host.To? && input.host.value != s.server.host)
    || (input.port.Some? && input.port.value != s.server.port)
    || (input.security.To? && input.security.value != s.server.security)
    || (input.username.Some? && input.username.value != s.server.username)
  }

  /** The rows of the server, then the password, the sender and the switch. */
  predicate SaysServer(writes: Writes, input: Input) {
    && Says(writes, SmtpHost, !input.host.Keep?, RowOf(Words(Get(input.host, "")), Get(input.host, "") == ""))
    && Says(writes, SmtpPort, input.port.Some?, RowOf(Number(input.port.GetOr(0)), input.port == Some(DEFAULT_PORT)))
    && Says(writes, SmtpSecurity, !input.security.Keep?, RowOf(Secure(Get(input.security, Ssl)), input.security == To(StartTls)))
    && Says(writes, SmtpUsername, input.username.Some?, RowOf(Words(input.username.GetOr("")), input.username == Some("")))
  }

  predicate SaysPassword(writes: Writes, s: Smtp, input: Input) {
    if ServerAfter(s, input).username == "" then Says(writes, SmtpPassword, s.password.Some?, None)
    else Says(writes, SmtpPassword, input.password.Some?, if input.password.Some? then Some(Secret(input.password.value)) else None)
  }

  predicate SaysRest(writes: Writes, input: Input) {
    && Says(writes, SmtpFrom, !input.from.Keep?, RowOf(Words(Get(input.from, "")), Get(input.from, "") == ""))
    && Says(writes, NotifyEnabled, input.enabled.Some?, RowOf(On, input.enabled == Some(false)))
  }

  lemma ServerGiven(t: Table, input: Input, writes: Writes)
    requires SaysServer(writes, input) && WellFormed(input)
    ensures SmtpOf(Persisted(t, writes)).server == ServerAfter(SmtpOf(t), input)
  {
  }

  /** What a change writes of this group when it is accepted against what was
      read. */
  predicate IsChange(read: Table, input: Input, writes: Writes, hasKey: bool) {
    && Accepts(SmtpOf(read), input, hasKey)
    && SaysServer(writes, input) && SaysPassword(writes, SmtpOf(read), input) && SaysRest(writes, input)
  }

  /** Applied to any table, the writes give the change worked out from what
      was read. */
  lemma WritesGiveChange(t: Table, read: Smtp, input: Input, writes: Writes)
    requires WellFormed(input)
    requires SaysServer(writes, input) && SaysPassword(writes, read, input) && SaysRest(writes, input)
    ensures SmtpOf(Persisted(t, writes)) == Applied(SmtpOf(t), read, input)
  {
    ServerGiven(t, input, writes);
    PersistedRow(t, writes, SmtpPassword);
    PersistedRow(t, writes, SmtpFrom);
    PersistedRow(t, writes, NotifyEnabled);
  }

  /** A change accepted against what was read keeps what the settings promise. */
  lemma ChangeKeepsValid(t: Table, unread: set<Key>, input: Input, writes: Writes, hasKey: bool)
    requires Valid(SmtpOf(t)) && TypedFor(SmtpOf(t), input)
    requires Harmless(SmtpOf(t), SmtpOf(ReadBut(t, unread))) && IsChange(ReadBut(t, unread), input, writes, hasKey)
    ensures Valid(SmtpOf(Persisted(t, writes)))
  {
    AppliedIsValid(t, unread, input, hasKey);
    WritesGiveChange(t, SmtpOf(ReadBut(t, unread)), input, writes);
  }

  const UNCHANGED := Input(None, Keep, None, Keep, None, None, false, Keep)

  lemma MissedSwitchBreaks(t: Table, unread: set<Key>, hasKey: bool) returns (input: Input, writes: Writes)
    requires Valid(SmtpOf(t)) && SmtpOf(t).enabled && !SmtpOf(ReadBut(t, unread)).enabled
    ensures TypedFor(SmtpOf(t), input) && IsChange(ReadBut(t, unread), input, writes, hasKey) && Within(writes, SmtpGroup)
    ensures !Valid(SmtpOf(Persisted(t, writes)))
  {
    var read := SmtpOf(ReadBut(t, unread));
    input := UNCHANGED.(from := To(""));
    writes := if read.server.username == "" && read.password.Some? then map[SmtpFrom := None, SmtpPassword := None] else map[SmtpFrom := None];
    WritesGiveChange(t, read, input, writes);
  }

  lemma MissedPasswordBreaks(t: Table, unread: set<Key>, hasKey: bool) returns (input: Input, writes: Writes)
    requires Valid(SmtpOf(t)) && SmtpOf(t).password.Some? && SmtpOf(ReadBut(t, unread)).password.None?
    ensures TypedFor(SmtpOf(t), input) && IsChange(ReadBut(t, unread), input, writes, hasKey) && Within(writes, SmtpGroup)
    ensures !Valid(SmtpOf(Persisted(t, writes)))
  {
    var port := if SmtpOf(t).server.port == 1 then 2 else 1;
    input := UNCHANGED.(enabled := Some(false), port := Some(port));
    writes := map[NotifyEnabled := None, SmtpPort := Some(Number(port))];
    WritesGiveChange(t, SmtpOf(ReadBut(t, unread)), input, writes);
  }

  lemma MissedServerBreaks(t: Table, unread: set<Key>, hasKey: bool) returns (input: Input, writes: Writes)
    requires Valid(SmtpOf(t))
    requires var stored, read := SmtpOf(t), SmtpOf(ReadBut(t, unread));
      stored.password.Some? && read.password.Some? && read.server.username != "" && !SameButUser(stored.server, read.server)
    ensures TypedFor(SmtpOf(t), input) && IsChange(ReadBut(t, unread), input, writes, hasKey) && Within(writes, SmtpGroup)
    ensures !Valid(SmtpOf(Persisted(t, writes)))
  {
    var stored, read := SmtpOf(t), SmtpOf(ReadBut(t, unread));
    if stored.server.host != read.server.host {
      input := UNCHANGED.(enabled := Some(false), host := To(""));
      writes := map[NotifyEnabled := None, SmtpHost := None];
    } else if stored.server.port != read.server.port {
      input := UNCHANGED.(enabled := Some(false), port := Some(DEFAULT_PORT));
      writes := map[NotifyEnabled := None, SmtpPort := None];
    } else {
      input := UNCHANGED.(enabled := Some(false), security := To(StartTls));
      writes := map[NotifyEnabled := None, SmtpSecurity := None];
    }
    WritesGiveChange(t, read, input, writes);
  }

  /** Else some change is accepted that breaks a promise: the sender of
      notifications that are on is removed, or the server changes under a
      password. */
  lemma HarmfulReadBreaks(t: Table, unread: set<Key>, hasKey: bool) returns (input: Input, writes: Writes)
    requires Valid(SmtpOf(t)) && !Harmless(SmtpOf(t), SmtpOf(ReadBut(t, unread)))
    ensures TypedFor(SmtpOf(t), input) && IsChange(ReadBut(t, unread), input, writes, hasKey) && Within(writes, SmtpGroup)
    ensures !Valid(SmtpOf(Persisted(t, writes)))
  {
    var stored, read := SmtpOf(t), SmtpOf(ReadBut(t, unread));
    if stored.enabled && !read.enabled {
      input, writes := MissedSwitchBreaks(t, unread, hasKey);
    } else if read.password.None? {
      input, writes := MissedPasswordBreaks(t, unread, hasKey);
    } else {
      input, writes := MissedServerBreaks(t, unread, hasKey);
    }
  }

  /** The fields of the server. */
  method SetServer(u: SettingsUpdate, input: Input) returns (ok: bool)
    requires u.writes == map[]
    modifies u
    ensures ok <==> !input.host.Invalid? && !input.security.Invalid? && (input.port.Some? ==> 1 <= input.port.value <= 65535)
    ensures ok ==> SameBut(map[], u.writes, {SmtpHost, SmtpPort, SmtpSecurity, SmtpUsername}) && SaysServer(u.writes, input)
  {
    ok := SetAddress(u, input);
    if ok {
      ok := SetLogin(u, input);
    }
  }

  method SetAddress(u: SettingsUpdate, input: Input) returns (ok: bool)
    requires u.writes == map[]
    modifies u
    ensures ok <==> !input.host.Invalid? && (input.port.Some? ==> 1 <= input.port.value <= 65535)
    ensures ok ==> SameBut(map[], u.writes, {SmtpHost, SmtpPort})
    ensures ok ==> Says(u.writes, SmtpHost, !input.host.Keep?, RowOf(Words(Get(input.host, "")), Get(input.host, "") == ""))
    ensures ok ==> Says(u.writes, SmtpPort, input.port.Some?, RowOf(Number(input.port.GetOr(0)), input.port == Some(DEFAULT_PORT)))
  {
    if !input.host.Keep? {
      if input.host.Invalid? {
        return false;
      }
      u.Set(SmtpHost, Words(input.host.value), input.host.value == "");
    }
    if input.port.Some? {
      if input.port.value < 1 || input.port.value > 65535 {
        return false;
      }
      u.Set(SmtpPort, Number(input.port.value), input.port.value == DEFAULT_PORT);
    }
    ok := true;
  }

  method SetLogin(u: SettingsUpdate, input: Input) returns (ok: bool)
    requires SmtpSecurity !in u.writes && SmtpUsername !in u.writes
    modifies u
    ensures ok <==> !input.security.Invalid?
    ensures ok ==> SameBut(old(u.writes), u.writes, {SmtpSecurity, SmtpUsername})
    ensures ok ==> Says(u.writes, SmtpSecurity, !input.security.Keep?, RowOf(Secure(Get(input.security, Ssl)), input.security == To(StartTls)))
    ensures ok ==> Says(u.writes, SmtpUsername, input.username.Some?, RowOf(Words(input.username.GetOr("")), input.username == Some("")))
  {
    if !input.security.Keep? {
      if input.security.Invalid? {
        return false;
      }
      u.Set(SmtpSecurity, Secure(input.security.value), input.security.value == StartTls);
    }
    if input.username.Some? {
      u.Set(SmtpUsername, Words(input.username.value), input.username.value == "");
    }
    ok := true;
  }

  /** The password, once the server is known; missing when a username would be
      left without one. */
  method SetPassword(u: SettingsUpdate, saved: Smtp, input: Input, hasKey: bool) returns (ok: bool, missing: bool)
    requires SmtpPassword !in u.writes && WellFormed(input.(from := Keep))
    modifies u
    ensures SameBut(old(u.writes), u.writes, {SmtpPassword})
    ensures var named := ServerAfter(saved, input).username != "";
      && (ok <==> (named && input.password.Some? ==> hasKey))
      && (missing <==> named && !input.password.Some? && (input.clearPassword || (saved.password.None? && input.username.Some?)))
    ensures ok ==> SaysPassword(u.writes, saved, input)
  {
    ok, missing := true, false;
    if input.username.GetOr(saved.server.username) == "" {
      if saved.password.Some? {
        u.Set(SmtpPassword, Off, true);
      }
    } else if input.password.Some? {
      if !hasKey {
        return false, false;
      }
      u.Set(SmtpPassword, Secret(input.password.value), false);
    } else if input.clearPassword {
      missing := true;
    } else if saved.password.None? {
      missing := input.username.Some?;
    }
  }

  /** The sender and the switch. */
  method SetRest(u: SettingsUpdate, input: Input) returns (ok: bool)
    requires SmtpFrom !in u.writes && NotifyEnabled !in u.writes
    modifies u
    ensures SameBut(old(u.writes), u.writes, {SmtpFrom, NotifyEnabled})
    ensures ok <==> !input.from.Invalid?
    ensures ok ==> SaysRest(u.writes, input)
  {
    if !input.from.Keep? {
      if input.from.Invalid? {
        return false;
      }
      u.Set(SmtpFrom, Words(input.from.value), input.from.value == "");
    }
    if input.enabled.Some? {
      u.Set(NotifyEnabled, On, !input.enabled.value);
    }
    ok := true;
  }

  /** The checks of the combination, against the saved values. */
  predicate Combines(saved: Smtp, input: Input, missing: bool) {
    var username := input.username.GetOr(saved.server.username);
    var enabled := input.enabled.GetOr(saved.enabled);
    && !(enabled && (Get(input.host, saved.server.host) == "" || Get(input.from, saved.from) == ""))
    && !missing
    && !(username != "" && !input.password.Some? && saved.password.Some? && ServerChanged(saved, input))
  }

  lemma CombinesIsAccepts(saved: Smtp, input: Input, hasKey: bool)
    requires WellFormed(input)
    ensures var named := ServerAfter(saved, input).username != "";
      Accepts(saved, input, hasKey) <==>
        && (named && input.password.Some? ==> hasKey)
        && Combines(saved, input, named && !input.password.Some? && (input.clearPassword || (saved.password.None? && input.username.Some?)))
  {
  }

  /** An update is refused exactly when the combination it gives with what was
      read is not one to save; else its writes are the rows given, which give
      just that combination. */
  method SaveNotificationSettings(u: SettingsUpdate, t: Table, input: Input, hasKey: bool) returns (ok: bool)
    requires u.writes == map[]
    modifies u
    ensures ok <==> Accepts(SmtpOf(t), input, hasKey)
    ensures ok ==> IsChange(t, input, u.writes, hasKey) && Within(u.writes, SmtpGroup)
    ensures ok ==> SmtpOf(Persisted(t, u.writes)) == Changed(SmtpOf(t), input)
  {
    var saved := SmtpOf(t);
    ok := Gather(u, saved, input, hasKey);
    if ok {
      WritesGiveChange(t, saved, input, u.writes);
    }
  }

  method Gather(u: SettingsUpdate, saved: Smtp, input: Input, hasKey: bool) returns (ok: bool)
    requires u.writes == map[]
    modifies u
    ensures ok <==> Accepts(saved, input, hasKey)
    ensures ok ==> SaysServer(u.writes, input) && SaysPassword(u.writes, saved, input) && SaysRest(u.writes, input)
    ensures ok ==> Within(u.writes, SmtpGroup)
  {
    ok := SetServer(u, input);
    if !ok || input.from.Invalid? {
      return false;
    }
    CombinesIsAccepts(saved, input, hasKey);
    ghost var w1 := u.writes;
    var missing;
    ok, missing := SetPassword(u, saved, input, hasKey);
    if !ok {
      return false;
    }
    ghost var w2 := u.writes;
    ok := SetRest(u, input);
    StepsKeepWrites(w1, w2, u.writes, saved, input);
    ok := ok && Combines(saved, input, missing);
  }

  lemma StepsKeepWrites(w1: Writes, w2: Writes, w3: Writes, saved: Smtp, input: Input)
    requires SaysServer(w1, input) && SaysPassword(w2, saved, input)
    requires SameBut(map[], w1, {SmtpHost, SmtpPort, SmtpSecurity, SmtpUsername})
    requires SameBut(w1, w2, {SmtpPassword}) && SameBut(w2, w3, {SmtpFrom, NotifyEnabled})
    ensures SaysServer(w3, input) && SaysPassword(w3, saved, input)
    ensures Within(w3, SmtpGroup)
  {
  }
}
