/** Which backend a scope gets and every entry the projection then leaves, in
    the fields of the scope (applyCanonicalScopeBackendEnv in cmd/gc/bd_env.go). */
module BackendEntries {
  import opened Prelude
  import P = PoolSlotName
  import A = DoltAuth
  import opened BackendEnv

  // ---- the choice ------------------------------------------------------------------

  /** The scope's own files decide for it and could be read. */
  ghost predicate Decides(s: Scope) {
    s.own.authoritative == Some(true) && s.own.meta.Some?
  }

  /** The city, read without error, does not impose Postgres. */
  ghost predicate CityDefers(city: Config) {
    || city.authoritative == Some(false)
    || (city.authoritative == Some(true) && city.meta.Some?
        && (city.meta.value.backend == Unset || city.meta.value.backend == DoltServer || city.meta.value.backend == Doltlite))
  }

  ghost predicate GoesToDolt(s: Scope) {
    && Decides(s)
    && (|| s.own.meta.value.backend == DoltServer
        || (s.own.meta.value.backend == Unset && (s.inheritsCity ==> CityDefers(s.city) && !s.cityUsesDoltlite)))
  }

  ghost predicate GoesToDoltlite(s: Scope) {
    && Decides(s)
    && (|| s.own.meta.value.backend == Doltlite
        || (s.own.meta.value.backend == Unset && s.inheritsCity && CityDefers(s.city) && s.cityUsesDoltlite))
  }

  /** A Postgres scope, or a scope without a backend under a Postgres city. */
  ghost predicate GoesToPostgres(s: Scope, pg: Pg, password: Option<string>) {
    && Decides(s)
    && (|| (s.own.meta.value.backend == PostgresServer && pg == s.own.meta.value.pg && password == s.own.pgPassword)
        || (s.own.meta.value.backend == Unset && s.inheritsCity && s.city.authoritative == Some(true) && s.city.meta.Some?
            && s.city.meta.value.backend == PostgresServer && pg == s.city.meta.value.pg && password == s.city.pgPassword))
  }

  lemma ChosenExactlyWhen(s: Scope, pg: Pg, password: Option<string>)
    ensures Choose(s) == UseDolt <==> GoesToDolt(s)
    ensures Choose(s) == UseDoltlite <==> GoesToDoltlite(s)
    ensures Choose(s) == UsePostgres(pg, password) <==> GoesToPostgres(s, pg, password)
    ensures Choose(s) == NotOurs <==> s.own.authoritative == Some(false)
    ensures Choose(s) == Broken(false) <==> s.own.authoritative == None
  {
  }

  /** The projection succeeds exactly for a backend whose target or password
      is found; it passes the scope on exactly when its files do not decide. */
  lemma OutcomeExactlyWhen(s: Scope)
    ensures OutcomeOf(s) == Done <==>
            || (GoesToDolt(s) && s.target.Some?) || GoesToDoltlite(s) || (exists pg, password :: GoesToPostgres(s, pg, Some(password)))
    ensures OutcomeOf(s) == Skipped <==> s.own.authoritative == Some(false)
    ensures OutcomeOf(s) == Failed(false) <==> s.own.authoritative == None
  {
    forall pg, password ensures Choose(s) == UsePostgres(pg, password) <==> GoesToPostgres(s, pg, password) {
      ChosenExactlyWhen(s, pg, password);
    }
    ChosenExactlyWhen(s, Pg("", "", "", ""), None);
    if Choose(s).UsePostgres? && Choose(s).password.Some? {
      assert GoesToPostgres(s, Choose(s).pg, Some(Choose(s).password.value));
    }
  }

  // ---- the entries ------------------------------------------------------------------

  /** The key holds the value, or is absent where that is empty. */
  ghost predicate Holds(after: Vars, k: Key, value: string) {
    if value == "" then k !in after else k in after && after[k] == value
  }

  ghost predicate NoPostgres(after: Vars) {
    forall p :: Postgres(p) !in after
  }

  ghost predicate NoBackendName(after: Vars) {
    GcBackend !in after && BeadsBackend !in after
  }

  lemma EntryIs(after: Vars, vars: Vars, s: Scope, amb: Ambient, k: Key)
    requires IsFinal(after, vars, s, amb)
    ensures Lookup(after, k) == FinalAt(vars, s, amb, k)
  {
  }

  lemma DoltEntryIs(vars: Vars, after: Vars, s: Scope, amb: Ambient, t: Target, d: DoltKey)
    requires IsFinal(after, vars, s, amb) && GoesToDolt(s) && s.target == Some(t)
    ensures Lookup(after, Dolt(d)) == DoltAt(FieldsOf(t, AuthOf(vars, t, s.sources, s.cityAuth)), d)
  {
    ChosenExactlyWhen(s, Pg("", "", "", ""), None);
    EntryIs(after, vars, s, amb, Dolt(d));
  }

  /** Towards Dolt: host and port come from the target, a local host only when
      it is external, under both names. */
  lemma DoltTargetEntries(vars: Vars, after: Vars, s: Scope, amb: Ambient, t: Target)
    requires IsFinal(after, vars, s, amb) && GoesToDolt(s) && s.target == Some(t)
    ensures var host := if t.external || !t.localHost then Trim(t.host) else "";
            Holds(after, Dolt(GcHost), host) && Holds(after, Dolt(Host), host)
    ensures Holds(after, Dolt(GcPort), if Trim(t.port) == "" then "" else t.port)
    ensures Dolt(Port) in after && after[Dolt(Port)] == Trim(t.port)
  {
    DoltEntryIs(vars, after, s, amb, t, GcHost);
    DoltEntryIs(vars, after, s, amb, t, Host);
    DoltEntryIs(vars, after, s, amb, t, GcPort);
    DoltEntryIs(vars, after, s, amb, t, Port);
  }

  /** and no other backend is named. */
  lemma DoltAlone(vars: Vars, after: Vars, s: Scope, amb: Ambient)
    requires IsFinal(after, vars, s, amb) && GoesToDolt(s)
    ensures NoPostgres(after) && NoBackendName(after)
  {
    forall k: Key | k.Postgres? || k == GcBackend || k == BeadsBackend ensures k !in after {
      OtherBackendIsGone(vars, after, s, amb, k);
    }
  }

  lemma OtherBackendIsGone(vars: Vars, after: Vars, s: Scope, amb: Ambient, k: Key)
    requires IsFinal(after, vars, s, amb) && GoesToDolt(s) && (k.Postgres? || k == GcBackend || k == BeadsBackend)
    ensures k !in after
  {
    ChosenExactlyWhen(s, Pg("", "", "", ""), None);
    EntryIs(after, vars, s, amb, k);
  }

  /** The credentials file: the map's, else the process's. */
  ghost predicate IsFile(vars: Vars, src: A.Sources, file: string) {
    var own := if Dolt(CredentialsFile) in vars then Trim(vars[Dolt(CredentialsFile)]) else "";
    file == if own != "" then own else Trim(src.credentialsFile)
  }

  /** The password, by precedence: the process, the store's own file, for the
      city's credentials the map, and last the credentials file. */
  ghost predicate IsPassword(vars: Vars, s: Scope, t: Target, file: string, password: string) {
    var src := s.sources;
    var own := if s.cityAuth && Dolt(Password) in vars then Trim(vars[Dolt(Password)]) else "";
    if Trim(src.password) != "" then password == Trim(src.password)
    else if src.storePassword != "" then password == Trim(src.storePassword)
    else if own != "" then password == own
    else password == Trim(A.FromFile(src, if t.external || !t.localHost then Trim(t.host) else "", if Trim(t.port) == "" then "" else t.port, file))
  }

  lemma FileIs(vars: Vars, src: A.Sources, file: string)
    requires IsFile(vars, src, file)
    ensures A.FileOf(src, Get(vars, Dolt(CredentialsFile))) == file
  {
  }

  lemma PasswordIs(vars: Vars, s: Scope, t: Target, file: string, password: string)
    requires IsPassword(vars, s, t, file, password)
    ensures Trim(A.PasswordOf(s.sources, HostOf(t), PortOf(t), file, if s.cityAuth then Get(vars, Dolt(Password)) else "")) == password
  {
    if Dolt(Password) in vars {
      TrimIdempotent(vars[Dolt(Password)]);
    }
    TrimIdempotent(s.sources.password);
  }

  lemma AuthIs(vars: Vars, s: Scope, t: Target, file: string, password: string)
    requires IsFile(vars, s.sources, file) && IsPassword(vars, s, t, file, password)
    ensures var user := if Trim(s.sources.user) != "" then Trim(s.sources.user) else Trim(t.user);
            AuthOf(vars, t, s.sources, s.cityAuth) == A.Resolved(user, password, file)
  {
    FileIs(vars, s.sources, file);
    PasswordIs(vars, s, t, file, password);
  }

  lemma CredentialsHold(vars: Vars, after: Vars, s: Scope, amb: Ambient, t: Target, auth: A.Resolved)
    requires IsFinal(after, vars, s, amb) && GoesToDolt(s) && s.target == Some(t) && auth == AuthOf(vars, t, s.sources, s.cityAuth)
    ensures Holds(after, Dolt(GcUser), auth.user) && Holds(after, Dolt(User), auth.user)
    ensures Holds(after, Dolt(GcPassword), auth.password) && Holds(after, Dolt(Password), auth.password)
    ensures Holds(after, Dolt(CredentialsFile), auth.credentialsFile)
  {
    DoltEntryIs(vars, after, s, amb, t, GcUser);
    DoltEntryIs(vars, after, s, amb, t, User);
    DoltEntryIs(vars, after, s, amb, t, GcPassword);
    DoltEntryIs(vars, after, s, amb, t, Password);
    DoltEntryIs(vars, after, s, amb, t, CredentialsFile);
  }

  /** Towards Dolt: user, password and credentials file, under both names. */
  lemma DoltAuthEntries(vars: Vars, after: Vars, s: Scope, amb: Ambient, t: Target, file: string, password: string)
    requires IsFinal(after, vars, s, amb) && GoesToDolt(s) && s.target == Some(t)
    requires IsFile(vars, s.sources, file) && IsPassword(vars, s, t, file, password)
    ensures var user := if Trim(s.sources.user) != "" then Trim(s.sources.user) else Trim(t.user);
            Holds(after, Dolt(GcUser), user) && Holds(after, Dolt(User), user)
    ensures Holds(after, Dolt(GcPassword), password) && Holds(after, Dolt(Password), password)
    ensures Holds(after, Dolt(CredentialsFile), file)
  {
    AuthIs(vars, s, t, file, password);
    CredentialsHold(vars, after, s, amb, t, AuthOf(vars, t, s.sources, s.cityAuth));
  }

  /** Towards Doltlite: its name under both keys, no address of any server, an
      empty port. */
  lemma DoltliteEntries(vars: Vars, after: Vars, s: Scope, amb: Ambient, d: DoltKey)
    requires IsFinal(after, vars, s, amb) && GoesToDoltlite(s)
    ensures GcBackend in after && after[GcBackend] == "doltlite" && BeadsBackend in after && after[BeadsBackend] == "doltlite"
    ensures d != Port ==> Dolt(d) !in after
    ensures Dolt(Port) in after && after[Dolt(Port)] == "" && NoPostgres(after)
  {
    ChosenExactlyWhen(s, Pg("", "", "", ""), None);
    EntryIs(after, vars, s, amb, GcBackend);
    EntryIs(after, vars, s, amb, BeadsBackend);
    EntryIs(after, vars, s, amb, Dolt(d));
    EntryIs(after, vars, s, amb, Dolt(Port));
    forall p ensures Postgres(p) !in after {
      EntryIs(after, vars, s, amb, Postgres(p));
    }
  }

  /** Towards Postgres: address and password of the scope or its city. Without
      a password no Postgres entry is left; either way no Dolt one is. */
  lemma PostgresEntries(vars: Vars, after: Vars, s: Scope, amb: Ambient, pg: Pg, password: Option<string>, d: DoltKey)
    requires IsFinal(after, vars, s, amb) && GoesToPostgres(s, pg, password)
    ensures password.Some? ==>
              && Postgres(PgHost) in after && after[Postgres(PgHost)] == pg.host
              && Postgres(PgPort) in after && after[Postgres(PgPort)] == pg.port
              && Postgres(PgUser) in after && after[Postgres(PgUser)] == pg.user
              && Postgres(PgDatabase) in after && after[Postgres(PgDatabase)] == pg.database
              && Postgres(GcPgPassword) in after && after[Postgres(GcPgPassword)] == password.value
              && Holds(after, Postgres(PgPassword), password.value)
    ensures password.None? ==> NoPostgres(after)
    ensures d != Port ==> Dolt(d) !in after
    ensures Dolt(Port) in after && after[Dolt(Port)] == "" && NoBackendName(after)
  {
    ChosenExactlyWhen(s, pg, password);
    EntryIs(after, vars, s, amb, GcBackend);
    EntryIs(after, vars, s, amb, BeadsBackend);
    EntryIs(after, vars, s, amb, Dolt(d));
    EntryIs(after, vars, s, amb, Dolt(Port));
    forall p ensures Lookup(after, Postgres(p)) == FinalAt(vars, s, amb, Postgres(p)) {
      EntryIs(after, vars, s, amb, Postgres(p));
    }
  }

  /** What else changes: TLS is asked for only towards an external host that is
      not local, from the map or else the process; the credential command is
      the first with text of four; every other key stays. */
  lemma SharedEntries(vars: Vars, after: Vars, s: Scope, amb: Ambient, name: string)
    requires IsFinal(after, vars, s, amb) && OutcomeOf(s) == Done
    ensures var own := if Tls in vars then Trim(vars[Tls]) else "";
            var carry := GoesToDolt(s) && s.target.value.external && !s.target.value.localHost;
            Tls in after && after[Tls] == (if !carry then "" else if own != "" then own else Trim(amb.tls))
    ensures var cmd, command := if CredCmd in vars then Trim(vars[CredCmd]) else "", if CredentialCommand in vars then Trim(vars[CredentialCommand]) else "";
            var first := if cmd != "" then cmd else if command != "" then command else if Trim(amb.credCmd) != "" then Trim(amb.credCmd) else Trim(amb.credentialCommand);
            if first != "" then CredentialCommand in after && after[CredentialCommand] == first
            else Lookup(after, CredentialCommand) == Lookup(vars, CredentialCommand)
    ensures Lookup(after, CredCmd) == Lookup(vars, CredCmd) && Lookup(after, Other(name)) == Lookup(vars, Other(name))
  {
    ChosenExactlyWhen(s, Pg("", "", "", ""), None);
    EntryIs(after, vars, s, amb, Tls);
    EntryIs(after, vars, s, amb, CredentialCommand);
    EntryIs(after, vars, s, amb, CredCmd);
    EntryIs(after, vars, s, amb, Other(name));
  }

  /** A scope that is not ours, or whose choice failed before a projection,
      keeps its map; a Dolt scope without a target only loses the names of the
      other backends. */
  lemma FailureEntries(vars: Vars, after: Vars, s: Scope, amb: Ambient, k: Key)
    requires IsFinal(after, vars, s, amb)
    ensures Choose(s).NotOurs? || Choose(s).Broken? ==> Lookup(after, k) == Lookup(vars, k)
    ensures GoesToDolt(s) && s.target.None? ==>
              Lookup(after, k) == if k.Postgres? || k == GcBackend || k == BeadsBackend then None else Lookup(vars, k)
  {
    ChosenExactlyWhen(s, Pg("", "", "", ""), None);
    EntryIs(after, vars, s, amb, k);
  }

  // ---- the endpoint of the credentials file --------------------------------------------

  /** The file, the default one where none is named, is asked about the host,
      127.0.0.1 where only a port is known, and the port as a positive number. */
  lemma FileIsAskedAbout(src: A.Sources, host: string, port: string, n: nat, file: string)
    requires 0 < n <= P.MAX_INT && (Trim(port) == P.Decimal(n) || Trim(port) == "+" + P.Decimal(n))
    ensures var path := if file != "" then file else src.defaultFile;
            var key := (path, if Trim(host) == "" then "127.0.0.1" else Trim(host), n);
            A.FromFile(src, host, port, file) == if path != "" && key in src.entries then src.entries[key] else ""
  {
    PortIsRead(port, n);
  }

  /** A port that is no number, zero or too large is no port: the file is not
      asked. */
  lemma FileIsNotAsked(src: A.Sources, host: string, port: string, file: string)
    requires var t := Trim(port);
             var d := if t != "" && t[0] == '+' then t[1..] else t;
             d == "" || (exists i | 0 <= i < |d| :: !('0' <= d[i] <= '9')) || (P.AllDigits(d) && (P.Value(d) == 0 || P.Value(d) > 0x7FFF_FFFF_FFFF_FFFF))
    ensures A.FromFile(src, host, port, file) == ""
  {
  }

  lemma PortIsRead(port: string, n: nat)
    requires 0 < n <= P.MAX_INT && (Trim(port) == P.Decimal(n) || Trim(port) == "+" + P.Decimal(n))
    ensures A.PortNumber(port) == n
  {
    var d := P.Decimal(n);
    P.ValueOfDecimal(n);
    assert P.IsDigit(d[0]);
    assert ("+" + d)[1..] == d;
  }
}
